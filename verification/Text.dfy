/** Go string helpers used across the control plane, on sequences of characters. */
module Text {

  /** unicode.IsSpace, the set strings.TrimSpace strips. */
  predicate IsSpace(c: char) {
    '\t' <= c <= '\r' || c == ' ' || c == '\U{85}' || c == '\U{a0}' || c == '\U{1680}'
    || '\U{2000}' <= c <= '\U{200a}' || c == '\U{2028}' || c == '\U{2029}' || c == '\U{202f}'
    || c == '\U{205f}' || c == '\U{3000}'
  }

  /** strings.ToLower, exact wherever the result is ASCII: only the Kelvin sign and the dotted
      capital I have an ASCII lower case besides A-Z. Other letters keep their own character,
      which no caller can tell from their lower case. */
  function Lower(c: char): (r: char)
    ensures IsSpace(r) == IsSpace(c)
  {
    if 'A' <= c <= 'Z' then (c as int + 32) as char
    else if c == '\U{212a}' then 'k'
    else if c == '\U{130}' then 'i'
    else c
  }

  function ToLower(s: string): string {
    seq(|s|, i requires 0 <= i < |s| => Lower(s[i]))
  }

  /** Index of the first character from i on that is no space. */
  function SkipSpaces(s: string, i: nat): (r: nat)
    requires i <= |s|
    ensures i <= r <= |s| && (r < |s| ==> !IsSpace(s[r]))
    decreases |s| - i
  {
    if i == |s| || !IsSpace(s[i]) then i else SkipSpaces(s, i + 1)
  }

  /** End of s[lo..hi] once its trailing spaces are dropped. */
  function DropSpaces(s: string, lo: nat, hi: nat): (r: nat)
    requires lo <= hi <= |s|
    ensures lo <= r <= hi && (r > lo ==> !IsSpace(s[r - 1]))
    decreases hi
  {
    if hi == lo || !IsSpace(s[hi - 1]) then hi else DropSpaces(s, lo, hi - 1)
  }

  function TrimSpace(s: string): string {
    var lo := SkipSpaces(s, 0);
    s[lo..DropSpaces(s, lo, |s|)]
  }

  predicate IsTrimmed(s: string) {
    s == "" || (!IsSpace(s[0]) && !IsSpace(s[|s| - 1]))
  }

  /** Trimming leaves no space at either end, and leaves a trimmed string alone. */
  lemma TrimSpaceTrims(s: string)
    ensures IsTrimmed(TrimSpace(s))
    ensures IsTrimmed(s) ==> TrimSpace(s) == s
  {
  }

  predicate Blank(s: string) {
    TrimSpace(s) == ""
  }

  /** Lower case with no space at either end. */
  predicate IsCleanWord(s: string) {
    IsTrimmed(s) && ToLower(s) == s
  }

  /** The keyword cleaning applied to every listen field: lower case of the trimmed text. */
  function Clean(s: string): string {
    ToLower(TrimSpace(s))
  }

  lemma LowerTwice(c: char)
    ensures Lower(Lower(c)) == Lower(c)
  {
  }

  lemma ToLowerTwice(s: string)
    ensures ToLower(ToLower(s)) == ToLower(s)
  {
    forall i | 0 <= i < |s| ensures Lower(Lower(s[i])) == Lower(s[i]) {
      LowerTwice(s[i]);
    }
  }

  /** Cleaning yields a clean word, and leaves a clean word alone. */
  lemma CleanCleans(s: string)
    ensures IsCleanWord(Clean(s))
    ensures IsCleanWord(s) ==> Clean(s) == s
  {
    TrimSpaceTrims(s);
    ToLowerTwice(TrimSpace(s));
  }

  lemma LettersAreClean(s: string)
    requires forall i :: 0 <= i < |s| ==> 'a' <= s[i] <= 'z'
    ensures Clean(s) == s
  {
    assert forall i :: 0 <= i < |s| ==> Lower(s[i]) == s[i] && !IsSpace(s[i]);
    assert ToLower(s) == s;
    CleanCleans(s);
  }
}
