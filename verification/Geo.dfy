/** internal/geo/catalog.go: allowlists compiled to canonical packs. net.ParseCIDR is a parameter. */
module Geo {
  import opened Entitlement
  import opened Desired
  import opened Text

  const MAX_PACK_BYTES := 524_288
  const MAX_PACK_ENTRIES := 2000

  // Strings in the order of sort.Strings.

  predicate Less(a: string, b: string) {
    b != "" && (a == "" || a[0] < b[0] || (a[0] == b[0] && Less(a[1..], b[1..])))
  }

  lemma {:induction false} LessIsTotal(a: string, b: string)
    ensures Less(a, b) || a == b || Less(b, a)
    ensures !(Less(a, b) && Less(b, a)) && !Less(a, a)
  {
    if a != "" && b != "" {
      LessIsTotal(a[1..], b[1..]);
      assert a == [a[0]] + a[1..] && b == [b[0]] + b[1..];
    }
    if a != "" {
      LessIsTotal(a[1..], a[1..]);
    }
  }

  lemma {:induction false} LessIsTransitive(a: string, b: string, c: string)
    requires Less(a, b) && Less(b, c)
    ensures Less(a, c)
  {
    if a != "" && a[0] == b[0] == c[0] {
      LessIsTransitive(a[1..], b[1..], c[1..]);
    }
  }

  /** The order is Go's: a text comes before its extensions, and otherwise the first character that
      differs decides. */
  lemma {:induction false} LessIff(a: string, b: string)
    ensures Less(a, b) <==> a != b && (a <= b || exists i :: DifferAt(a, b, i) && a[i] < b[i])
  {
    if a != "" && b != "" {
      LessIff(a[1..], b[1..]);
      assert a == [a[0]] + a[1..] && b == [b[0]] + b[1..];
      if a[0] == b[0] {
        assert a <= b <==> a[1..] <= b[1..];
        forall i | DifferAt(a[1..], b[1..], i) ensures DifferAt(a, b, i + 1) {
          assert a[..i + 1] == [a[0]] + a[1..][..i] && b[..i + 1] == [b[0]] + b[1..][..i];
        }
        forall i | DifferAt(a, b, i) ensures i > 0 && DifferAt(a[1..], b[1..], i - 1) {
          assert a[1..][..i - 1] == a[..i][1..] && b[1..][..i - 1] == b[..i][1..];
        }
        if i :| DifferAt(a[1..], b[1..], i) && a[1..][i] < b[1..][i] {
          assert DifferAt(a, b, i + 1);
        }
        if i :| DifferAt(a, b, i) && a[i] < b[i] {
          assert DifferAt(a[1..], b[1..], i - 1);
        }
      } else {
        assert DifferAt(a, b, 0);
      }
    }
  }

  ghost predicate DifferAt(a: string, b: string, i: int) {
    0 <= i < |a| && i < |b| && a[..i] == b[..i] && a[i] != b[i]
  }

  ghost predicate Increasing(xs: seq<string>) {
    forall i, j :: 0 <= i < j < |xs| ==> Less(xs[i], xs[j])
  }

  function Elements(xs: seq<string>): set<string> {
    set x | x in xs
  }

  function Insert(xs: seq<string>, x: string): seq<string> {
    if xs == [] || !Less(xs[0], x) then [x] + xs else [xs[0]] + Insert(xs[1..], x)
  }

  /** sort.Strings. */
  function Sorted(xs: seq<string>): seq<string> {
    if xs == [] then [] else Insert(Sorted(xs[..|xs| - 1]), xs[|xs| - 1])
  }

  lemma {:induction false} InsertKeepsIncreasing(xs: seq<string>, x: string)
    requires Increasing(xs) && x !in xs
    ensures Increasing(Insert(xs, x)) && Elements(Insert(xs, x)) == Elements(xs) + {x} && |Insert(xs, x)| == |xs| + 1
  {
    if xs != [] {
      LessIsTotal(xs[0], x);
      var rest := xs[1..];
      assert xs == [xs[0]] + rest;
      if Less(xs[0], x) {
        InsertKeepsIncreasing(rest, x);
        var out := Insert(rest, x);
        forall y | y in out ensures Less(xs[0], y) {
          assert y in Elements(out);
          if y in rest {
            var i :| 0 <= i < |rest| && rest[i] == y;
            assert Less(xs[0], xs[i + 1]);
          }
        }
      } else {
        forall i | 0 <= i < |xs| ensures Less(x, xs[i]) {
          if i > 0 {
            LessIsTransitive(x, xs[0], xs[i]);
          }
        }
      }
    }
  }

  ghost predicate Distinct(xs: seq<string>) {
    forall i, j :: 0 <= i < j < |xs| ==> xs[i] != xs[j]
  }

  lemma {:induction false} SortedIsIncreasing(xs: seq<string>)
    requires Distinct(xs)
    ensures Increasing(Sorted(xs)) && Elements(Sorted(xs)) == Elements(xs) && |Sorted(xs)| == |xs|
  {
    if xs != [] {
      var before, x := xs[..|xs| - 1], xs[|xs| - 1];
      assert xs == before + [x];
      SortedIsIncreasing(before);
      assert x !in Sorted(before) by {
        assert x !in Elements(before);
        assert forall y :: y in Sorted(before) ==> y in Elements(Sorted(before));
      }
      InsertKeepsIncreasing(Sorted(before), x);
    }
  }

  /** An increasing list is known by its elements. */
  lemma {:induction false} IncreasingIsUnique(xs: seq<string>, ys: seq<string>)
    requires Increasing(xs) && Increasing(ys) && Elements(xs) == Elements(ys)
    ensures xs == ys
  {
    if xs == [] {
      assert forall i :: 0 <= i < |ys| ==> ys[i] in Elements(ys);
    } else {
      assert xs[0] in Elements(ys) && ys != [];
      assert ys[0] in Elements(xs);
      var i :| 0 <= i < |ys| && ys[i] == xs[0];
      var j :| 0 <= j < |xs| && xs[j] == ys[0];
      LessIsTotal(xs[0], ys[0]);
      assert i == 0 && j == 0;
      var xs', ys' := xs[1..], ys[1..];
      assert xs == [xs[0]] + xs' && ys == [ys[0]] + ys';
      LessIsTotal(xs[0], xs[0]);
      assert xs[0] !in xs' && ys[0] !in ys';
      assert Elements(xs') == Elements(xs) - {xs[0]} && Elements(ys') == Elements(ys) - {ys[0]};
      IncreasingIsUnique(xs', ys');
    }
  }

  // Host names.

  predicate Alnum(c: char) {
    'a' <= c <= 'z' || '0' <= c <= '9'
  }

  /** [a-z0-9]([a-z0-9-]{0,61}[a-z0-9])? */
  predicate MatchesLabel(s: string) {
    |s| >= 1 && Alnum(s[0])
    && (|s| == 1
        || (|s| - 2 <= 61 && Alnum(s[|s| - 1]) && forall i :: 1 <= i < |s| - 1 ==> Alnum(s[i]) || s[i] == '-'))
  }

  /** hostRe: a label, then one or more of a dot and a label. */
  predicate MatchesHostRe(s: string) {
    exists i :: 0 <= i < |s| && MatchesLabel(s[..i]) && s[i] == '.'
      && (MatchesLabel(s[i + 1..]) || MatchesHostRe(s[i + 1..]))
  }

  /** The parts of s between dots. */
  function SplitDots(s: string): (parts: seq<string>)
    ensures parts != []
  {
    if s == "" then [""]
    else
      var rest := SplitDots(s[1..]);
      if s[0] == '.' then [""] + rest else [[s[0]] + rest[0]] + rest[1..]
  }

  /** A label of section 2.1 of RFC 1123, in lower case: 1 to 63 letters, digits and hyphens, with
      no hyphen at either end. */
  ghost predicate IsHostLabel(s: string) {
    1 <= |s| <= 63 && (forall c :: c in s ==> Alnum(c) || c == '-') && s[0] != '-' && s[|s| - 1] != '-'
  }

  ghost predicate IsHostname(s: string) {
    |SplitDots(s)| >= 2 && forall p :: p in SplitDots(s) ==> IsHostLabel(p)
  }

  lemma LabelForms(s: string)
    ensures MatchesLabel(s) <==> IsHostLabel(s)
    ensures MatchesLabel(s) ==> '.' !in s
  {
    if MatchesLabel(s) {
      forall c | c in s ensures Alnum(c) || c == '-' {
        var i :| 0 <= i < |s| && s[i] == c;
      }
    }
    if IsHostLabel(s) {
      assert forall i :: 0 <= i < |s| ==> s[i] in s;
    }
  }

  lemma {:induction false} SplitAtDot(s: string, i: nat)
    requires i < |s| && s[i] == '.' && '.' !in s[..i]
    ensures SplitDots(s) == [s[..i]] + SplitDots(s[i + 1..])
  {
    if i > 0 {
      assert s[0] in s[..i];
      assert s[1..][..i - 1] == s[1..i] && forall c :: c in s[1..i] ==> c in s[..i];
      SplitAtDot(s[1..], i - 1);
      assert s[1..][i..] == s[i + 1..];
      assert s[..i] == [s[0]] + s[1..i];
    } else {
      assert s[..0] == "";
    }
  }

  lemma {:induction false} SplitWithoutDot(s: string)
    requires '.' !in s
    ensures SplitDots(s) == [s]
  {
    if s != "" {
      assert s[0] in s && forall c :: c in s[1..] ==> c in s;
      SplitWithoutDot(s[1..]);
      assert s == [s[0]] + s[1..];
    }
  }

  lemma {:induction false} FirstDot(s: string) returns (i: nat)
    requires '.' in s
    ensures i < |s| && s[i] == '.' && '.' !in s[..i]
  {
    if s[0] == '.' {
      i := 0;
    } else {
      assert s == [s[0]] + s[1..];
      var j := FirstDot(s[1..]);
      i := j + 1;
      assert s[..i] == [s[0]] + s[1..][..j];
    }
  }

  lemma OneFirstDot(s: string, i: nat, k: nat)
    requires i < |s| && s[i] == '.' && '.' !in s[..i]
    requires k < |s| && s[k] == '.' && '.' !in s[..k]
    ensures i == k
  {
    assert forall j :: 0 <= j < i ==> s[..i][j] == s[j] && s[j] in s[..i];
    assert forall j :: 0 <= j < k ==> s[..k][j] == s[j] && s[j] in s[..k];
  }

  lemma ReAtFirstDot(s: string, i: nat)
    requires i < |s| && s[i] == '.' && '.' !in s[..i]
    ensures MatchesHostRe(s)
            <==> MatchesLabel(s[..i]) && (MatchesLabel(s[i + 1..]) || MatchesHostRe(s[i + 1..]))
  {
    if MatchesHostRe(s) {
      var k :| 0 <= k < |s| && MatchesLabel(s[..k]) && s[k] == '.'
               && (MatchesLabel(s[k + 1..]) || MatchesHostRe(s[k + 1..]));
      LabelForms(s[..k]);
      OneFirstDot(s, i, k);
    }
  }

  /** Every part is a label; one part is not yet a host name. */
  ghost predicate AllLabels(s: string) {
    forall p :: p in SplitDots(s) ==> IsHostLabel(p)
  }

  lemma LabelsAtFirstDot(s: string, i: nat)
    requires i < |s| && s[i] == '.' && '.' !in s[..i]
    ensures IsHostname(s) <==> IsHostLabel(s[..i]) && AllLabels(s[i + 1..])
  {
    SplitAtDot(s, i);
    assert SplitDots(s)[0] == s[..i];
    assert forall p :: p in SplitDots(s[i + 1..]) ==> p in SplitDots(s);
  }

  lemma AllLabelsIff(s: string)
    ensures AllLabels(s) <==> IsHostLabel(s) || IsHostname(s)
  {
    LabelForms(s);
    if |SplitDots(s)| == 1 {
      OnePart(s);
    } else if IsHostLabel(s) {
      SplitWithoutDot(s);
    }
  }

  /** The regular expression accepts exactly the host names of two labels or more. */
  lemma {:induction false} HostReIsHostname(s: string)
    ensures MatchesHostRe(s) <==> IsHostname(s)
    decreases |s|
  {
    if '.' !in s {
      SplitWithoutDot(s);
    } else {
      var i := FirstDot(s);
      ReAtFirstDot(s, i);
      LabelsAtFirstDot(s, i);
      LabelForms(s[..i]);
      LabelForms(s[i + 1..]);
      AllLabelsIff(s[i + 1..]);
      HostReIsHostname(s[i + 1..]);
    }
  }

  lemma {:induction false} OnePart(s: string)
    requires |SplitDots(s)| == 1
    ensures SplitDots(s) == [s]
  {
    if '.' in s {
      var i := FirstDot(s);
      SplitAtDot(s, i);
    } else {
      SplitWithoutDot(s);
    }
  }

  lemma {:induction false} HostChars(s: string)
    requires MatchesHostRe(s)
    ensures s != "" && Alnum(s[0]) && Alnum(s[|s| - 1])
    ensures forall c :: c in s ==> Alnum(c) || c == '-' || c == '.'
    decreases |s|
  {
    var i :| 0 <= i < |s| && MatchesLabel(s[..i]) && s[i] == '.'
             && (MatchesLabel(s[i + 1..]) || MatchesHostRe(s[i + 1..]));
    LabelForms(s[..i]);
    LabelForms(s[i + 1..]);
    if !MatchesLabel(s[i + 1..]) {
      HostChars(s[i + 1..]);
    }
    forall c | c in s ensures Alnum(c) || c == '-' || c == '.' {
      var j :| 0 <= j < |s| && s[j] == c;
      if j < i {
        assert s[..i][j] in s[..i];
      } else if j > i {
        assert s[i + 1..][j - i - 1] in s[i + 1..];
      }
    }
    assert s[..i][0] == s[0];
    assert s[|s| - 1] == s[i + 1..][|s| - i - 2];
  }

  // net.ParseIP on a string without a colon: dotted decimal, four fields, no leading zero.

  predicate IsDecimalByte(f: string) {
    1 <= |f| <= 3 && (forall i :: 0 <= i < |f| ==> '0' <= f[i] <= '9') && (|f| > 1 ==> f[0] != '0')
    && (|f| == 3 ==> f[0] < '2' || (f[0] == '2' && (f[1] < '5' || (f[1] == '5' && f[2] <= '5'))))
  }

  predicate IsIPv4(s: string) {
    |SplitDots(s)| == 4 && forall f :: f in SplitDots(s) ==> IsDecimalByte(f)
  }

  function StripDot(s: string): string {
    if s != "" && s[0] == '.' then s[1..] else s
  }

  predicate Forbidden(s: string) {
    ' ' in s || '/' in s || ':' in s || '*' in s
  }

  /** The host check once trimmed, lowered and stripped of one leading dot. */
  function CheckHost(s: string, suffix: bool): Option<string> {
    if s == "" || Forbidden(s) || IsIPv4(s) || !MatchesHostRe(s) then None
    else Some(if suffix then "." + s else s)
  }

  function NormalizeHost(raw: string, suffix: bool): Option<string> {
    CheckHost(StripDot(Clean(raw)), suffix)
  }

  function Norm(suffix: bool): string -> Option<string> {
    raw => NormalizeHost(raw, suffix)
  }

  lemma HostIsItsOwnNorm(s: string, suffix: bool)
    requires CheckHost(s, suffix).Some?
    ensures NormalizeHost(CheckHost(s, suffix).value, suffix) == CheckHost(s, suffix)
  {
    var h := CheckHost(s, suffix).value;
    HostChars(s);
    assert h == s || h == "." + s;
    forall i | 0 <= i < |h| ensures Lower(h[i]) == h[i] && !IsSpace(h[i]) {
      assert h[i] == '.' || h[i] in s;
    }
    assert ToLower(h) == h;
    CleanCleans(h);
    assert StripDot(h) == s;
  }

  lemma OneDotIsStripped(s: string)
    ensures StripDot("." + s) == s && (s == "" || s[0] != '.' ==> StripDot(s) == s)
  {
    assert ("." + s)[1..] == s;
  }

  /** A normalised entry normalises to itself. */
  lemma NormalizeHostTwice(raw: string, suffix: bool)
    requires NormalizeHost(raw, suffix).Some?
    ensures NormalizeHost(NormalizeHost(raw, suffix).value, suffix) == NormalizeHost(raw, suffix)
    ensures IsHostname(StripDot(Clean(raw)))
  {
    HostIsItsOwnNorm(StripDot(Clean(raw)), suffix);
    HostReIsHostname(StripDot(Clean(raw)));
  }

  // Packs.

  datatype Pack = Pack(id: string, domains: seq<string>, suffixes: seq<string>, cidrs: seq<string>)
  datatype PackError = InvalidId | BadDomain(raw: string) | BadSuffix(raw: string) | BadCIDR(raw: string)
                     | EmptyList | TooMany(n: nat) | TooLarge(n: nat)

  predicate ValidPackId(id: string) {
    id != "" && |id| <= 32 && (forall i :: 0 <= i < |id| ==> id[i] == '-' || Alnum(id[i])) && 'a' <= id[0] <= 'z'
  }

  function QuotedList(xs: seq<string>): string {
    if xs == [] then ""
    else QuotedList(xs[..|xs| - 1]) + (if |xs| == 1 then "" else ",") + "\"" + xs[|xs| - 1] + "\""
  }

  /** The JSON body served and hashed. */
  function Body(p: Pack): string {
    "{\"id\":\"" + p.id + "\",\"domains\":[" + QuotedList(p.domains) + "],\"suffixes\":[" + QuotedList(p.suffixes)
    + "],\"cidrs\":[" + QuotedList(p.cidrs) + "]}"
  }

  /** Normalised entries in order of first appearance, or the first entry refused. */
  function Collected(raws: seq<string>, norm: string -> Option<string>): Result<seq<string>, string> {
    if raws == [] then Ok([])
    else
      match Collected(raws[..|raws| - 1], norm)
      case Err(raw) => Err(raw)
      case Ok(out) =>
        match norm(raws[|raws| - 1])
        case None => Err(raws[|raws| - 1])
        case Some(h) => Ok(if h in out then out else out + [h])
  }

  function Bounded(p: Pack): Result<Pack, PackError> {
    var n := |p.domains| + |p.suffixes| + |p.cidrs|;
    if n == 0 then Err(EmptyList)
    else if n > MAX_PACK_ENTRIES then Err(TooMany(n))
    else if |Body(p)| > MAX_PACK_BYTES then Err(TooLarge(|Body(p)|))
    else Ok(p)
  }

  function CompileResult(id: string, domains: seq<string>, suffixes: seq<string>, cidrs: seq<string>,
                         cidr: string -> Option<string>): Result<Pack, PackError> {
    if !ValidPackId(id) then Err(InvalidId)
    else
      match Collected(domains, Norm(false))
      case Err(raw) => Err(BadDomain(raw))
      case Ok(ds) =>
        match Collected(suffixes, Norm(true))
        case Err(raw) => Err(BadSuffix(raw))
        case Ok(ss) =>
          match Collected(cidrs, cidr)
          case Err(raw) => Err(BadCIDR(raw))
          case Ok(cs) => Bounded(Pack(id, Sorted(ds), Sorted(ss), Sorted(cs)))
  }

  /** One of the three loops of CompilePack, over a seen-map and a list. */
  method CollectEntries(raws: seq<string>, norm: string -> Option<string>) returns (r: Result<seq<string>, string>)
    ensures r == Collected(raws, norm)
  {
    var out: seq<string> := [];
    var seen: set<string> := {};
    for i := 0 to |raws|
      invariant Collected(raws[..i], norm) == Ok(out)
      invariant seen == Elements(out)
    {
      assert raws[..i + 1][..i] == raws[..i];
      match norm(raws[i]) {
        case None =>
          FirstRefusalStays(raws, norm, i + 1);
          return Err(raws[i]);
        case Some(h) =>
          assert h in seen <==> h in out;
          if h !in seen {
            assert Elements(out + [h]) == Elements(out) + {h};
            seen := seen + {h};
            out := out + [h];
          }
      }
    }
    assert raws[..|raws|] == raws;
    r := Ok(out);
  }

  lemma {:induction false} FirstRefusalStays(raws: seq<string>, norm: string -> Option<string>, k: nat)
    requires k <= |raws| && Collected(raws[..k], norm).Err?
    ensures Collected(raws, norm) == Collected(raws[..k], norm)
    decreases |raws|
  {
    if k == |raws| {
      assert raws[..k] == raws;
    } else {
      assert raws[..|raws| - 1][..k] == raws[..k];
      FirstRefusalStays(raws[..|raws| - 1], norm, k);
    }
  }

  method CompilePack(id: string, domains: seq<string>, suffixes: seq<string>, cidrs: seq<string>,
                     cidr: string -> Option<string>) returns (r: Result<Pack, PackError>)
    ensures r == CompileResult(id, domains, suffixes, cidrs, cidr)
  {
    if !ValidPackId(id) {
      return Err(InvalidId);
    }
    var ds := CollectEntries(domains, Norm(false));
    if ds.Err? {
      return Err(BadDomain(ds.error));
    }
    var ss := CollectEntries(suffixes, Norm(true));
    if ss.Err? {
      return Err(BadSuffix(ss.error));
    }
    var cs := CollectEntries(cidrs, cidr);
    if cs.Err? {
      return Err(BadCIDR(cs.error));
    }
    var pack := Pack(id, Sorted(ds.value), Sorted(ss.value), Sorted(cs.value));
    var n := |pack.domains| + |pack.suffixes| + |pack.cidrs|;
    if n == 0 {
      return Err(EmptyList);
    }
    if n > MAX_PACK_ENTRIES {
      return Err(TooMany(n));
    }
    if |Body(pack)| > MAX_PACK_BYTES {
      return Err(TooLarge(|Body(pack)|));
    }
    r := Ok(pack);
  }

  // Canonicity.

  ghost predicate AllNormal(raws: set<string>, norm: string -> Option<string>) {
    forall raw :: raw in raws ==> norm(raw).Some?
  }

  ghost function NormalSet(raws: set<string>, norm: string -> Option<string>): set<string> {
    set raw | raw in raws && norm(raw).Some? :: norm(raw).value
  }

  lemma {:induction false} CollectedIs(raws: seq<string>, norm: string -> Option<string>)
    ensures Collected(raws, norm).Ok? <==> AllNormal(Elements(raws), norm)
    ensures Collected(raws, norm).Ok? ==>
              Distinct(Collected(raws, norm).value)
              && Elements(Collected(raws, norm).value) == NormalSet(Elements(raws), norm)
  {
    if raws != [] {
      var before, last := raws[..|raws| - 1], raws[|raws| - 1];
      CollectedIs(before, norm);
      assert raws == before + [last];
      assert Elements(raws) == Elements(before) + {last};
      if Collected(before, norm).Ok? && norm(last).Some? {
        var out, h := Collected(before, norm).value, norm(last).value;
        assert Elements(out + [h]) == Elements(out) + {h};
        assert NormalSet(Elements(raws), norm) == NormalSet(Elements(before), norm) + {h};
        if h in out {
          assert h in Elements(out);
        }
      }
    }
  }

  /** A sorted collected list: increasing, with exactly the normalised entries. */
  ghost predicate Canonical(list: seq<string>, raws: seq<string>, norm: string -> Option<string>) {
    AllNormal(Elements(raws), norm) && Increasing(list) && Elements(list) == NormalSet(Elements(raws), norm)
  }

  lemma CollectedIsCanonical(raws: seq<string>, norm: string -> Option<string>)
    requires Collected(raws, norm).Ok?
    ensures Canonical(Sorted(Collected(raws, norm).value), raws, norm)
  {
    CollectedIs(raws, norm);
    SortedIsIncreasing(Collected(raws, norm).value);
  }

  lemma CanonicalDomainIsHost(list: seq<string>, raws: seq<string>, h: string)
    requires Canonical(list, raws, Norm(false)) && h in list
    ensures IsHostname(h)
  {
    assert h in Elements(list);
    var raw :| raw in Elements(raws) && Norm(false)(raw).Some? && Norm(false)(raw).value == h;
    NormalizeHostTwice(raw, false);
  }

  lemma CanonicalSuffixIsHost(list: seq<string>, raws: seq<string>, h: string)
    requires Canonical(list, raws, Norm(true)) && h in list
    ensures h != "" && h[0] == '.' && IsHostname(h[1..])
  {
    assert h in Elements(list);
    var raw :| raw in Elements(raws) && Norm(true)(raw).Some? && Norm(true)(raw).value == h;
    NormalizeHostTwice(raw, true);
    assert h[1..] == StripDot(Clean(raw));
  }

  /** A compiled pack is canonical: three strictly increasing lists holding the normalised entries,
      the hosts among them host names. */
  lemma CompiledPackIsCanonical(id: string, domains: seq<string>, suffixes: seq<string>, cidrs: seq<string>,
                                cidr: string -> Option<string>)
    requires CompileResult(id, domains, suffixes, cidrs, cidr).Ok?
    ensures var p := CompileResult(id, domains, suffixes, cidrs, cidr).value;
            p.id == id && Canonical(p.domains, domains, Norm(false)) && Canonical(p.suffixes, suffixes, Norm(true))
            && Canonical(p.cidrs, cidrs, cidr)
            && (forall h :: h in p.domains ==> IsHostname(h))
            && (forall h :: h in p.suffixes ==> h != "" && h[0] == '.' && IsHostname(h[1..]))
  {
    var p := CompileResult(id, domains, suffixes, cidrs, cidr).value;
    CollectedIsCanonical(domains, Norm(false));
    CollectedIsCanonical(suffixes, Norm(true));
    CollectedIsCanonical(cidrs, cidr);
    forall h | h in p.domains ensures IsHostname(h) {
      CanonicalDomainIsHost(p.domains, domains, h);
    }
    forall h | h in p.suffixes ensures h != "" && h[0] == '.' && IsHostname(h[1..]) {
      CanonicalSuffixIsHost(p.suffixes, suffixes, h);
    }
  }

  /** raw is the first entry refused. */
  ghost predicate FirstRefused(raws: seq<string>, norm: string -> Option<string>, raw: string) {
    norm(raw).None?
    && exists i :: 0 <= i < |raws| && raws[i] == raw && forall k :: 0 <= k < i ==> norm(raws[k]).Some?
  }

  lemma {:induction false} CollectedRefuses(raws: seq<string>, norm: string -> Option<string>)
    requires Collected(raws, norm).Err?
    ensures FirstRefused(raws, norm, Collected(raws, norm).error)
  {
    var before := raws[..|raws| - 1];
    if Collected(before, norm).Err? {
      CollectedRefuses(before, norm);
      var i :| 0 <= i < |before| && before[i] == Collected(raws, norm).error
               && forall k :: 0 <= k < i ==> norm(before[k]).Some?;
      assert raws[i] == before[i] && forall k :: 0 <= k < i ==> raws[k] == before[k];
    } else {
      CollectedIs(before, norm);
      forall k | 0 <= k < |before| ensures norm(raws[k]).Some? {
        assert raws[k] == before[k] && before[k] in Elements(before);
      }
    }
  }

  lemma {:induction false} DistinctSize(xs: seq<string>)
    requires Distinct(xs)
    ensures |Elements(xs)| == |xs|
  {
    if xs != [] {
      var before, x := xs[..|xs| - 1], xs[|xs| - 1];
      DistinctSize(before);
      assert xs == before + [x];
      assert x !in Elements(before);
      assert Elements(xs) == Elements(before) + {x};
    }
  }

  lemma CollectedSize(raws: seq<string>, norm: string -> Option<string>)
    requires Collected(raws, norm).Ok?
    ensures |Sorted(Collected(raws, norm).value)| == |NormalSet(Elements(raws), norm)|
  {
    CollectedIs(raws, norm);
    SortedIsIncreasing(Collected(raws, norm).value);
    DistinctSize(Collected(raws, norm).value);
  }

  /** How many different entries there are once normalised. */
  ghost function Entries(d: seq<string>, s: seq<string>, c: seq<string>, cidr: string -> Option<string>): nat {
    |NormalSet(Elements(d), Norm(false))| + |NormalSet(Elements(s), Norm(true))| + |NormalSet(Elements(c), cidr)|
  }

  lemma BoundedExplains(p: Pack)
    ensures var n := |p.domains| + |p.suffixes| + |p.cidrs|;
            match Bounded(p)
            case Err(EmptyList) => n == 0
            case Err(TooMany(m)) => m == n > 2000
            case Err(TooLarge(m)) => 0 < n <= 2000 && m == |Body(p)| > 512 * 1024
            case Ok(q) => q == p && 0 < n <= 2000 && |Body(p)| <= 512 * 1024
            case _ => false
  {
  }

  /** What the result of compiling an allowlist says: the first entry refused, domains before suffixes
      before CIDRs, or which limit is exceeded, and none is when it succeeds. */
  ghost predicate Explains(r: Result<Pack, PackError>, id: string, d: seq<string>, s: seq<string>, c: seq<string>,
                           cidr: string -> Option<string>) {
    match r
    case Err(InvalidId) => !ValidPackId(id)
    case Err(BadDomain(raw)) => ValidPackId(id) && FirstRefused(d, Norm(false), raw)
    case Err(BadSuffix(raw)) => AllNormal(Elements(d), Norm(false)) && FirstRefused(s, Norm(true), raw)
    case Err(BadCIDR(raw)) => AllNormal(Elements(s), Norm(true)) && FirstRefused(c, cidr, raw)
    case Err(EmptyList) => Entries(d, s, c, cidr) == 0
    case Err(TooMany(n)) => n == Entries(d, s, c, cidr) > 2000
    case Err(TooLarge(n)) => Entries(d, s, c, cidr) <= 2000 && n > 512 * 1024
    case Ok(p) => 0 < Entries(d, s, c, cidr) <= 2000 && |Body(p)| <= 512 * 1024
  }

  lemma OutcomeExplains(id: string, d: seq<string>, s: seq<string>, c: seq<string>, cidr: string -> Option<string>)
    ensures Explains(CompileResult(id, d, s, c, cidr), id, d, s, c, cidr)
  {
    var ds, ss, cs := Collected(d, Norm(false)), Collected(s, Norm(true)), Collected(c, cidr);
    if ds.Err? {
      CollectedRefuses(d, Norm(false));
    } else if ss.Err? {
      CollectedIs(d, Norm(false));
      CollectedRefuses(s, Norm(true));
    } else if cs.Err? {
      CollectedIs(s, Norm(true));
      CollectedRefuses(c, cidr);
    } else {
      CollectedSize(d, Norm(false));
      CollectedSize(s, Norm(true));
      CollectedSize(c, cidr);
      BoundedExplains(Pack(id, Sorted(ds.value), Sorted(ss.value), Sorted(cs.value)));
    }
  }

  lemma QuotedOneAndTwo(x: string, y: string)
    ensures QuotedList([]) == "" && QuotedList([x]) == "\"" + x + "\""
    ensures QuotedList([x, y]) == "\"" + x + "\",\"" + y + "\""
  {
    assert [x][..0] == [] && [x, y][..1] == [x];
    assert QuotedList([x]) == "" + "" + "\"" + x + "\"";
    assert QuotedList([x, y]) == QuotedList([x]) + "," + "\"" + y + "\"";
  }

  /** A body, written out. */
  lemma BodyOfExample(id: string, d: string, s: string, t: string)
    ensures Body(Pack(id, [d], [s, t], []))
            == "{\"id\":\"" + id + "\",\"domains\":[" + ("\"" + d + "\"") + "],\"suffixes\":["
               + ("\"" + s + "\",\"" + t + "\"") + "],\"cidrs\":[" + "" + "]}"
  {
    QuotedOneAndTwo(d, d);
    QuotedOneAndTwo(s, t);
  }

  /** A canonical list depends on the set of entries only. */
  lemma SameEntriesSameList(raws: seq<string>, raws': seq<string>, norm: string -> Option<string>)
    requires Elements(raws) == Elements(raws')
    ensures Collected(raws, norm).Ok? == Collected(raws', norm).Ok?
    ensures Collected(raws, norm).Ok? ==> Sorted(Collected(raws, norm).value) == Sorted(Collected(raws', norm).value)
  {
    CollectedIs(raws, norm);
    CollectedIs(raws', norm);
    if Collected(raws, norm).Ok? {
      SortedIsIncreasing(Collected(raws, norm).value);
      SortedIsIncreasing(Collected(raws', norm).value);
      IncreasingIsUnique(Sorted(Collected(raws, norm).value), Sorted(Collected(raws', norm).value));
    }
  }

  /** Permuting or repeating entries changes neither whether an allowlist compiles nor the geo pack that results. */
  lemma PackIgnoresOrderAndRepeats(id: string, d: seq<string>, s: seq<string>, c: seq<string>,
                                   d': seq<string>, s': seq<string>, c': seq<string>, cidr: string -> Option<string>)
    requires Elements(d) == Elements(d') && Elements(s) == Elements(s') && Elements(c) == Elements(c')
    ensures CompileResult(id, d, s, c, cidr).Ok? == CompileResult(id, d', s', c', cidr).Ok?
    ensures CompileResult(id, d, s, c, cidr).Ok? ==>
              CompileResult(id, d, s, c, cidr) == CompileResult(id, d', s', c', cidr)
  {
    SameEntriesSameList(d, d', Norm(false));
    SameEntriesSameList(s, s', Norm(true));
    SameEntriesSameList(c, c', cidr);
  }

  lemma RecompiledList(raws: seq<string>, norm: string -> Option<string>)
    requires Collected(raws, norm).Ok?
    requires forall raw :: norm(raw).Some? ==> norm(norm(raw).value) == norm(raw)
    ensures var list := Sorted(Collected(raws, norm).value);
            Collected(list, norm).Ok? && Sorted(Collected(list, norm).value) == list
  {
    var list := Sorted(Collected(raws, norm).value);
    CollectedIs(raws, norm);
    SortedIsIncreasing(Collected(raws, norm).value);
    CollectedIs(list, norm);
    assert AllNormal(Elements(list), norm);
    forall h | h in Elements(list) ensures h in NormalSet(Elements(list), norm) {
      assert norm(h) == Some(h);
    }
    assert NormalSet(Elements(list), norm) == Elements(list);
    SortedIsIncreasing(Collected(list, norm).value);
    IncreasingIsUnique(Sorted(Collected(list, norm).value), list);
  }

  /** Compiling a pack's own lists gives the same geo pack again, when CIDRs in normal form normalise
      to themselves. */
  lemma RecompilingWithNorm(id: string, domains: seq<string>, suffixes: seq<string>, cidrs: seq<string>,
                            cidr: string -> Option<string>)
    requires CompileResult(id, domains, suffixes, cidrs, cidr).Ok?
    requires forall raw :: cidr(raw).Some? ==> cidr(cidr(raw).value) == cidr(raw)
    ensures var p := CompileResult(id, domains, suffixes, cidrs, cidr).value;
            CompileResult(id, p.domains, p.suffixes, p.cidrs, cidr) == Ok(p)
  {
    forall raw | Norm(false)(raw).Some? ensures Norm(false)(Norm(false)(raw).value) == Norm(false)(raw) {
      NormalizeHostTwice(raw, false);
    }
    forall raw | Norm(true)(raw).Some? ensures Norm(true)(Norm(true)(raw).value) == Norm(true)(raw) {
      NormalizeHostTwice(raw, true);
    }
    RecompiledList(domains, Norm(false));
    RecompiledList(suffixes, Norm(true));
    RecompiledList(cidrs, cidr);
  }
}
