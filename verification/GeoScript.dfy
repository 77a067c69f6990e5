/** tools/build_geo_packs.mjs, and its agreement with internal/geo/catalog.go. */
module GeoScript {
  import opened Entitlement
  import opened Desired
  import opened Text
  import opened Geo

  /** The characters String.prototype.trim strips: Go's set with the byte order mark and without
      NEXT LINE. */
  predicate IsScriptSpace(c: char) {
    c == '\U{feff}' || (IsSpace(c) && c != '\U{85}')
  }

  // Trimming a set of characters from both ends.

  function SkipWhile(s: string, strip: char -> bool, i: nat): (r: nat)
    requires i <= |s|
    ensures i <= r <= |s| && (r < |s| ==> !strip(s[r])) && forall k :: i <= k < r ==> strip(s[k])
    decreases |s| - i
  {
    if i == |s| || !strip(s[i]) then i else SkipWhile(s, strip, i + 1)
  }

  function DropWhile(s: string, strip: char -> bool, lo: nat, hi: nat): (r: nat)
    requires lo <= hi <= |s|
    ensures lo <= r <= hi && (r > lo ==> !strip(s[r - 1])) && forall k :: r <= k < hi ==> strip(s[k])
    decreases hi
  {
    if hi == lo || !strip(s[hi - 1]) then hi else DropWhile(s, strip, lo, hi - 1)
  }

  function TrimOf(s: string, strip: char -> bool): string {
    var lo := SkipWhile(s, strip, 0);
    s[lo..DropWhile(s, strip, lo, |s|)]
  }

  function ScriptTrim(s: string): string {
    TrimOf(s, IsScriptSpace)
  }

  /** toLowerCase, which writes the dotted capital I as i and a combining dot. */
  function ScriptLower(s: string): string {
    if s == "" then ""
    else (if s[0] == '\U{130}' then "i\U{307}" else [Lower(s[0])]) + ScriptLower(s[1..])
  }

  function ScriptCheck(s: string, suffix: bool): Option<string> {
    if s == "" || Forbidden(s) || !MatchesHostRe(s) then None
    else Some(if suffix then "." + s else s)
  }

  function ScriptNormalizeHost(raw: string, suffix: bool): Option<string> {
    ScriptCheck(StripDot(ScriptLower(ScriptTrim(raw))), suffix)
  }

  function ScriptNorm(suffix: bool): string -> Option<string> {
    raw => ScriptNormalizeHost(raw, suffix)
  }

  /** [...new Set(xs)], in order of insertion. */
  function Unique(xs: seq<string>): seq<string> {
    if xs == [] then []
    else
      var before := Unique(xs[..|xs| - 1]);
      if xs[|xs| - 1] in before then before else before + [xs[|xs| - 1]]
  }

  function UniqueSorted(xs: seq<string>): seq<string> {
    Sorted(Unique(xs))
  }

  /** xs.map(f), which stops at the first throw. */
  function Mapped(xs: seq<string>, f: string -> Option<string>): Option<seq<string>> {
    if xs == [] then Some([])
    else
      var before := Mapped(xs[..|xs| - 1], f);
      var last := f(xs[|xs| - 1]);
      if before.None? || last.None? then None else Some(before.value + [last.value])
  }

  /** /^[a-z][a-z0-9-]{0,31}$/ */
  predicate MatchesIdRe(id: string) {
    |id| >= 1 && 'a' <= id[0] <= 'z' && |id| - 1 <= 31 && forall i :: 1 <= i < |id| ==> Alnum(id[i]) || id[i] == '-'
  }

  // The script copies CIDR entries as they are, so JSON.stringify may have to escape them.

  /** The bytes JSON.stringify and UTF-8 give a character. */
  function JsonSize(c: char): nat {
    var x := c as int;
    if x in {0x22, 0x5c, 8, 9, 10, 12, 13} then 2
    else if x < 0x20 then 6
    else if x < 0x80 then 1
    else if x < 0x800 then 2
    else if x < 0x1_0000 then 3
    else 4
  }

  function Hex(n: nat): char
    requires n < 16
  {
    "0123456789abcdef"[n]
  }

  /** How JSON.stringify writes an ASCII character inside a string. */
  function Escaped(c: char): string
    requires c < '\U{80}'
  {
    if c == '"' then "\\\"" else if c == '\\' then "\\\\" else if c == '\U{8}' then "\\b"
    else if c == '\t' then "\\t" else if c == '\n' then "\\n" else if c == '\U{c}' then "\\f"
    else if c == '\r' then "\\r" else if c < ' ' then "\\u00" + [Hex(c as int / 16), Hex(c as int % 16)] else [c]
  }

  lemma EscapedSize(c: char)
    requires c < '\U{80}'
    ensures |Escaped(c)| == JsonSize(c)
  {
  }

  function TextSize(s: string): nat {
    if s == "" then 0 else TextSize(s[..|s| - 1]) + JsonSize(s[|s| - 1])
  }

  function ListSize(xs: seq<string>): nat {
    if xs == [] then 0
    else ListSize(xs[..|xs| - 1]) + (if |xs| == 1 then 0 else 1) + 2 + TextSize(xs[|xs| - 1])
  }

  predicate ScriptBounded(p: Pack) {
    0 < |p.domains| + |p.suffixes| + |p.cidrs| <= MAX_PACK_ENTRIES
    && |Body(p.(cidrs := []))| + ListSize(p.cidrs) <= MAX_PACK_BYTES
  }

  function ScriptCompile(id: string, domains: seq<string>, suffixes: seq<string>, cidrs: seq<string>): Option<Pack> {
    if !MatchesIdRe(id) then None
    else
      var ds, ss := Mapped(domains, ScriptNorm(false)), Mapped(suffixes, ScriptNorm(true));
      if ds.None? || ss.None? then None
      else
        var p := Pack(id, UniqueSorted(ds.value), UniqueSorted(ss.value), UniqueSorted(cidrs));
        if ScriptBounded(p) then Some(p) else None
  }

  // What trimming leaves.

  /** Everything outside s[lo..hi] is stripped, and its two ends are not. */
  ghost predicate IsCore(s: string, strip: char -> bool, lo: int, hi: int) {
    0 <= lo < hi <= |s| && !strip(s[lo]) && !strip(s[hi - 1])
    && (forall k :: 0 <= k < lo ==> strip(s[k])) && forall k :: hi <= k < |s| ==> strip(s[k])
  }

  lemma CoreIsTrim(s: string, strip: char -> bool, lo: nat, hi: nat)
    requires IsCore(s, strip, lo, hi)
    ensures TrimOf(s, strip) == s[lo..hi]
  {
    assert SkipWhile(s, strip, 0) == lo;
    assert DropWhile(s, strip, lo, |s|) == hi;
  }

  lemma TrimHasCore(s: string, strip: char -> bool) returns (lo: nat, hi: nat)
    requires TrimOf(s, strip) != ""
    ensures IsCore(s, strip, lo, hi) && TrimOf(s, strip) == s[lo..hi]
  {
    lo := SkipWhile(s, strip, 0);
    hi := DropWhile(s, strip, lo, |s|);
  }

  lemma {:induction false} SameSkip(s: string, i: nat)
    requires i <= |s|
    ensures SkipSpaces(s, i) == SkipWhile(s, IsSpace, i)
    decreases |s| - i
  {
    if i < |s| {
      SameSkip(s, i + 1);
    }
  }

  lemma {:induction false} SameDrop(s: string, lo: nat, hi: nat)
    requires lo <= hi <= |s|
    ensures DropSpaces(s, lo, hi) == DropWhile(s, IsSpace, lo, hi)
    decreases hi
  {
    if hi > lo {
      SameDrop(s, lo, hi - 1);
    }
  }

  lemma GoTrims(s: string)
    ensures TrimSpace(s) == TrimOf(s, IsSpace)
  {
    SameSkip(s, 0);
    SameDrop(s, SkipSpaces(s, 0), |s|);
  }

  /** What either side strips. */
  predicate IsEdge(c: char) {
    IsSpace(c) || c == '\U{feff}'
  }

  /** The entry trimmed of both sets, lowered as Go does, without a leading dot. */
  function HostCore(raw: string): string {
    StripDot(ToLower(TrimOf(raw, IsEdge)))
  }

  lemma HostIsLower(h: string)
    requires MatchesHostRe(h)
    ensures ToLower(h) == h
  {
    HostChars(h);
    forall i | 0 <= i < |h| ensures Lower(h[i]) == h[i] {
      assert h[i] in h;
    }
  }

  lemma HostIsPlain(h: string)
    requires MatchesHostRe(h)
    ensures !Forbidden(h)
  {
    HostChars(h);
  }

  /** No character of a text that lowers to a host is stripped by either side. */
  lemma HostTextHasNoEdge(t: string)
    requires MatchesHostRe(StripDot(ToLower(t)))
    ensures t != "" && forall i :: 0 <= i < |t| ==> !IsEdge(t[i])
  {
    var low := ToLower(t);
    HostChars(StripDot(low));
    forall i | 0 <= i < |t| ensures !IsEdge(t[i]) {
      if i > 0 {
        InStripDot(low, i);
      } else if low[0] != '.' {
        InStripDot(low, 0);
      }
    }
  }

  lemma InStripDot(s: string, i: nat)
    requires i < |s| && (i > 0 || s[0] != '.')
    ensures s[i] in StripDot(s)
  {
    if s[0] == '.' {
      assert s[1..][i - 1] == s[i];
    }
  }

  /** A trim whose text lowers to a host is the trim of both sets. */
  lemma HostTrimIsCore(raw: string, strip: char -> bool) returns (lo: nat, hi: nat)
    requires forall c :: strip(c) ==> IsEdge(c)
    requires MatchesHostRe(StripDot(ToLower(TrimOf(raw, strip))))
    ensures IsCore(raw, strip, lo, hi) && TrimOf(raw, strip) == TrimOf(raw, IsEdge) == raw[lo..hi]
    ensures forall k :: lo <= k < hi ==> !IsEdge(raw[k])
  {
    var t := TrimOf(raw, strip);
    HostTextHasNoEdge(t);
    lo, hi := TrimHasCore(raw, strip);
    forall k | lo <= k < hi ensures !IsEdge(raw[k]) {
      assert t[k - lo] == raw[k];
    }
    CoreIsTrim(raw, IsEdge, lo, hi);
  }

  /** The trim of both sets is either side's, when it lowers to a host and that side strips all
      around it. */
  lemma CoreIsHostTrim(raw: string, strip: char -> bool)
    requires forall c :: strip(c) ==> IsEdge(c)
    requires MatchesHostRe(HostCore(raw)) && forall k :: 0 <= k < |raw| && IsEdge(raw[k]) ==> strip(raw[k])
    ensures TrimOf(raw, strip) == TrimOf(raw, IsEdge)
  {
    HostTextHasNoEdge(TrimOf(raw, IsEdge));
    var lo, hi := TrimHasCore(raw, IsEdge);
    assert !strip(raw[lo]) && !strip(raw[hi - 1]);
    CoreIsTrim(raw, strip, lo, hi);
  }

  lemma GoHostIff(raw: string)
    ensures MatchesHostRe(StripDot(Clean(raw))) <==> MatchesHostRe(HostCore(raw)) && '\U{feff}' !in raw
    ensures MatchesHostRe(StripDot(Clean(raw))) ==> StripDot(Clean(raw)) == HostCore(raw)
  {
    GoTrims(raw);
    if MatchesHostRe(StripDot(Clean(raw))) {
      var lo, hi := HostTrimIsCore(raw, IsSpace);
      assert forall k :: 0 <= k < |raw| ==> raw[k] != '\U{feff}';
    } else if MatchesHostRe(HostCore(raw)) && '\U{feff}' !in raw {
      assert forall k :: 0 <= k < |raw| ==> raw[k] in raw;
      CoreIsHostTrim(raw, IsSpace);
    }
  }

  // Lowering.

  lemma {:induction false} SameLower(s: string)
    requires '\U{130}' !in s
    ensures ScriptLower(s) == ToLower(s)
  {
    if s != "" {
      assert s[0] in s && forall c :: c in s[1..] ==> c in s;
      SameLower(s[1..]);
      assert ToLower(s) == [Lower(s[0])] + ToLower(s[1..]);
    }
  }

  lemma {:induction false} DottedLower(s: string)
    requires '\U{130}' in s
    ensures '\U{307}' in ScriptLower(s)
  {
    if s[0] == '\U{130}' {
      assert ScriptLower(s)[1] == '\U{307}';
    } else {
      assert s == [s[0]] + s[1..];
      DottedLower(s[1..]);
    }
  }

  lemma DottedIsNoHost(t: string)
    requires '\U{130}' in t
    ensures !MatchesHostRe(StripDot(ScriptLower(t)))
  {
    DottedLower(t);
    var low := ScriptLower(t);
    var i :| 0 <= i < |low| && low[i] == '\U{307}';
    InStripDot(low, i);
    if MatchesHostRe(StripDot(low)) {
      HostChars(StripDot(low));
    }
  }

  lemma ScriptHostIff(raw: string)
    ensures MatchesHostRe(StripDot(ScriptLower(ScriptTrim(raw))))
            <==> MatchesHostRe(HostCore(raw)) && '\U{85}' !in raw && '\U{130}' !in raw
    ensures MatchesHostRe(StripDot(ScriptLower(ScriptTrim(raw)))) ==>
              StripDot(ScriptLower(ScriptTrim(raw))) == HostCore(raw)
  {
    var t := ScriptTrim(raw);
    if MatchesHostRe(StripDot(ScriptLower(t))) {
      ScriptHostIsCore(raw);
    } else if MatchesHostRe(HostCore(raw)) && '\U{85}' !in raw && '\U{130}' !in raw {
      assert forall k :: 0 <= k < |raw| ==> raw[k] in raw;
      CoreIsHostTrim(raw, IsScriptSpace);
      assert forall c :: c in t ==> c in raw;
      SameLower(t);
    }
  }

  lemma ScriptHostIsCore(raw: string)
    requires MatchesHostRe(StripDot(ScriptLower(ScriptTrim(raw))))
    ensures StripDot(ScriptLower(ScriptTrim(raw))) == HostCore(raw) && '\U{85}' !in raw && '\U{130}' !in raw
  {
    var t := ScriptTrim(raw);
    if '\U{130}' in t {
      DottedIsNoHost(t);
    }
    SameLower(t);
    var lo, hi := HostTrimIsCore(raw, IsScriptSpace);
    forall k | 0 <= k < |raw| ensures raw[k] != '\U{85}' && raw[k] != '\U{130}' {
      if lo <= k < hi {
        assert t[k - lo] == raw[k];
      }
    }
  }

  // Agreement, entry by entry.

  /** The entries Go accepts. */
  predicate GoEntry(raw: string) {
    MatchesHostRe(HostCore(raw)) && !IsIPv4(HostCore(raw)) && '\U{feff}' !in raw
  }

  /** The entries the script accepts. */
  predicate ScriptEntry(raw: string) {
    MatchesHostRe(HostCore(raw)) && '\U{85}' !in raw && '\U{130}' !in raw
  }

  function Written(raw: string, suffix: bool): string {
    if suffix then "." + HostCore(raw) else HostCore(raw)
  }

  /** Each side's entry check, said without trimming or lowering as it does. */
  lemma EntriesAre(raw: string, suffix: bool)
    ensures NormalizeHost(raw, suffix) == if GoEntry(raw) then Some(Written(raw, suffix)) else None
    ensures ScriptNormalizeHost(raw, suffix) == if ScriptEntry(raw) then Some(Written(raw, suffix)) else None
  {
    GoHostIff(raw);
    ScriptHostIff(raw);
    if MatchesHostRe(HostCore(raw)) {
      HostIsPlain(HostCore(raw));
      HostChars(HostCore(raw));
    }
  }

  lemma {:induction false} FieldChars(s: string, c: char)
    requires c in s && c != '.'
    ensures exists f :: f in SplitDots(s) && c in f
  {
    if '.' in s {
      var i := FirstDot(s);
      SplitAtDot(s, i);
      assert s == s[..i] + ['.'] + s[i + 1..];
      if c in s[..i] {
        assert SplitDots(s)[0] == s[..i];
      } else {
        FieldChars(s[i + 1..], c);
        var f :| f in SplitDots(s[i + 1..]) && c in f;
        assert f in SplitDots(s);
      }
    } else {
      SplitWithoutDot(s);
      assert SplitDots(s)[0] == s;
    }
  }

  lemma LettersAreNoAddress(h: string)
    requires 'i' in h
    ensures !IsIPv4(h)
  {
    FieldChars(h, 'i');
  }

  lemma LowersToI(t: string, k: nat)
    requires k < |t| && t[k] == '\U{130}'
    ensures 'i' in StripDot(ToLower(t))
  {
    assert ToLower(t)[k] == 'i';
    InStripDot(ToLower(t), k);
  }

  lemma DottedInCore(raw: string, lo: nat, hi: nat) returns (k: nat)
    requires IsCore(raw, IsEdge, lo, hi) && '\U{130}' in raw
    ensures lo <= k < hi && raw[k] == '\U{130}'
  {
    k :| 0 <= k < |raw| && raw[k] == '\U{130}';
    assert !IsEdge(raw[k]);
  }

  lemma DottedIsI(raw: string)
    requires TrimOf(raw, IsEdge) != "" && '\U{130}' in raw
    ensures 'i' in HostCore(raw)
  {
    var lo, hi := TrimHasCore(raw, IsEdge);
    var k := DottedInCore(raw, lo, hi);
    LowersToI(raw[lo..hi], k - lo);
  }

  /** The exact condition for one entry: the two sides agree if and only if what both trims leave is
      no host, or is an address that NEXT LINE keeps the script from accepting, or else the byte
      order mark is there exactly when NEXT LINE or the dotted capital I is. */
  lemma HostsAgreeIff(raw: string, suffix: bool)
    ensures NormalizeHost(raw, suffix) == ScriptNormalizeHost(raw, suffix)
            <==> !MatchesHostRe(HostCore(raw))
                 || if IsIPv4(HostCore(raw)) then '\U{85}' in raw
                    else ('\U{feff}' in raw <==> '\U{85}' in raw || '\U{130}' in raw)
  {
    EntriesAre(raw, suffix);
    if MatchesHostRe(HostCore(raw)) && '\U{130}' in raw {
      HostTextHasNoEdge(TrimOf(raw, IsEdge));
      DottedIsI(raw);
      LettersAreNoAddress(HostCore(raw));
    }
  }

  // Agreement, list by list and pack by pack.

  predicate AllGo(raws: seq<string>) {
    forall raw :: raw in raws ==> GoEntry(raw)
  }

  predicate AllScript(raws: seq<string>) {
    forall raw :: raw in raws ==> ScriptEntry(raw)
  }

  function WrittenAll(raws: seq<string>, suffix: bool): seq<string> {
    if raws == [] then [] else WrittenAll(raws[..|raws| - 1], suffix) + [Written(raws[|raws| - 1], suffix)]
  }

  lemma UniqueMore(xs: seq<string>, x: string)
    ensures Unique(xs + [x]) == if x in Unique(xs) then Unique(xs) else Unique(xs) + [x]
  {
    assert (xs + [x])[..|xs|] == xs;
  }

  lemma AllButLast(accepts: string -> bool, raws: seq<string>)
    requires raws != []
    ensures (forall raw :: raw in raws ==> accepts(raw))
            <==> (forall raw :: raw in raws[..|raws| - 1] ==> accepts(raw)) && accepts(raws[|raws| - 1])
  {
    assert raws == raws[..|raws| - 1] + [raws[|raws| - 1]];
  }

  lemma {:induction false} GoListIs(raws: seq<string>, suffix: bool)
    ensures Collected(raws, Norm(suffix)).Ok? <==> AllGo(raws)
    ensures AllGo(raws) ==> Collected(raws, Norm(suffix)).value == Unique(WrittenAll(raws, suffix))
  {
    if raws != [] {
      var before, last := raws[..|raws| - 1], raws[|raws| - 1];
      GoListIs(before, suffix);
      EntriesAre(last, suffix);
      AllButLast(GoEntry, raws);
      UniqueMore(WrittenAll(before, suffix), Written(last, suffix));
    }
  }

  lemma {:induction false} ScriptListIs(raws: seq<string>, suffix: bool)
    ensures Mapped(raws, ScriptNorm(suffix)).Some? <==> AllScript(raws)
    ensures AllScript(raws) ==> Mapped(raws, ScriptNorm(suffix)).value == WrittenAll(raws, suffix)
  {
    if raws != [] {
      var before, last := raws[..|raws| - 1], raws[|raws| - 1];
      ScriptListIs(before, suffix);
      EntriesAre(last, suffix);
      AllButLast(ScriptEntry, raws);
    }
  }

  lemma IdsAgree(id: string)
    ensures MatchesIdRe(id) <==> ValidPackId(id)
  {
    if MatchesIdRe(id) {
      assert forall i :: 0 <= i < |id| ==> id[i] == '-' || Alnum(id[i]);
    }
  }

  /** The pack of the entries as written, whoever compiles it, with this list of CIDRs. */
  function WrittenPack(id: string, domains: seq<string>, suffixes: seq<string>, cidrs: seq<string>): Pack {
    Pack(id, UniqueSorted(WrittenAll(domains, false)), UniqueSorted(WrittenAll(suffixes, true)), cidrs)
  }

  /** What Go needs to succeed. */
  predicate GoTakes(id: string, domains: seq<string>, suffixes: seq<string>, cidrs: seq<string>,
                    cidr: string -> Option<string>) {
    ValidPackId(id) && AllGo(domains + suffixes) && Collected(cidrs, cidr).Ok?
    && Bounded(WrittenPack(id, domains, suffixes, Sorted(Collected(cidrs, cidr).value))).Ok?
  }

  /** What the script needs to succeed. */
  predicate ScriptTakes(id: string, domains: seq<string>, suffixes: seq<string>, cidrs: seq<string>) {
    ValidPackId(id) && AllScript(domains + suffixes)
    && ScriptBounded(WrittenPack(id, domains, suffixes, UniqueSorted(cidrs)))
  }

  lemma GoCompiles(id: string, domains: seq<string>, suffixes: seq<string>, cidrs: seq<string>,
                   cidr: string -> Option<string>)
    ensures var go := CompileResult(id, domains, suffixes, cidrs, cidr);
            (go.Ok? <==> GoTakes(id, domains, suffixes, cidrs, cidr))
            && (go.Ok? ==> go.value == WrittenPack(id, domains, suffixes, Sorted(Collected(cidrs, cidr).value)))
  {
    GoListIs(domains, false);
    GoListIs(suffixes, true);
    assert AllGo(domains + suffixes) <==> AllGo(domains) && AllGo(suffixes);
  }

  lemma ScriptCompiles(id: string, domains: seq<string>, suffixes: seq<string>, cidrs: seq<string>)
    ensures var script := ScriptCompile(id, domains, suffixes, cidrs);
            (script.Some? <==> ScriptTakes(id, domains, suffixes, cidrs))
            && (script.Some? ==> script.value == WrittenPack(id, domains, suffixes, UniqueSorted(cidrs)))
  {
    IdsAgree(id);
    ScriptListIs(domains, false);
    ScriptListIs(suffixes, true);
    assert AllScript(domains + suffixes) <==> AllScript(domains) && AllScript(suffixes);
  }

  // CIDR entries, which Go normalises and the script copies.

  /** Every entry is written as Go would write it. */
  predicate InNormalForm(cidrs: seq<string>, cidr: string -> Option<string>) {
    forall raw :: raw in cidrs ==> cidr(raw) == Some(raw)
  }

  predicate JsonPlain(s: string) {
    forall c :: c in s ==> JsonSize(c) == 1
  }

  /** What the agreement needs of the normal form: it normalises to itself and is not escaped. */
  predicate Steady(cidrs: seq<string>, cidr: string -> Option<string>) {
    forall raw :: raw in cidrs && cidr(raw).Some? ==> cidr(cidr(raw).value) == cidr(raw) && JsonPlain(cidr(raw).value)
  }

  lemma {:induction false} UniqueIs(xs: seq<string>)
    ensures Distinct(Unique(xs)) && Elements(Unique(xs)) == Elements(xs)
  {
    if xs != [] {
      var before, last := xs[..|xs| - 1], xs[|xs| - 1];
      UniqueIs(before);
      assert xs == before + [last];
      assert Elements(xs) == Elements(before) + {last};
      assert last in Unique(before) <==> last in Elements(Unique(before));
      assert Elements(Unique(before) + [last]) == Elements(Unique(before)) + {last};
    }
  }

  lemma {:induction false} NormalFormIsKept(cidrs: seq<string>, cidr: string -> Option<string>)
    requires InNormalForm(cidrs, cidr)
    ensures Collected(cidrs, cidr) == Ok(Unique(cidrs))
  {
    if cidrs != [] {
      assert cidrs == cidrs[..|cidrs| - 1] + [cidrs[|cidrs| - 1]];
      NormalFormIsKept(cidrs[..|cidrs| - 1], cidr);
    }
  }

  /** Go writes the entries as the script copies them only if they are in normal form. */
  lemma SameListIsNormal(cidrs: seq<string>, cidr: string -> Option<string>)
    requires Steady(cidrs, cidr) && Collected(cidrs, cidr).Ok?
    requires Sorted(Collected(cidrs, cidr).value) == UniqueSorted(cidrs)
    ensures InNormalForm(cidrs, cidr)
  {
    CollectedIs(cidrs, cidr);
    SortedIsIncreasing(Collected(cidrs, cidr).value);
    UniqueIs(cidrs);
    SortedIsIncreasing(Unique(cidrs));
    forall raw | raw in cidrs ensures cidr(raw) == Some(raw) {
      assert raw in NormalSet(Elements(cidrs), cidr);
      var x :| x in Elements(cidrs) && cidr(x).Some? && cidr(x).value == raw;
    }
  }

  lemma {:induction false} PlainTextSize(s: string)
    requires JsonPlain(s)
    ensures TextSize(s) == |s|
  {
    if s != "" {
      assert s[|s| - 1] in s;
      PlainTextSize(s[..|s| - 1]);
    }
  }

  lemma {:induction false} PlainListSize(xs: seq<string>)
    requires forall x :: x in xs ==> JsonPlain(x)
    ensures ListSize(xs) == |QuotedList(xs)|
  {
    if xs != [] {
      assert xs[|xs| - 1] in xs;
      PlainTextSize(xs[|xs| - 1]);
      PlainListSize(xs[..|xs| - 1]);
    }
  }

  /** On entries in normal form the script's limits are Go's. */
  lemma NormalFormBounds(p: Pack, cidrs: seq<string>, cidr: string -> Option<string>)
    requires p.cidrs == UniqueSorted(cidrs) && InNormalForm(cidrs, cidr) && Steady(cidrs, cidr)
    ensures ScriptBounded(p) <==> Bounded(p).Ok?
  {
    UniqueIs(cidrs);
    SortedIsIncreasing(Unique(cidrs));
    forall x | x in p.cidrs ensures JsonPlain(x) {
      assert x in Elements(p.cidrs);
    }
    PlainListSize(p.cidrs);
    assert QuotedList([]) == "";
  }

  /** The two compilers end alike: both refuse, or both succeed with the same pack and the same body. */
  predicate EndAlike(go: Result<Pack, PackError>, script: Option<Pack>) {
    if go.Ok? && script.Some? then go.value == script.value && Body(go.value) == Body(script.value)
    else go.Err? && script.None?
  }

  /** The exact condition for a whole allowlist. With every CIDR in normal form, the two compilers end
      alike if and only if they accept all its hosts together or not at all, or the id or the size is
      out of bounds. With another CIDR they end alike only by both refusing. */
  lemma CompilersAgreeIff(id: string, domains: seq<string>, suffixes: seq<string>, cidrs: seq<string>,
                          cidr: string -> Option<string>)
    requires Steady(cidrs, cidr)
    ensures EndAlike(CompileResult(id, domains, suffixes, cidrs, cidr), ScriptCompile(id, domains, suffixes, cidrs))
            <==> if InNormalForm(cidrs, cidr) then
                   (AllGo(domains + suffixes) <==> AllScript(domains + suffixes))
                   || !ValidPackId(id) || Bounded(WrittenPack(id, domains, suffixes, UniqueSorted(cidrs))).Err?
                 else
                   !GoTakes(id, domains, suffixes, cidrs, cidr) && !ScriptTakes(id, domains, suffixes, cidrs)
  {
    GoCompiles(id, domains, suffixes, cidrs, cidr);
    ScriptCompiles(id, domains, suffixes, cidrs);
    if InNormalForm(cidrs, cidr) {
      NormalFormIsKept(cidrs, cidr);
      NormalFormBounds(WrittenPack(id, domains, suffixes, UniqueSorted(cidrs)), cidrs, cidr);
    } else if CompileResult(id, domains, suffixes, cidrs, cidr).Ok? {
      if Sorted(Collected(cidrs, cidr).value) == UniqueSorted(cidrs) {
        SameListIsNormal(cidrs, cidr);
      }
    }
  }

  /** The geo pack the script publishes is the one Go serves if and only if Go accepts every host and every
      CIDR is in normal form. */
  lemma PublishedIsServedIff(id: string, domains: seq<string>, suffixes: seq<string>, cidrs: seq<string>,
                             cidr: string -> Option<string>)
    requires Steady(cidrs, cidr) && ScriptCompile(id, domains, suffixes, cidrs).Some?
    ensures CompileResult(id, domains, suffixes, cidrs, cidr) == Ok(ScriptCompile(id, domains, suffixes, cidrs).value)
            <==> AllGo(domains + suffixes) && InNormalForm(cidrs, cidr)
  {
    GoCompiles(id, domains, suffixes, cidrs, cidr);
    ScriptCompiles(id, domains, suffixes, cidrs);
    CompilersAgreeIff(id, domains, suffixes, cidrs, cidr);
  }

  /** None of the three characters on which the two trim or lower differently. */
  predicate Plain(raw: string) {
    '\U{85}' !in raw && '\U{feff}' !in raw && '\U{130}' !in raw
  }

  /** On allowlists without those characters and with CIDRs in normal form, Go succeeds exactly when
      the script does and no host is an address. */
  lemma PlainCompilersAgree(id: string, domains: seq<string>, suffixes: seq<string>, cidrs: seq<string>,
                            cidr: string -> Option<string>)
    requires forall raw :: raw in domains + suffixes ==> Plain(raw)
    requires Steady(cidrs, cidr) && InNormalForm(cidrs, cidr)
    ensures CompileResult(id, domains, suffixes, cidrs, cidr).Ok?
            <==> ScriptCompile(id, domains, suffixes, cidrs).Some?
                 && forall raw :: raw in domains + suffixes ==> !IsIPv4(HostCore(raw))
  {
    GoCompiles(id, domains, suffixes, cidrs, cidr);
    ScriptCompiles(id, domains, suffixes, cidrs);
    NormalFormIsKept(cidrs, cidr);
    NormalFormBounds(WrittenPack(id, domains, suffixes, UniqueSorted(cidrs)), cidrs, cidr);
  }

  lemma OneCidrFits(id: string, x: string)
    requires ValidPackId(id) && |x| < 100 && JsonPlain(x)
    ensures var pack := Pack(id, [], [], [x]); Bounded(pack).Ok? && ScriptBounded(pack)
  {
    PlainTextSize(x);
    assert [x][..0] == [] && QuotedList([]) == "" && ListSize([]) == 0;
    assert |QuotedList([x])| == |x| + 2 && ListSize([x]) == |x| + 2;
    assert |Body(Pack(id, [], [], [x]))| < 1000 && |Body(Pack(id, [], [], []))| < 1000;
  }

  lemma OneCidrLists(x: string, cidr: string -> Option<string>)
    requires cidr(x).Some?
    ensures UniqueSorted([x]) == [x] && UniqueSorted([]) == []
    ensures Collected([x], cidr) == Ok([cidr(x).value]) && Sorted([cidr(x).value]) == [cidr(x).value]
  {
    var y := cidr(x).value;
    assert [x][..0] == [] && [y][..0] == [];
    assert Unique([]) == [] && Collected([], cidr) == Ok([]) && Sorted([]) == [];
    assert Unique([x]) == [x];
    var none: seq<string> := [];
    assert none + [y] == [y];
  }

  /** What each side makes of one CIDR. */
  lemma OneCidrPacks(id: string, x: string, cidr: string -> Option<string>)
    requires ValidPackId(id) && cidr(x).Some? && |x| < 100 && |cidr(x).value| < 100
    requires JsonPlain(x) && JsonPlain(cidr(x).value)
    ensures CompileResult(id, [], [], [x], cidr) == Ok(Pack(id, [], [], [cidr(x).value]))
    ensures ScriptCompile(id, [], [], [x]) == Some(Pack(id, [], [], [x]))
  {
    OneCidrLists(x, cidr);
    OneCidrFits(id, x);
    OneCidrFits(id, cidr(x).value);
    assert WrittenAll([], false) == [] && WrittenAll([], true) == [];
    assert WrittenPack(id, [], [], [x]) == Pack(id, [], [], [x]);
    GoCompiles(id, [], [], [x], cidr);
    ScriptCompiles(id, [], [], [x]);
  }

  // Entries on which they part, one for each of the three characters.

  lemma CoreOfAppended(h: string, c: char)
    requires MatchesHostRe(h) && IsEdge(c)
    ensures HostCore(h + [c]) == h
  {
    HostIsLower(h);
    HostTextHasNoEdgeItself(h);
    var raw := h + [c];
    assert raw[0] == h[0] && raw[|h| - 1] == h[|h| - 1];
    CoreIsTrim(raw, IsEdge, 0, |h|);
    assert raw[0..|h|] == h;
    HostChars(h);
  }

  lemma HostTextHasNoEdgeItself(h: string)
    requires MatchesHostRe(h)
    ensures h != "" && forall i :: 0 <= i < |h| ==> !IsEdge(h[i])
  {
    HostChars(h);
    HostIsLower(h);
    HostTextHasNoEdge(h);
  }

  lemma HostIsPlainText(h: string)
    requires MatchesHostRe(h)
    ensures Plain(h)
  {
    HostChars(h);
  }

  lemma AppendedHas(h: string, c: char)
    requires MatchesHostRe(h)
    ensures c in h + [c]
    ensures '\U{85}' in h + [c] <==> c == '\U{85}'
    ensures '\U{feff}' in h + [c] <==> c == '\U{feff}'
    ensures '\U{130}' in h + [c] <==> c == '\U{130}'
  {
    HostIsPlainText(h);
  }

  /** A host name followed by NEXT LINE: Go trims it, the script refuses the entry. */
  lemma NextLineDivides(h: string)
    requires MatchesHostRe(h) && !IsIPv4(h)
    ensures NormalizeHost(h + ['\U{85}'], false) == Some(h) && ScriptNormalizeHost(h + ['\U{85}'], false) == None
  {
    CoreOfAppended(h, '\U{85}');
    AppendedHas(h, '\U{85}');
    EntriesAre(h + ['\U{85}'], false);
  }

  /** A host name followed by the byte order mark: the script trims it, Go refuses the entry. */
  lemma ByteOrderMarkDivides(h: string)
    requires MatchesHostRe(h)
    ensures ScriptNormalizeHost(h + ['\U{feff}'], false) == Some(h) && NormalizeHost(h + ['\U{feff}'], false) == None
  {
    CoreOfAppended(h, '\U{feff}');
    AppendedHas(h, '\U{feff}');
    EntriesAre(h + ['\U{feff}'], false);
  }

  lemma CoreOfDotted(h: string, k: nat)
    requires MatchesHostRe(h) && k < |h| && h[k] == 'i'
    ensures HostCore(h[k := '\U{130}']) == h && '\U{feff}' !in h[k := '\U{130}']
  {
    var raw := h[k := '\U{130}'];
    HostTextHasNoEdgeItself(h);
    HostIsLower(h);
    DottedLowersAlike(h, k);
    NoEdgeIsUntrimmed(raw);
    StripDotOfHost(h);
  }

  lemma DottedLowersAlike(h: string, k: nat)
    requires k < |h| && h[k] == 'i'
    ensures ToLower(h[k := '\U{130}']) == ToLower(h)
  {
  }

  lemma NoEdgeIsUntrimmed(raw: string)
    requires raw != "" && forall i :: 0 <= i < |raw| ==> !IsEdge(raw[i])
    ensures TrimOf(raw, IsEdge) == raw && '\U{feff}' !in raw
  {
    CoreIsTrim(raw, IsEdge, 0, |raw|);
    assert raw[0..|raw|] == raw;
  }

  lemma StripDotOfHost(h: string)
    requires MatchesHostRe(h)
    ensures StripDot(h) == h
  {
    HostChars(h);
  }

  /** A host name with an i written as the dotted capital: Go lowers it, the script refuses it. */
  lemma DottedCapitalDivides(h: string, k: nat)
    requires MatchesHostRe(h) && !IsIPv4(h) && k < |h| && h[k] == 'i'
    ensures NormalizeHost(h[k := '\U{130}'], false) == Some(h) && ScriptNormalizeHost(h[k := '\U{130}'], false) == None
  {
    var raw := h[k := '\U{130}'];
    CoreOfDotted(h, k);
    assert raw[k] in raw;
    EntriesAre(raw, false);
  }
}
