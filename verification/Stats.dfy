/** internal/xrayrun/stats.go: per-user byte counts from Xray's stat rows, values already decoded. */
module Stats {
  import opened Entitlement
  import opened Text

  datatype Direction = Uplink | Downlink
  datatype Row = Row(name: string, value: int)
  datatype UserBytes = UserBytes(email: string, uplink: int, downlink: int)

  /** A parsed stat name. */
  datatype Counter = Counter(email: string, dir: Direction)

  function DirName(d: Direction): string {
    if d.Uplink? then "uplink" else "downlink"
  }

  predicate SepAt(s: string, i: int) {
    0 <= i && i + 3 <= |s| && s[i] == '>' && s[i + 1] == '>' && s[i + 2] == '>'
  }

  /** Index of the first ">>>" from i on, or the length of s. */
  function FirstSep(s: string, i: nat): (r: nat)
    requires i <= |s|
    ensures i <= r <= |s| && (r < |s| ==> SepAt(s, r)) && forall k :: i <= k < r ==> !SepAt(s, k)
    decreases |s| - i
  {
    if i == |s| then i else if SepAt(s, i) then i else FirstSep(s, i + 1)
  }

  /** strings.Split(s, ">>>"). */
  function Split(s: string): seq<string> {
    var i := FirstSep(s, 0);
    if i == |s| then [s] else [s[..i]] + Split(s[i + 3..])
  }

  function DirOf(s: string): Option<Direction> {
    if s == "uplink" then Some(Uplink) else if s == "downlink" then Some(Downlink) else None
  }

  function FromParts(parts: seq<string>): Option<Counter> {
    if |parts| != 4 || parts[0] != "user" || parts[2] != "traffic" then None
    else
      var email := TrimSpace(parts[1]);
      var dir := DirOf(parts[3]);
      if email == "" || dir.None? then None else Some(Counter(email, dir.value))
  }

  function ParseUserStatName(name: string): Option<Counter> {
    FromParts(Split(name))
  }

  function Join(a: string, b: string): string {
    a + ">>>" + b
  }

  /** The name Xray gives the counter. */
  function PrintName(c: Counter): string {
    Join("user", Join(c.email, Join("traffic", DirName(c.dir))))
  }

  /** No separator inside, nor one begun at the end. */
  ghost predicate IsPart(s: string) {
    (forall i :: 0 <= i < |s| ==> !SepAt(s, i)) && (s != "" ==> s[|s| - 1] != '>')
  }

  lemma SepIn(a: string, b: string, i: nat)
    requires i <= |a|
    ensures i == |a| ==> SepAt(Join(a, b), i)
    ensures i + 3 <= |a| ==> SepAt(Join(a, b), i) == SepAt(a, i)
    ensures |a| - 3 < i < |a| && SepAt(Join(a, b), i) ==> a[|a| - 1] == '>'
  {
    var s := Join(a, b);
    assert forall k :: 0 <= k < |a| ==> s[k] == a[k];
    assert s[|a|] == '>' && s[|a| + 1] == '>' && s[|a| + 2] == '>';
  }

  lemma JoinSplits(a: string, b: string)
    requires IsPart(a)
    ensures Split(Join(a, b)) == [a] + Split(b)
  {
    var s := Join(a, b);
    forall k | 0 <= k < |a| ensures !SepAt(s, k) {
      SepIn(a, b, k);
      assert !SepAt(a, k);
    }
    SepIn(a, b, |a|);
    assert FirstSep(s, 0) == |a|;
    assert s[..|a|] == a && s[|a| + 3..] == b;
  }

  lemma JoinSplitsEarly(a: string, b: string)
    requires !IsPart(a)
    ensures |Split(Join(a, b))[0]| < |a|
  {
    var s := Join(a, b);
    var i := FirstSep(s, 0);
    var k := EarlySep(a, b);
    assert i <= k;
  }

  lemma EarlySep(a: string, b: string) returns (k: nat)
    requires !IsPart(a)
    ensures k < |a| && SepAt(Join(a, b), k)
  {
    if i :| 0 <= i < |a| && SepAt(a, i) {
      k := i;
      SepIn(a, b, k);
    } else {
      k := |a| - 1;
      var s := Join(a, b);
      assert s[k] == a[k] && s[k + 1] == '>' && s[k + 2] == '>';
    }
  }

  lemma DirIsPart(d: Direction)
    ensures IsPart(DirName(d)) && Split(DirName(d)) == [DirName(d)]
  {
    var s := DirName(d);
    assert forall i :: 0 <= i < |s| ==> s[i] != '>';
    assert FirstSep(s, 0) == |s|;
  }

  lemma KeywordsAreParts()
    ensures IsPart("user") && IsPart("traffic")
  {
    assert forall i :: 0 <= i < 7 ==> "traffic"[i] != '>';
    assert forall i :: 0 <= i < 4 ==> "user"[i] != '>';
  }

  lemma PrintedParts(c: Counter)
    ensures IsPart(c.email) ==> Split(PrintName(c)) == ["user", c.email, "traffic", DirName(c.dir)]
    ensures !IsPart(c.email) ==> |Split(PrintName(c))| > 1 && |Split(PrintName(c))[1]| < |c.email|
  {
    var dir := DirName(c.dir);
    var tail := Join("traffic", dir);
    var body := Join(c.email, tail);
    KeywordsAreParts();
    DirIsPart(c.dir);
    JoinSplits("traffic", dir);
    JoinSplits("user", body);
    if IsPart(c.email) {
      JoinSplits(c.email, tail);
    } else {
      JoinSplitsEarly(c.email, tail);
    }
  }

  lemma DirReadsBack(d: Direction)
    ensures DirOf(DirName(d)) == Some(d)
  {
    assert "uplink"[0] != "downlink"[0];
  }

  lemma FromWholeParts(parts: seq<string>, c: Counter)
    requires |parts| == 4 && parts[0] == "user" && parts[1] == c.email && parts[2] == "traffic"
             && DirOf(parts[3]) == Some(c.dir)
    ensures FromParts(parts) == Some(c) <==> c.email != "" && IsTrimmed(c.email)
  {
    TrimSpaceTrims(c.email);
  }

  lemma FromShortParts(parts: seq<string>, c: Counter)
    requires |parts| > 1 && |parts[1]| < |c.email|
    ensures FromParts(parts) != Some(c)
  {
    assert |TrimSpace(parts[1])| <= |parts[1]|;
  }

  /** The parser reads back a printed name exactly when the email is not blank, is trimmed, holds no
      separator and does not end in the separator's character. */
  lemma ParseInvertsPrintIff(c: Counter)
    ensures ParseUserStatName(PrintName(c)) == Some(c)
            <==> c.email != "" && IsTrimmed(c.email) && IsPart(c.email)
  {
    PrintedParts(c);
    if IsPart(c.email) {
      DirReadsBack(c.dir);
      FromWholeParts(Split(PrintName(c)), c);
    } else {
      FromShortParts(Split(PrintName(c)), c);
    }
  }

  /** The printed names themselves. */
  lemma PrintedNames(email: string)
    ensures PrintName(Counter(email, Uplink)) == "user>>>" + email + ">>>traffic>>>uplink"
    ensures PrintName(Counter(email, Downlink)) == "user>>>" + email + ">>>traffic>>>downlink"
  {
  }

  lemma SepText(s: string, i: nat)
    requires SepAt(s, i)
    ensures s == Join(s[..i], s[i + 3..])
  {
    var t := Join(s[..i], s[i + 3..]);
    forall k | 0 <= k < |s| ensures s[k] == t[k] {
      if i <= k < i + 3 {
        assert t[k] == ">>>"[k - i];
      }
    }
  }

  lemma SplitHead(s: string) returns (rest: string)
    requires |Split(s)| > 1
    ensures s == Join(Split(s)[0], rest) && Split(rest) == Split(s)[1..]
  {
    var i := FirstSep(s, 0);
    SepText(s, i);
    rest := s[i + 3..];
  }

  lemma SplitAlone(s: string)
    requires |Split(s)| == 1
    ensures Split(s) == [s]
  {
    var i := FirstSep(s, 0);
    if i < |s| {
      SplitIsNonEmpty(s[i + 3..]);
    }
  }

  lemma SplitIsNonEmpty(s: string)
    ensures |Split(s)| >= 1
  {
  }

  /** Only such names are read: a name that is read is one that is printed, spaces around the email
      aside. */
  lemma ReadNameIsPrinted(name: string) returns (raw: string)
    requires ParseUserStatName(name).Some?
    ensures var c := ParseUserStatName(name).value;
            name == PrintName(Counter(raw, c.dir)) && c.email == TrimSpace(raw) != ""
  {
    var rest := SplitHead(name);
    raw := Split(name)[1];
    var tail := SplitHead(rest);
    var dir := SplitHead(tail);
    SplitAlone(dir);
  }

  // The fold.

  /** Distinct emails in order of first appearance. */
  function Order(rows: seq<Row>): seq<string> {
    if rows == [] then []
    else
      var before := Order(rows[..|rows| - 1]);
      match ParseUserStatName(rows[|rows| - 1].name)
      case None => before
      case Some(c) => if c.email in before then before else before + [c.email]
  }

  /** The last value reported for a counter, 0 if none. */
  function LastValue(rows: seq<Row>, c: Counter): int {
    if rows == [] then 0
    else if ParseUserStatName(rows[|rows| - 1].name) == Some(c) then rows[|rows| - 1].value
    else LastValue(rows[..|rows| - 1], c)
  }

  function Totals(rows: seq<Row>, email: string): UserBytes {
    UserBytes(email, LastValue(rows, Counter(email, Uplink)), LastValue(rows, Counter(email, Downlink)))
  }

  function WithValue(u: UserBytes, dir: Direction, value: int): UserBytes {
    if dir.Uplink? then u.(uplink := value) else u.(downlink := value)
  }

  lemma OneMoreRow(rows: seq<Row>, i: nat, e: string)
    requires i < |rows|
    ensures var parsed := ParseUserStatName(rows[i].name);
            Totals(rows[..i + 1], e)
            == if parsed.Some? && parsed.value.email == e then
                 WithValue(Totals(rows[..i], e), parsed.value.dir, rows[i].value)
               else Totals(rows[..i], e)
  {
    assert rows[..i + 1][..i] == rows[..i];
  }

  lemma OneMoreName(rows: seq<Row>, i: nat)
    requires i < |rows|
    ensures var parsed, before := ParseUserStatName(rows[i].name), Order(rows[..i]);
            Order(rows[..i + 1])
            == if parsed.Some? && parsed.value.email !in before then before + [parsed.value.email] else before
  {
    assert rows[..i + 1][..i] == rows[..i];
  }

  /** The map of the fold after some rows. */
  ghost predicate Folded(byEmail: map<string, UserBytes>, rows: seq<Row>) {
    (forall e :: e in byEmail <==> e in Order(rows))
    && forall e :: Totals(rows, e) == if e in byEmail then byEmail[e] else UserBytes(e, 0, 0)
  }

  lemma FoldRow(byEmail: map<string, UserBytes>, rows: seq<Row>, i: nat)
    requires i < |rows| && Folded(byEmail, rows[..i])
    ensures var parsed := ParseUserStatName(rows[i].name);
            if parsed.None? then Folded(byEmail, rows[..i + 1])
            else
              var e := parsed.value.email;
              var u := if e in byEmail then byEmail[e] else UserBytes(e, 0, 0);
              Folded(byEmail[e := WithValue(u, parsed.value.dir, rows[i].value)], rows[..i + 1])
  {
    OneMoreName(rows, i);
    var parsed := ParseUserStatName(rows[i].name);
    forall e
      ensures Totals(rows[..i + 1], e)
              == if parsed.Some? && parsed.value.email == e then
                   WithValue(Totals(rows[..i], e), parsed.value.dir, rows[i].value)
                 else Totals(rows[..i], e)
    {
      OneMoreRow(rows, i, e);
    }
  }

  lemma FoldedEntry(byEmail: map<string, UserBytes>, rows: seq<Row>, k: nat)
    requires Folded(byEmail, rows) && k < |Order(rows)|
    ensures Order(rows)[k] in byEmail && byEmail[Order(rows)[k]] == Totals(rows, Order(rows)[k])
  {
  }

  method ParseUserStats(rows: seq<Row>) returns (out: seq<UserBytes>)
    ensures |out| == |Order(rows)|
    ensures forall k :: 0 <= k < |out| ==> out[k] == Totals(rows, Order(rows)[k])
  {
    var byEmail: map<string, UserBytes> := map[];
    var order: seq<string> := [];
    for i := 0 to |rows|
      invariant order == Order(rows[..i])
      invariant Folded(byEmail, rows[..i])
    {
      OneMoreName(rows, i);
      FoldRow(byEmail, rows, i);
      var parsed := ParseUserStatName(rows[i].name);
      if parsed.Some? {
        var email := parsed.value.email;
        var u := UserBytes(email, 0, 0);
        if email in byEmail {
          u := byEmail[email];
        } else {
          order := order + [email];
        }
        if parsed.value.dir.Uplink? {
          u := u.(uplink := rows[i].value);
        } else {
          u := u.(downlink := rows[i].value);
        }
        byEmail := byEmail[email := u];
      }
    }
    assert rows[..|rows|] == rows;
    out := [];
    for k := 0 to |order|
      invariant |out| == k
      invariant forall j :: 0 <= j < k ==> out[j] == Totals(rows, order[j])
    {
      FoldedEntry(byEmail, rows, k);
      out := out + [byEmail[order[k]]];
    }
  }

  /** Row i is the first to name the email. */
  ghost predicate FirstNamed(rows: seq<Row>, i: int, email: string) {
    0 <= i < |rows| && Names(rows[i], email) && forall k :: 0 <= k < i ==> !Names(rows[k], email)
  }

  predicate Names(r: Row, email: string) {
    ParseUserStatName(r.name).Some? && ParseUserStatName(r.name).value.email == email
  }

  /** The list holds exactly the emails some row names. */
  lemma OrderListsNamed(rows: seq<Row>, email: string)
    ensures email in Order(rows) <==> exists i :: FirstNamed(rows, i, email)
  {
    if email in Order(rows) {
      var i := FirstNaming(rows, email);
    } else {
      NotNamed(rows, email);
    }
  }

  lemma FirstNamedStays(before: seq<Row>, last: Row, i: nat, email: string)
    requires FirstNamed(before, i, email)
    ensures FirstNamed(before + [last], i, email)
  {
  }

  lemma FirstNamedLast(before: seq<Row>, last: Row, email: string)
    requires (forall k :: 0 <= k < |before| ==> !Names(before[k], email)) && Names(last, email)
    ensures FirstNamed(before + [last], |before|, email)
  {
  }

  lemma {:induction false} FirstNaming(rows: seq<Row>, email: string) returns (i: nat)
    requires email in Order(rows)
    ensures FirstNamed(rows, i, email)
  {
    var before := rows[..|rows| - 1];
    if email in Order(before) {
      i := FirstNaming(before, email);
      FirstNamedStays(before, rows[|rows| - 1], i, email);
    } else {
      NotNamed(before, email);
      i := |before|;
      FirstNamedLast(before, rows[|rows| - 1], email);
    }
    assert rows == before + [rows[|rows| - 1]];
  }

  lemma {:induction false} NotNamed(rows: seq<Row>, email: string)
    requires email !in Order(rows)
    ensures forall k :: 0 <= k < |rows| ==> !Names(rows[k], email)
  {
    if rows != [] {
      NotNamed(rows[..|rows| - 1], email);
    }
  }

  /** The list has no email twice, and earlier entries were named first by earlier rows. */
  lemma {:induction false} OrderIsByFirstAppearance(rows: seq<Row>, a: nat, b: nat, i: nat, j: nat)
    requires a < b < |Order(rows)| && FirstNamed(rows, i, Order(rows)[a]) && FirstNamed(rows, j, Order(rows)[b])
    ensures Order(rows)[a] != Order(rows)[b] && i < j
    decreases |rows|
  {
    var before, last := rows[..|rows| - 1], rows[|rows| - 1];
    var was := Order(before);
    assert forall k :: 0 <= k < |before| ==> before[k] == rows[k];
    OrderListsNamed(before, Order(rows)[a]);
    assert Order(rows)[a] == was[a];
    var x :| FirstNamed(before, x, was[a]);
    assert x == i;
    if b < |was| {
      OrderListsNamed(before, was[b]);
      var y :| FirstNamed(before, y, was[b]);
      assert y == j;
      OrderIsByFirstAppearance(before, a, b, i, j);
    } else {
      NotNamed(before, Order(rows)[b]);
    }
  }

  /** A reported value is that of the last row naming the counter. */
  lemma {:induction false} LastValueIsLast(rows: seq<Row>, c: Counter, i: nat)
    requires i < |rows| && ParseUserStatName(rows[i].name) == Some(c)
    requires forall k :: i < k < |rows| ==> ParseUserStatName(rows[k].name) != Some(c)
    ensures LastValue(rows, c) == rows[i].value
    decreases |rows|
  {
    if i < |rows| - 1 {
      LastValueIsLast(rows[..|rows| - 1], c, i);
    }
  }

  lemma {:induction false} UnreportedIsZero(rows: seq<Row>, c: Counter)
    requires forall k :: 0 <= k < |rows| ==> ParseUserStatName(rows[k].name) != Some(c)
    ensures LastValue(rows, c) == 0
  {
    if rows != [] {
      UnreportedIsZero(rows[..|rows| - 1], c);
    }
  }
}
