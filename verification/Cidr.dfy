/** normalizeCIDR of internal/geo/catalog.go: the IPv4 half of net.ParseCIDR and IPNet.String. Texts
    with a colon are IPv6, which is a parameter. */
module Cidr {
  import opened Entitlement
  import opened Desired
  import opened Text
  import opened Geo
  import opened GeoScript

  // Numbers in decimal.

  predicate IsDigits(s: string) {
    forall i :: 0 <= i < |s| ==> '0' <= s[i] <= '9'
  }

  function Num(s: string): nat
    requires IsDigits(s)
  {
    if s == "" then 0 else 10 * Num(s[..|s| - 1]) + (s[|s| - 1] as int - '0' as int)
  }

  function Digit(n: nat): char
    requires n < 10
  {
    ('0' as int + n) as char
  }

  function Decimal(n: nat): string
    requires n < 1000
  {
    if n < 10 then [Digit(n)]
    else if n < 100 then [Digit(n / 10), Digit(n % 10)]
    else [Digit(n / 100), Digit(n / 10 % 10), Digit(n % 10)]
  }

  lemma NumOne(a: char)
    requires '0' <= a <= '9'
    ensures Num([a]) == a as int - '0' as int
  {
    assert [a][..0] == "";
  }

  lemma NumTwo(a: char, b: char)
    requires '0' <= a <= '9' && '0' <= b <= '9'
    ensures Num([a, b]) == 10 * (a as int - '0' as int) + (b as int - '0' as int)
  {
    assert [a, b][..1] == [a];
    NumOne(a);
  }

  lemma NumThree(a: char, b: char, c: char)
    requires '0' <= a <= '9' && '0' <= b <= '9' && '0' <= c <= '9'
    ensures Num([a, b, c]) == 100 * (a as int - '0' as int) + 10 * (b as int - '0' as int) + (c as int - '0' as int)
  {
    assert [a, b, c][..2] == [a, b];
    NumTwo(a, b);
  }

  lemma DecimalReads(n: nat)
    requires n < 256
    ensures IsDigits(Decimal(n)) && Num(Decimal(n)) == n && IsDecimalByte(Decimal(n))
  {
    if n < 10 {
      NumOne(Digit(n));
    } else if n < 100 {
      NumTwo(Digit(n / 10), Digit(n % 10));
    } else {
      NumThree(Digit(n / 100), Digit(n / 10 % 10), Digit(n % 10));
    }
  }

  lemma ByteIsSmall(f: string)
    requires IsDecimalByte(f)
    ensures IsDigits(f) && Num(f) < 256
  {
    if |f| == 1 {
      assert f == [f[0]];
      NumOne(f[0]);
    } else if |f| == 2 {
      assert f == [f[0], f[1]];
      NumTwo(f[0], f[1]);
    } else {
      assert f == [f[0], f[1], f[2]];
      NumThree(f[0], f[1], f[2]);
    }
  }

  // Masks.

  /** The size of a block of addresses that agree on the kept bits of a byte. */
  function Block(kept: nat): (r: nat)
    requires kept <= 8
    ensures r > 0
  {
    if kept == 0 then 256 else if kept == 1 then 128 else if kept == 2 then 64 else if kept == 3 then 32
    else if kept == 4 then 16 else if kept == 5 then 8 else if kept == 6 then 4 else if kept == 7 then 2 else 1
  }

  /** How many leading bits of byte i a prefix of n bits keeps. */
  function Kept(n: nat, i: nat): (r: nat)
    ensures r <= 8
  {
    if n >= 8 * (i + 1) then 8 else if n <= 8 * i then 0 else n - 8 * i
  }

  function MaskByte(b: nat, kept: nat): (r: nat)
    requires kept <= 8
    ensures r <= b
  {
    b - b % Block(kept)
  }

  lemma MaskTwice(b: nat, kept: nat)
    requires kept <= 8
    ensures MaskByte(MaskByte(b, kept), kept) == MaskByte(b, kept)
  {
  }

  // The normal form.

  datatype Prefix = Prefix(b0: nat, b1: nat, b2: nat, b3: nat, bits: nat)

  predicate ValidPrefix(p: Prefix) {
    p.b0 < 256 && p.b1 < 256 && p.b2 < 256 && p.b3 < 256 && p.bits <= 32
  }

  function Address(p: Prefix): string
    requires ValidPrefix(p)
  {
    Decimal(p.b0) + "." + (Decimal(p.b1) + "." + (Decimal(p.b2) + "." + Decimal(p.b3)))
  }

  function Show(p: Prefix): string
    requires ValidPrefix(p)
  {
    Address(p) + "/" + Decimal(p.bits)
  }

  function Masked(p: Prefix): Prefix {
    Prefix(MaskByte(p.b0, Kept(p.bits, 0)), MaskByte(p.b1, Kept(p.bits, 1)), MaskByte(p.b2, Kept(p.bits, 2)),
           MaskByte(p.b3, Kept(p.bits, 3)), p.bits)
  }

  /** Index of the first slash from i on, or the length. */
  function SlashFrom(s: string, i: nat): (r: nat)
    requires i <= |s|
    ensures i <= r <= |s| && (r < |s| ==> s[r] == '/') && forall k :: i <= k < r ==> s[k] != '/'
    decreases |s| - i
  {
    if i == |s| || s[i] == '/' then i else SlashFrom(s, i + 1)
  }

  /** net.ParseCIDR on a text without a colon. */
  function Parse(s: string): (r: Option<Prefix>)
    ensures r.Some? ==> ValidPrefix(r.value)
  {
    var i := SlashFrom(s, 0);
    if i == |s| then None
    else
      var addr, mask := s[..i], s[i + 1..];
      if !IsIPv4(addr) || mask == "" || !IsDigits(mask) || Num(mask) > 32 then None
      else
        var f := SplitDots(addr);
        assert f[0] in f && f[1] in f && f[2] in f && f[3] in f;
        ByteIsSmall(f[0]);
        ByteIsSmall(f[1]);
        ByteIsSmall(f[2]);
        ByteIsSmall(f[3]);
        Some(Prefix(Num(f[0]), Num(f[1]), Num(f[2]), Num(f[3]), Num(mask)))
  }

  function NormalizeCIDR(raw: string, v6: string -> Option<string>): Option<string> {
    var s := TrimSpace(raw);
    if ':' in s then v6(s)
    else
      match Parse(s)
      case None => None
      case Some(p) => Some(Show(Masked(p)))
  }

  function NormCIDR(v6: string -> Option<string>): string -> Option<string> {
    raw => NormalizeCIDR(raw, v6)
  }

  // Printing and reading back.

  lemma DigitsAreNoMarks(s: string)
    requires IsDigits(s)
    ensures '.' !in s && '/' !in s && ':' !in s && forall c :: c in s ==> !IsSpace(c)
  {
  }

  lemma SplitOnce(a: string, rest: string)
    requires '.' !in a
    ensures SplitDots(a + "." + rest) == [a] + SplitDots(rest)
  {
    var s := a + "." + rest;
    assert s[..|a|] == a && s[|a| + 1..] == rest;
    SplitAtDot(s, |a|);
  }

  lemma AddressSplits(p: Prefix)
    requires ValidPrefix(p)
    ensures SplitDots(Address(p)) == [Decimal(p.b0), Decimal(p.b1), Decimal(p.b2), Decimal(p.b3)]
    ensures IsIPv4(Address(p))
  {
    DecimalReads(p.b0);
    DecimalReads(p.b1);
    DecimalReads(p.b2);
    DecimalReads(p.b3);
    DigitsAreNoMarks(Decimal(p.b0));
    DigitsAreNoMarks(Decimal(p.b1));
    DigitsAreNoMarks(Decimal(p.b2));
    DigitsAreNoMarks(Decimal(p.b3));
    SplitOnce(Decimal(p.b0), Decimal(p.b1) + "." + (Decimal(p.b2) + "." + Decimal(p.b3)));
    SplitOnce(Decimal(p.b1), Decimal(p.b2) + "." + Decimal(p.b3));
    SplitOnce(Decimal(p.b2), Decimal(p.b3));
    SplitWithoutDot(Decimal(p.b3));
  }

  lemma ShownChars(p: Prefix)
    requires ValidPrefix(p)
    ensures forall c :: c in Address(p) ==> c == '.' || '0' <= c <= '9'
    ensures forall c :: c in Show(p) ==> c == '.' || c == '/' || '0' <= c <= '9'
  {
    DecimalReads(p.b0);
    DecimalReads(p.b1);
    DecimalReads(p.b2);
    DecimalReads(p.b3);
    DecimalReads(p.bits);
  }

  /** Every valid prefix is read back from its print. */
  lemma ParseInvertsShow(p: Prefix)
    requires ValidPrefix(p)
    ensures Parse(Show(p)) == Some(p)
  {
    var s, a, m := Show(p), Address(p), Decimal(p.bits);
    ShownChars(p);
    forall k | 0 <= k < |a| ensures s[k] != '/' {
      assert s[k] == a[k] && a[k] in a;
    }
    assert s[|a|] == '/';
    assert SlashFrom(s, 0) == |a|;
    assert s[..|a|] == a && s[|a| + 1..] == m;
    AddressSplits(p);
    DecimalReads(p.bits);
    DecimalReads(p.b0);
    DecimalReads(p.b1);
    DecimalReads(p.b2);
    DecimalReads(p.b3);
  }

  lemma MaskedTwice(p: Prefix)
    ensures Masked(Masked(p)) == Masked(p)
  {
    MaskTwice(p.b0, Kept(p.bits, 0));
    MaskTwice(p.b1, Kept(p.bits, 1));
    MaskTwice(p.b2, Kept(p.bits, 2));
    MaskTwice(p.b3, Kept(p.bits, 3));
  }

  lemma SameMaskIff(b: nat, c: nat, kept: nat)
    requires kept <= 8
    ensures MaskByte(b, kept) == MaskByte(c, kept) <==> b / Block(kept) == c / Block(kept)
  {
  }

  /** Two addresses lie in one block of byte-wise kept bits. */
  predicate SameNetwork(p: Prefix, q: Prefix) {
    p.bits == q.bits
    && p.b0 / Block(Kept(p.bits, 0)) == q.b0 / Block(Kept(p.bits, 0))
    && p.b1 / Block(Kept(p.bits, 1)) == q.b1 / Block(Kept(p.bits, 1))
    && p.b2 / Block(Kept(p.bits, 2)) == q.b2 / Block(Kept(p.bits, 2))
    && p.b3 / Block(Kept(p.bits, 3)) == q.b3 / Block(Kept(p.bits, 3))
  }

  /** Two IPv4 prefixes are written alike exactly when they are one network. */
  lemma SameTextIffSameNetwork(p: Prefix, q: Prefix)
    requires ValidPrefix(p) && ValidPrefix(q)
    ensures Show(Masked(p)) == Show(Masked(q)) <==> SameNetwork(p, q)
  {
    if Show(Masked(p)) == Show(Masked(q)) {
      ParseInvertsShow(Masked(p));
      ParseInvertsShow(Masked(q));
      assert Masked(p) == Masked(q);
    }
    SameMaskIff(p.b0, q.b0, Kept(p.bits, 0));
    SameMaskIff(p.b1, q.b1, Kept(p.bits, 1));
    SameMaskIff(p.b2, q.b2, Kept(p.bits, 2));
    SameMaskIff(p.b3, q.b3, Kept(p.bits, 3));
  }

  // What is read, and what masking means.

  lemma DecimalOfTwo(a: nat, b: nat)
    requires 0 < a < 10 && b < 10
    ensures Decimal(10 * a + b) == [Digit(a), Digit(b)]
  {
  }

  lemma DecimalOfThree(a: nat, b: nat, c: nat)
    requires 0 < a < 10 && b < 10 && c < 10
    ensures Decimal(100 * a + 10 * b + c) == [Digit(a), Digit(b), Digit(c)]
  {
    var n := 100 * a + 10 * b + c;
    assert n / 100 == a && n % 10 == c && n / 10 == 10 * a + b;
  }

  function Of(d: char): nat
    requires '0' <= d <= '9'
  {
    d as int - '0' as int
  }

  lemma TwoDigits(a: char, b: char)
    requires '1' <= a <= '9' && '0' <= b <= '9'
    ensures Num([a, b]) == 10 * Of(a) + Of(b) && Decimal(Num([a, b])) == [a, b]
  {
    NumTwo(a, b);
    DecimalOfTwo(Of(a), Of(b));
  }

  lemma ThreeDigits(a: char, b: char, c: char)
    requires '1' <= a <= '9' && '0' <= b <= '9' && '0' <= c <= '9'
    ensures Num([a, b, c]) == 100 * Of(a) + 10 * Of(b) + Of(c) && Decimal(Num([a, b, c])) == [a, b, c]
  {
    NumThree(a, b, c);
    DecimalOfThree(Of(a), Of(b), Of(c));
  }

  lemma ByteIsDecimal(f: string)
    requires IsDecimalByte(f)
    ensures IsDigits(f) && Num(f) < 256 && f == Decimal(Num(f))
  {
    ByteIsSmall(f);
    if |f| == 1 {
      assert f == [f[0]];
      NumOne(f[0]);
    } else if |f| == 2 {
      assert f == [f[0], f[1]];
      TwoDigits(f[0], f[1]);
    } else {
      assert f == [f[0], f[1], f[2]];
      ThreeDigits(f[0], f[1], f[2]);
    }
  }

  lemma DotsHead(s: string) returns (rest: string)
    requires |SplitDots(s)| > 1
    ensures s == SplitDots(s)[0] + "." + rest && SplitDots(rest) == SplitDots(s)[1..]
  {
    if '.' !in s {
      SplitWithoutDot(s);
    }
    var i := FirstDot(s);
    SplitAtDot(s, i);
    rest := s[i + 1..];
    assert s == s[..i] + "." + s[i + 1..];
  }

  /** An address has four bytes in decimal, and no other text is one. */
  lemma IPv4IsAddress(s: string) returns (p: Prefix)
    requires IsIPv4(s)
    ensures ValidPrefix(p) && s == Address(p) && p.bits == 0
  {
    var f := SplitDots(s);
    assert f[0] in f && f[1] in f && f[2] in f && f[3] in f;
    ByteIsDecimal(f[0]);
    ByteIsDecimal(f[1]);
    ByteIsDecimal(f[2]);
    ByteIsDecimal(f[3]);
    p := Prefix(Num(f[0]), Num(f[1]), Num(f[2]), Num(f[3]), 0);
    var r1 := DotsHead(s);
    var r2 := DotsHead(r1);
    var r3 := DotsHead(r2);
    OnePart(r3);
  }

  lemma ParsedParts(s: string, addr: string, mask: string, q: Prefix)
    requires Parse(s).Some? && s == addr + "/" + mask && '/' !in addr && ValidPrefix(q) && addr == Address(q)
    ensures IsDigits(mask) && mask != "" && Parse(s) == Some(q.(bits := Num(mask)))
  {
    assert forall k :: 0 <= k < |addr| ==> s[k] == addr[k] && addr[k] in addr;
    assert s[|addr|] == '/';
    assert SlashFrom(s, 0) == |addr|;
    assert s[..|addr|] == addr && s[|addr| + 1..] == mask;
    AddressSplits(q);
    DecimalReads(q.b0);
    DecimalReads(q.b1);
    DecimalReads(q.b2);
    DecimalReads(q.b3);
  }

  lemma ParsedText(s: string) returns (addr: string, mask: string)
    requires Parse(s).Some?
    ensures s == addr + "/" + mask && '/' !in addr && IsIPv4(addr)
  {
    var i := SlashFrom(s, 0);
    addr, mask := s[..i], s[i + 1..];
    assert s == s[..i] + "/" + s[i + 1..];
  }

  /** Only an address, a slash and a number up to 32 are read. */
  lemma ParsedIsWritten(s: string) returns (mask: string)
    requires Parse(s).Some?
    ensures var p := Parse(s).value;
            ValidPrefix(p) && IsDigits(mask) && mask != "" && Num(mask) == p.bits <= 32
            && s == Address(p) + "/" + mask
  {
    var addr: string;
    addr, mask := ParsedText(s);
    var q := IPv4IsAddress(addr);
    ParsedParts(s, addr, mask, q);
  }

  function Pow2(n: nat): (r: nat)
    ensures r > 0
  {
    if n == 0 then 1 else 2 * Pow2(n - 1)
  }

  /** The address as one number of 32 bits. */
  function Value(p: Prefix): nat {
    ((p.b0 * 256 + p.b1) * 256 + p.b2) * 256 + p.b3
  }

  lemma FloorAt(hi: nat, low: nat, block: nat, size: nat)
    requires block > 0 && low < size
    ensures block * size > 0
    ensures (hi * size + low) - (hi * size + low) % (block * size) == (hi - hi % block) * size
  {
    var q, r, m := hi / block, hi % block, block * size;
    Regroup(q, r, block, size);
    assert hi * size + low == q * m + (r * size + low);
    ModOf(q, m, r * size + low);
  }

  lemma Regroup(q: nat, r: nat, block: nat, size: nat)
    requires r < block && size > 0
    ensures (q * block + r) * size == q * (block * size) + r * size && r * size + size <= block * size
    ensures block * size > 0
  {
    assert (q * block + r) * size == q * block * size + r * size;
    assert block * size == r * size + size + (block - r - 1) * size;
  }

  lemma Multiples(d: int, m: int)
    requires m > 0
    ensures d >= 1 ==> d * m >= m
    ensures d <= -1 ==> d * m <= -m
  {
    if d >= 1 {
      assert d * m == m + (d - 1) * m;
    } else if d <= -1 {
      assert d * m == -m + (d + 1) * m;
    }
  }

  lemma ModOf(q: nat, m: nat, r: nat)
    requires r < m
    ensures (q * m + r) % m == r
  {
    var x := q * m + r;
    var d := q - x / m;
    assert d * m == x % m - r by {
      assert x == x / m * m + x % m;
    }
    Multiples(d, m);
  }

  lemma SmallPowers()
    ensures Pow2(0) == 1 && Pow2(1) == 2 && Pow2(2) == 4 && Pow2(3) == 8 && Pow2(4) == 16 && Pow2(5) == 32
    ensures Pow2(6) == 64 && Pow2(7) == 128 && Pow2(8) == 256
  {
    assert Pow2(1) == 2 && Pow2(2) == 4;
    assert Pow2(3) == 8 && Pow2(4) == 16;
    assert Pow2(5) == 32 && Pow2(6) == 64;
  }

  lemma {:induction false} PowersMultiply(n: nat, k: nat)
    ensures Pow2(n + k) == Pow2(n) * Pow2(k)
  {
    if k > 0 {
      PowersMultiply(n, k - 1);
    }
  }

  lemma BlocksAreBits(kept: nat)
    requires kept <= 8
    ensures Pow2(8 - kept) == Block(kept) && Pow2(16 - kept) == Block(kept) * 256
    ensures Pow2(24 - kept) == Block(kept) * 65_536 && Pow2(32 - kept) == Block(kept) * 16_777_216
  {
    SmallPowers();
    assert Pow2(8 - kept) == Block(kept);
    PowersMultiply(8, 8);
    PowersMultiply(8, 16);
    PowersMultiply(8 - kept, 8);
    PowersMultiply(8 - kept, 16);
    PowersMultiply(8 - kept, 24);
  }

  lemma KeptBits(bits: nat, i: nat, j: nat)
    requires i < 4 && j < 4 && 8 * i <= bits <= 8 * i + 8
    ensures Kept(bits, j) == if j < i then 8 else if j == i then bits - 8 * i else 0
  {
  }

  lemma WholeBytes(b: nat)
    requires b < 256
    ensures MaskByte(b, 8) == b && MaskByte(b, 0) == 0
  {
  }

  lemma MaskedBytes(p: Prefix, i: nat)
    requires ValidPrefix(p) && i < 4 && 8 * i <= p.bits <= 8 * i + 8
    ensures var q, k := Masked(p), p.bits - 8 * i;
            q.b0 == (if i > 0 then p.b0 else MaskByte(p.b0, k))
            && q.b1 == (if i > 1 then p.b1 else if i == 1 then MaskByte(p.b1, k) else 0)
            && q.b2 == (if i > 2 then p.b2 else if i == 2 then MaskByte(p.b2, k) else 0)
            && q.b3 == if i == 3 then MaskByte(p.b3, k) else 0
  {
    KeptBits(p.bits, i, 0);
    KeptBits(p.bits, i, 1);
    KeptBits(p.bits, i, 2);
    KeptBits(p.bits, i, 3);
    WholeBytes(p.b0);
    WholeBytes(p.b1);
    WholeBytes(p.b2);
    WholeBytes(p.b3);
  }

  /** A number whose byte b is masked and whose lower bytes are cleared. */
  lemma MaskedAt(v: nat, hi: nat, b: nat, low: nat, kept: nat, size: nat, m: nat)
    requires kept <= 8 && low < size && v == (hi * 256 + b) * size + low && m == Block(kept) * size
    ensures m > 0 && v - v % m == (hi * 256 + MaskByte(b, kept)) * size
  {
    FloorAt(hi * 256 + b, low, Block(kept), size);
    BlockDivides(hi, b, kept);
  }

  /** The bytes before byte i, as one number, byte i, and the bytes after it. */
  function Lead(p: Prefix, i: nat): nat {
    if i == 0 then 0 else if i == 1 then p.b0 else if i == 2 then p.b0 * 256 + p.b1
    else (p.b0 * 256 + p.b1) * 256 + p.b2
  }

  function ByteAt(p: Prefix, i: nat): nat {
    if i == 0 then p.b0 else if i == 1 then p.b1 else if i == 2 then p.b2 else p.b3
  }

  function Tail(p: Prefix, i: nat): nat {
    if i == 0 then (p.b1 * 256 + p.b2) * 256 + p.b3 else if i == 1 then p.b2 * 256 + p.b3
    else if i == 2 then p.b3 else 0
  }

  function TailSize(i: nat): nat {
    if i == 0 then 16_777_216 else if i == 1 then 65_536 else if i == 2 then 256 else 1
  }

  lemma ValueAt(p: Prefix, i: nat)
    requires ValidPrefix(p) && i < 4
    ensures Value(p) == (Lead(p, i) * 256 + ByteAt(p, i)) * TailSize(i) + Tail(p, i) && Tail(p, i) < TailSize(i)
  {
  }

  lemma MaskedValueAt(p: Prefix, i: nat)
    requires ValidPrefix(p) && i < 4 && 8 * i <= p.bits <= 8 * i + 8
    ensures Value(Masked(p)) == (Lead(p, i) * 256 + MaskByte(ByteAt(p, i), p.bits - 8 * i)) * TailSize(i)
  {
    MaskedBytes(p, i);
    ValueAt(Masked(p), i);
    assert Lead(Masked(p), i) == Lead(p, i) && Tail(Masked(p), i) == 0;
  }

  lemma SizeAt(bits: nat, i: nat)
    requires i < 4 && 8 * i <= bits <= 8 * i + 8
    ensures Pow2(32 - bits) == Block(bits - 8 * i) * TailSize(i)
  {
    BlocksAreBits(bits - 8 * i);
  }

  /** Masking clears the bits after the prefix: it rounds the address down to a multiple of the size of
      its network. */
  lemma MaskedIsFloor(p: Prefix)
    requires ValidPrefix(p)
    ensures Value(Masked(p)) == Value(p) - Value(p) % Pow2(32 - p.bits)
  {
    var i := if p.bits <= 8 then 0 else if p.bits <= 16 then 1 else if p.bits <= 24 then 2 else 3;
    ValueAt(p, i);
    MaskedValueAt(p, i);
    SizeAt(p.bits, i);
    MaskedAt(Value(p), Lead(p, i), ByteAt(p, i), Tail(p, i), p.bits - 8 * i, TailSize(i), Pow2(32 - p.bits));
  }

  lemma BlockDivides(hi: nat, b: nat, kept: nat)
    requires kept <= 8
    ensures (hi * 256 + b) % Block(kept) == b % Block(kept)
  {
    SmallPowers();
    BlocksAreBits(kept);
    PowersMultiply(8 - kept, kept);
    var m, k := Block(kept), Pow2(kept);
    assert m * k == 256;
    assert hi * 256 + b == (hi * k + b / m) * m + b % m by {
      assert hi * 256 == hi * k * m;
    }
    ModOf(hi * k + b / m, m, b % m);
  }

  lemma ShownIsTrimmed(p: Prefix)
    requires ValidPrefix(p)
    ensures TrimSpace(Show(p)) == Show(p) && ':' !in Show(p)
  {
    ShownChars(p);
    var s := Show(p);
    assert s[0] in s && s[|s| - 1] in s;
    TrimSpaceTrims(s);
  }

  /** An IPv4 prefix in normal form normalises to itself. */
  lemma NormalizeCIDRTwice(raw: string, v6: string -> Option<string>)
    requires ':' !in TrimSpace(raw) && NormalizeCIDR(raw, v6).Some?
    ensures NormalizeCIDR(NormalizeCIDR(raw, v6).value, v6) == NormalizeCIDR(raw, v6)
  {
    var p := Masked(Parse(TrimSpace(raw)).value);
    ShownIsTrimmed(p);
    ParseInvertsShow(p);
    MaskedTwice(Parse(TrimSpace(raw)).value);
  }

  /** What is left to assume of IPv6: its normal form normalises to itself. */
  ghost predicate Idempotent(v6: string -> Option<string>) {
    forall s :: v6(s).Some? ==> NormalizeCIDR(v6(s).value, v6) == v6(s)
  }

  /** Compiling a geo pack's own lists gives it again. */
  lemma RecompilingIsIdentity(id: string, domains: seq<string>, suffixes: seq<string>, cidrs: seq<string>,
                              v6: string -> Option<string>)
    requires CompileResult(id, domains, suffixes, cidrs, NormCIDR(v6)).Ok? && Idempotent(v6)
    ensures var p := CompileResult(id, domains, suffixes, cidrs, NormCIDR(v6)).value;
            CompileResult(id, p.domains, p.suffixes, p.cidrs, NormCIDR(v6)) == Ok(p)
  {
    forall raw | NormCIDR(v6)(raw).Some? ensures NormCIDR(v6)(NormCIDR(v6)(raw).value) == NormCIDR(v6)(raw) {
      if ':' !in TrimSpace(raw) {
        NormalizeCIDRTwice(raw, v6);
      }
    }
    RecompilingWithNorm(id, domains, suffixes, cidrs, NormCIDR(v6));
  }

  /** With IPv4 prefixes only, nothing is assumed. */
  lemma RecompilingIPv4IsIdentity(id: string, domains: seq<string>, suffixes: seq<string>, cidrs: seq<string>)
    requires CompileResult(id, domains, suffixes, cidrs, NormCIDR(NoIPv6())).Ok?
    ensures var p := CompileResult(id, domains, suffixes, cidrs, NormCIDR(NoIPv6())).value;
            CompileResult(id, p.domains, p.suffixes, p.cidrs, NormCIDR(NoIPv6())) == Ok(p)
  {
    RecompilingIsIdentity(id, domains, suffixes, cidrs, NoIPv6());
  }

  function NoIPv6(): string -> Option<string> {
    s => None
  }

  // Agreement of the two compilers on IPv4 prefixes.

  /** The print of a network: no bit set outside its prefix. */
  ghost predicate NormalText(raw: string) {
    exists p :: ValidPrefix(p) && Masked(p) == p && raw == Show(p)
  }

  /** An IPv4 entry is in normal form exactly when it is the print of a network. */
  lemma NormalFormIffNetwork(raw: string)
    ensures NormalizeCIDR(raw, NoIPv6()) == Some(raw) <==> NormalText(raw)
  {
    if NormalText(raw) {
      var p :| ValidPrefix(p) && Masked(p) == p && raw == Show(p);
      ShownIsTrimmed(p);
      ParseInvertsShow(p);
    }
    if NormalizeCIDR(raw, NoIPv6()) == Some(raw) {
      var p := Parse(TrimSpace(raw)).value;
      MaskedTwice(p);
      assert ValidPrefix(Masked(p)) && raw == Show(Masked(p));
    }
  }

  lemma IPv4IsSteady(cidrs: seq<string>)
    ensures Steady(cidrs, NormCIDR(NoIPv6()))
  {
    forall raw | raw in cidrs && NormCIDR(NoIPv6())(raw).Some?
      ensures NormCIDR(NoIPv6())(NormCIDR(NoIPv6())(raw).value) == NormCIDR(NoIPv6())(raw)
      ensures JsonPlain(NormCIDR(NoIPv6())(raw).value)
    {
      NormalizeCIDRTwice(raw, NoIPv6());
      ShownChars(Masked(Parse(TrimSpace(raw)).value));
    }
  }

  /** With IPv4 prefixes only, the geo pack the script publishes is the one Go serves if and only if Go
      accepts every host and every prefix is written as a network. */
  lemma PublishedIPv4IsServedIff(id: string, domains: seq<string>, suffixes: seq<string>, cidrs: seq<string>)
    requires ScriptCompile(id, domains, suffixes, cidrs).Some?
    ensures CompileResult(id, domains, suffixes, cidrs, NormCIDR(NoIPv6()))
            == Ok(ScriptCompile(id, domains, suffixes, cidrs).value)
            <==> AllGo(domains + suffixes) && forall raw :: raw in cidrs ==> NormalText(raw)
  {
    IPv4IsSteady(cidrs);
    PublishedIsServedIff(id, domains, suffixes, cidrs, NormCIDR(NoIPv6()));
    forall raw ensures NormCIDR(NoIPv6())(raw) == Some(raw) <==> NormalText(raw) {
      NormalFormIffNetwork(raw);
    }
  }

  lemma ShownIsShort(p: Prefix)
    requires ValidPrefix(p)
    ensures |Show(p)| < 100 && JsonPlain(Show(p))
  {
    ShownChars(p);
  }

  /** A prefix with bits set outside it: both compilers accept it, Go masks it and the script does not. */
  lemma HostBitsDivide(id: string, p: Prefix)
    requires ValidPackId(id) && ValidPrefix(p) && Masked(p) != p
    ensures CompileResult(id, [], [], [Show(p)], NormCIDR(NoIPv6())) == Ok(Pack(id, [], [], [Show(Masked(p))]))
    ensures ScriptCompile(id, [], [], [Show(p)]) == Some(Pack(id, [], [], [Show(p)]))
    ensures Show(p) != Show(Masked(p))
  {
    ShownIsTrimmed(p);
    ParseInvertsShow(p);
    ParseInvertsShow(Masked(p));
    ShownIsShort(p);
    ShownIsShort(Masked(p));
    OneCidrPacks(id, Show(p), NormCIDR(NoIPv6()));
  }
}
