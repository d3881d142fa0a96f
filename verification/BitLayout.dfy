/** Where each bit of a number stands, said bit by bit: the encodings in `Bits` are read back, and are these. */
module BitLayouts {
  import opened Prelude
  import opened Bits

  /** Bit `i` of what is read is the bit at `i`: the lowest comes first. */
  lemma {:induction false} LowBitFirst(n: nat, b: BitString, i: nat)
    requires i < n <= |b|
    ensures ReadUbit(n, b).Ok? && ReadUbit(n, b).rest == b[n..]
    ensures ReadUbit(n, b).value / Pow2(i) % 2 == if b[i] then 1 else 0
    decreases i
  {
    var v, bits := ReadUbit(n, b).value, b[..n];
    assert v == ToNat(bits) && bits[i] == b[i];
    if i > 0 {
      var more := bits[1..];
      LowBitFirst(n - 1, more, i - 1);
      assert more[..n - 1] == more && more[i - 1] == bits[i];
      HalfOf(v, ToNat(more), bits[0], i);
    } else {
      assert Pow2(0) == 1;
    }
  }

  lemma HalfOf(v: nat, w: nat, low: bool, i: nat)
    requires v == (if low then 1 else 0) + 2 * w && i > 0
    ensures v / Pow2(i) == w / Pow2(i - 1)
  {
    var p := Pow2(i - 1);
    assert Pow2(i) == 2 * p;
    HalfBy(v, w, if low then 1 else 0, p);
  }

  lemma HalfBy(v: nat, w: nat, low: nat, p: nat)
    requires low < 2 && v == low + 2 * w && p > 0
    ensures v / (2 * p) == w / p
  {
    var q, r := w / p, w % p;
    Doubled(p, r, q);
    Quotient(v, 2 * p, q, low + 2 * r);
  }

  lemma Quotient(v: nat, d: nat, q: nat, r: nat)
    requires d > 0 && v == d * q + r && r < d
    ensures v / d == q
  {
    var e := q - v / d;
    Distribute(d, q, v / d);
    assert d * e == v % d - r;
    if e >= 1 {
      Times(d, 1, e);
    } else if e <= -1 {
      Times(d, e, -1);
    }
  }

  lemma Distribute(d: int, a: int, b: int)
    ensures d * (a - b) == d * a - d * b
  {
  }

  lemma Times(d: nat, a: int, b: int)
    requires a <= b
    ensures d * a <= d * b
  {
  }

  lemma Doubled(p: nat, x: nat, y: nat)
    ensures 2 * (x + p * y) == 2 * x + (2 * p) * y
  {
  }

  lemma {:induction false} ToNatConcat(a: BitString, b: BitString)
    ensures ToNat(a + b) == ToNat(a) + Pow2(|a|) * ToNat(b)
  {
    if a == [] {
      assert a + b == b;
    } else {
      assert (a + b)[0] == a[0] && (a + b)[1..] == a[1..] + b;
      ToNatConcat(a[1..], b);
      var p, x, y := Pow2(|a| - 1), ToNat(a[1..]), ToNat(b);
      Doubled(p, x, y);
    }
  }

  /** Six bits: a number below 16, and two more. */
  lemma SelectorIsRead(low: nat, first: bool, second: bool, rest: BitString)
    requires low < 16
    ensures ReadUbit(6, OfNat(low, 4) + ([first, second] + rest))
         == Ok(low + (if first then 16 else 0) + (if second then 32 else 0), rest)
  {
    var four := 4;
    assert Pow2(four) == 16;
    UbitRoundTrip(low, four, []);
    hide OfNat;
    var bits, pair := OfNat(low, four), [first, second];
    assert bits + [] == bits && bits[..4] == bits;
    var b := bits + (pair + rest);
    assert b[..6] == bits + pair && b[6..] == rest;
    ToNatConcat(bits, pair);
    assert pair[1..] == [second] && ToNat([second]) == if second then 1 else 0;
  }

  lemma Selected(low: nat, first: bool, second: bool, head: nat)
    requires low < 16 && head == low + (if first then 16 else 0) + (if second then 32 else 0)
    ensures head % 16 == low
    ensures UbitvarWidth(head / 16) == if first then (if second then 28 else 4) else (if second then 8 else 0)
  {
  }

  /** Four bits, a selector of two, and then `width` more. */
  lemma UbitvarOf(low: nat, first: bool, second: bool, width: nat, more: nat, rest: BitString)
    requires low < 16 && more < Pow2(width) && (first || second)
    requires width == if first then (if second then 28 else 4) else 8
    ensures ReadUbitvar(OfNat(low, 4) + ([first, second] + (OfNat(more, width) + rest))) == Ok(low + 16 * more, rest)
  {
    var head := low + (if first then 16 else 0) + (if second then 32 else 0);
    Selected(low, first, second, head);
    UbitRoundTrip(more, width, rest);
    var b1 := OfNat(more, width) + rest;
    SelectorIsRead(low, first, second, b1);
    UbitvarFrom(OfNat(low, 4) + ([first, second] + b1), head, low, width, b1, more, rest);
  }

  lemma UbitvarFrom(b: BitString, head: nat, low: nat, width: nat, b1: BitString, more: nat, rest: BitString)
    requires ReadUbit(6, b) == Ok(head, b1) && head % 16 == low && UbitvarWidth(head / 16) == width
    requires if width == 0 then b1 == rest && head == low && more == 0 else ReadUbit(width, b1) == Ok(more, rest)
    ensures ReadUbitvar(b) == Ok(low + 16 * more, rest)
  {
    hide ReadUbit, ReadUbitvar, UbitvarWidth;
    UbitvarOfParts(b, head, b1, more, rest);
  }

  /** The four forms, low bits first. */
  lemma UbitvarLayout(low: nat, more: nat, rest: BitString)
    requires low < 16
    ensures ReadUbitvar(OfNat(low, 4) + ([false, false] + rest)) == Ok(low, rest)
    ensures more < 16 ==>
      ReadUbitvar(OfNat(low, 4) + ([true, false] + (OfNat(more, 4) + rest))) == Ok(low + 16 * more, rest)
    ensures more < 256 ==>
      ReadUbitvar(OfNat(low, 4) + ([false, true] + (OfNat(more, 8) + rest))) == Ok(low + 16 * more, rest)
    ensures more < 0x1000_0000 ==>
      ReadUbitvar(OfNat(low, 4) + ([true, true] + (OfNat(more, 28) + rest))) == Ok(low + 16 * more, rest)
  {
    var four, eight, long := 4, 8, 28;
    Pow2Table(four);
    Pow2Table(eight);
    Pow2Table(long);
    Selected(low, false, false, low);
    SelectorIsRead(low, false, false, rest);
    UbitvarFrom(OfNat(low, 4) + ([false, false] + rest), low, low, 0, rest, 0, rest);
    hide OfNat, Pow2, ReadUbitvar;
    if more < 16 { UbitvarOf(low, true, false, four, more, rest); }
    if more < 256 { UbitvarOf(low, false, true, eight, more, rest); }
    if more < 0x1000_0000 { UbitvarOf(low, true, true, long, more, rest); }
  }

  /** A flag for a width of 2, else one for 4, 10 or 17, else 31 bits. */
  lemma UbitvarfpLayout(v: nat, rest: BitString)
    ensures v < 4 ==> ReadUbitvarfp([true] + (OfNat(v, 2) + rest)) == Ok(v, rest)
    ensures v < 16 ==> ReadUbitvarfp([false, true] + (OfNat(v, 4) + rest)) == Ok(v, rest)
    ensures v < 1024 ==> ReadUbitvarfp([false, false, true] + (OfNat(v, 10) + rest)) == Ok(v, rest)
    ensures v < 131072 ==> ReadUbitvarfp([false, false, false, true] + (OfNat(v, 17) + rest)) == Ok(v, rest)
    ensures v < 0x8000_0000 ==> ReadUbitvarfp([false, false, false, false] + (OfNat(v, 31) + rest)) == Ok(v, rest)
  {
    hide OfNat, ReadUbitvarfp, Flags;
    WidthIs(v, 2, 0, rest);
    WidthIs(v, 4, 1, rest);
    WidthIs(v, 10, 2, rest);
    WidthIs(v, 17, 3, rest);
    WidthIs(v, 31, 4, rest);
    FlagsAre();
  }

  lemma FlagsAre()
    ensures Flags(0) == [true] && Flags(1) == [false, true] && Flags(2) == [false, false, true]
    ensures Flags(3) == [false, false, false, true] && Flags(4) == [false, false, false, false]
  {
  }

  lemma Bound(width: nat, k: nat)
    requires k < 5 && width == [2, 4, 10, 17, 31][k]
    ensures Pow2(width) == [4, 16, 1024, 131072, 0x8000_0000][k]
  {
    match k
    case 0 => assert Pow2(2) == 4;
    case 2 => assert Pow2(10) == 1024;
    case _ => Pow2Table(width);
  }

  /** `k` widths are passed over; the last needs no flag of its own. */
  function Flags(k: nat): BitString
    requires k < 5
  {
    if k == 0 then [true] else if k == 4 then [false, false, false, false] else [false] + Flags(k - 1)
  }

  lemma WidthIs(v: nat, width: nat, k: nat, rest: BitString)
    requires k < 5 && width == [2, 4, 10, 17, 31][k]
    ensures v < [4, 16, 1024, 131072, 0x8000_0000][k] ==>
      ReadUbitvarfp(Flags(k) + (OfNat(v, width) + rest)) == Ok(v, rest)
  {
    Bound(width, k);
    if v < Pow2(width) {
      UbitRoundTrip(v, width, rest);
      hide OfNat, ReadUbit, Pow2;
      var b := OfNat(v, width) + rest;
      Passing(k, b);
    }
  }

  lemma PrefixedStep(widths: seq<nat>, b: BitString)
    requires Narrow(widths)
    ensures |widths| == 1 ==> ReadPrefixed(widths, b) == ReadUbit(widths[0], b)
    ensures |widths| > 1 ==> ReadPrefixed(widths, [true] + b) == ReadUbit(widths[0], b)
    ensures |widths| > 1 ==> ReadPrefixed(widths, [false] + b) == ReadPrefixed(widths[1..], b)
  {
    BoolRoundTrip(true, b);
    BoolRoundTrip(false, b);
    hide ReadUbit, ReadBool;
  }

  /** The widths left after passing some. */
  lemma Passing(k: nat, b: BitString)
    requires k < 5
    ensures ReadUbitvarfp(Flags(k) + b) == ReadUbit([2, 4, 10, 17, 31][k], b)
  {
    hide ReadUbit, ReadPrefixed;
    var w0, w1, w2, w3, w4 := [2, 4, 10, 17, 31], [4, 10, 17, 31], [10, 17, 31], [17, 31], [31];
    assert w0[1..] == w1 && w1[1..] == w2 && w2[1..] == w3 && w3[1..] == w4;
    match k
    case 0 => PrefixedStep(w0, b);
    case 1 =>
      assert Flags(1) + b == [false] + ([true] + b);
      PrefixedStep(w0, [true] + b);
      PrefixedStep(w1, b);
    case 2 =>
      assert Flags(2) + b == [false] + ([false] + ([true] + b));
      PrefixedStep(w0, [false] + ([true] + b));
      PrefixedStep(w1, [true] + b);
      PrefixedStep(w2, b);
    case 3 =>
      assert Flags(3) + b == [false] + ([false] + ([false] + ([true] + b)));
      PrefixedStep(w0, [false] + ([false] + ([true] + b)));
      PrefixedStep(w1, [false] + ([true] + b));
      PrefixedStep(w2, [true] + b);
      PrefixedStep(w3, b);
    case 4 =>
      assert Flags(4) + b == [false] + ([false] + ([false] + ([false] + b)));
      PrefixedStep(w0, [false] + ([false] + ([false] + b)));
      PrefixedStep(w1, [false] + ([false] + b));
      PrefixedStep(w2, [false] + b);
      PrefixedStep(w3, b);
      PrefixedStep(w4, b);
  }

  /** Signed numbers: 0, -1, 1, -2, 2, ... take the places of 0, 1, 2, 3, 4, ... */
  lemma SignedLayout(v: nat, rest: BitString)
    requires v < 0x8000_0000
    ensures ReadVarint32(EncGroups(2 * v) + rest) == Ok(v, rest)
    ensures var r := ReadVarint32(EncGroups(2 * v + 1) + rest); r.Ok? && r.value + v + 1 == 0 && r.rest == rest
  {
    hide EncGroups, ReadUvarint32;
    Uvarint32RoundTrip(2 * v, rest);
    Uvarint32RoundTrip(2 * v + 1, rest);
  }

  lemma Signed64Layout(v: nat, rest: BitString)
    requires v < 0x8000_0000_0000_0000
    ensures ReadVarint64(EncGroups(2 * v) + rest) == Ok(v, rest)
    ensures var r := ReadVarint64(EncGroups(2 * v + 1) + rest); r.Ok? && r.value + v + 1 == 0 && r.rest == rest
  {
    hide EncGroups, ReadUvarint64;
    Uvarint64RoundTrip(2 * v, rest);
    Uvarint64RoundTrip(2 * v + 1, rest);
  }
}
