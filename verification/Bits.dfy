/** What a reader computes, as functions of the bits that are still unread.

    A value is stored low bit first.  Every function returns the value together with the bits
    that remain, or `Fail` when too few bits are left or an encoding is malformed. */
module Bits {
  import opened Prelude

  type BitString = seq<bool>

  datatype Read<+T> = Ok(value: T, rest: BitString) | Fail {
    predicate IsFailure() { Fail? }

    function PropagateFailure<U>(): Read<U>
      requires Fail?
    {
      Fail
    }

    function Extract(): (T, BitString)
      requires Ok?
    {
      (value, rest)
    }
  }

  function ToNat(b: BitString): (v: nat)
    ensures v < Pow2(|b|)
  {
    if b == [] then 0 else (if b[0] then 1 else 0) + 2 * ToNat(b[1..])
  }

  function OfNat(v: nat, n: nat): (b: BitString)
    ensures |b| == n
  {
    if n == 0 then [] else [v % 2 == 1] + OfNat(v / 2, n - 1)
  }

  function ReadUbit(n: nat, b: BitString): (r: Read<nat>)
    ensures r.Ok? ==> |r.rest| == |b| - n && r.value < Pow2(n)
  {
    if |b| < n then Fail else Ok(ToNat(b[..n]), b[n..])
  }

  lemma UbitRoundTrip(v: nat, n: nat, rest: BitString)
    requires v < Pow2(n)
    ensures ReadUbit(n, OfNat(v, n) + rest) == Ok(v, rest)
  {
  }

  function ReadBool(b: BitString): (r: Read<bool>)
    ensures r.Ok? ==> |r.rest| == |b| - 1
  {
    if b == [] then Fail else Ok(b[0], b[1..])
  }

  lemma BoolRoundTrip(v: bool, rest: BitString)
    ensures ReadBool([v] + rest) == Ok(v, rest)
  {
    assert ([v] + rest)[1..] == rest;
  }

  function SkipBits(n: nat, b: BitString): Read<()>
  {
    if |b| < n then Fail else Ok((), b[n..])
  }

  function ReadByte(b: BitString): (r: Read<Byte>)
    ensures r.Ok? ==> |r.rest| == |b| - 8
  {
    var (v, rest) :- ReadUbit(8, b);
    Ok(v, rest)
  }

  function EncByte(v: Byte): BitString { OfNat(v, 8) }

  lemma ByteRoundTrip(v: Byte, rest: BitString)
    ensures ReadByte(EncByte(v) + rest) == Ok(v, rest)
  {
    UbitRoundTrip(v, 8, rest);
  }

  function ReadBytes(n: nat, b: BitString): (r: Read<Bytes>)
    ensures r.Ok? ==> |r.value| == n && |r.rest| == |b| - 8 * n
  {
    if n == 0 then Ok([], b) else
    var (v, b1) :- ReadByte(b);
    var (vs, b2) :- ReadBytes(n - 1, b1);
    Ok([v] + vs, b2)
  }

  function EncBytes(vs: Bytes): BitString
  {
    if vs == [] then [] else EncByte(vs[0]) + EncBytes(vs[1..])
  }

  lemma {:induction false} BytesRoundTrip(vs: Bytes, rest: BitString)
    ensures ReadBytes(|vs|, EncBytes(vs) + rest) == Ok(vs, rest)
  {
    if vs == [] {
      assert EncBytes(vs) + rest == rest;
    } else {
      assert EncBytes(vs) + rest == EncByte(vs[0]) + (EncBytes(vs[1..]) + rest);
      ByteRoundTrip(vs[0], EncBytes(vs[1..]) + rest);
      BytesRoundTrip(vs[1..], rest);
      assert [vs[0]] + vs[1..] == vs;
    }
  }

  // ---- base-128 varints: seven bits a byte, low group first, high bit set on all but the last.

  /** At most `k` groups. */
  function ReadGroups(k: nat, b: BitString): (r: Read<nat>)
    ensures r.Ok? ==> |r.rest| <= |b| - 8
    decreases |b|
  {
    if k == 0 then Fail else
    var (v, b1) :- ReadByte(b);
    if v < 128 then Ok(v, b1) else
    var (hi, b2) :- ReadGroups(k - 1, b1);
    Ok(v - 128 + 128 * hi, b2)
  }

  function EncGroups(v: nat): BitString
  {
    if v < 128 then EncByte(v) else EncByte(128 + v % 128) + EncGroups(v / 128)
  }

  lemma GroupsFit(k: nat, v: nat)
    requires 0 < k && 128 <= v < Pow2(7 * k)
    ensures k > 1 && v / 128 < Pow2(7 * (k - 1))
  {
    Pow2Add(7 * (k - 1), 7);
  }

  lemma {:induction false} GroupsRoundTrip(k: nat, v: nat, rest: BitString)
    requires 0 < k && v < Pow2(7 * k)
    ensures ReadGroups(k, EncGroups(v) + rest) == Ok(v, rest)
    decreases k
  {
    hide EncByte, ReadByte, Pow2;
    if v < 128 {
      ByteRoundTrip(v, rest);
    } else {
      GroupsFit(k, v);
      GroupsRoundTrip(k - 1, v / 128, rest);
      assert EncGroups(v) + rest == EncByte(128 + v % 128) + (EncGroups(v / 128) + rest);
      ByteRoundTrip(128 + v % 128, EncGroups(v / 128) + rest);
    }
  }

  function ReadUvarint32(b: BitString): (r: Read<nat>)
    ensures r.Ok? ==> r.value < U32 && |r.rest| <= |b| - 8
  {
    var (v, rest) :- ReadGroups(5, b);
    Ok(v % U32, rest)
  }

  function ReadUvarint64(b: BitString): (r: Read<nat>)
    ensures r.Ok? ==> r.value < U64 && |r.rest| <= |b| - 8
  {
    var (v, rest) :- ReadGroups(10, b);
    Ok(v % U64, rest)
  }

  lemma Uvarint32OfGroups(b: BitString, v: nat, rest: BitString)
    requires v < U32 && ReadGroups(5, b) == Ok(v, rest)
    ensures ReadUvarint32(b) == Ok(v, rest)
  {
  }

  lemma Uvarint64OfGroups(b: BitString, v: nat, rest: BitString)
    requires v < U64 && ReadGroups(10, b) == Ok(v, rest)
    ensures ReadUvarint64(b) == Ok(v, rest)
  {
  }

  lemma Uvarint32RoundTrip(v: nat, rest: BitString)
    requires v < U32
    ensures ReadUvarint32(EncGroups(v) + rest) == Ok(v, rest)
  {
    var k := 5;
    Pow2Table(7 * k);
    GroupsRoundTrip(k, v, rest);
    Uvarint32OfGroups(EncGroups(v) + rest, v, rest);
  }

  lemma Uvarint64RoundTrip(v: nat, rest: BitString)
    requires v < U64
    ensures ReadUvarint64(EncGroups(v) + rest) == Ok(v, rest)
  {
    var k := 10;
    Pow2Table(7 * k);
    GroupsRoundTrip(k, v, rest);
    Uvarint64OfGroups(EncGroups(v) + rest, v, rest);
  }

  // ---- zigzag: 0, -1, 1, -2, 2, ... are stored as 0, 1, 2, 3, 4, ...

  function UnZigZag(n: nat): int { if n % 2 == 0 then n / 2 else -(n / 2) - 1 }

  function ZigZag(v: int): nat { if v >= 0 then 2 * v else -2 * v - 1 }

  function ReadVarint32(b: BitString): (r: Read<int>)
    ensures r.Ok? ==> |r.rest| <= |b| - 8 && -0x8000_0000 <= r.value < 0x8000_0000
  {
    var (v, rest) :- ReadUvarint32(b);
    Ok(UnZigZag(v), rest)
  }

  function ReadVarint64(b: BitString): (r: Read<int>)
    ensures r.Ok? ==> |r.rest| <= |b| - 8
  {
    var (v, rest) :- ReadUvarint64(b);
    Ok(UnZigZag(v), rest)
  }

  function EncVarint32(v: int): BitString { EncGroups(ZigZag(v)) }

  lemma Varint32RoundTrip(v: int, rest: BitString)
    requires -0x8000_0000 <= v < 0x8000_0000
    ensures ReadVarint32(EncVarint32(v) + rest) == Ok(v, rest)
  {
    Uvarint32RoundTrip(ZigZag(v), rest);
  }

  // ---- valve's own variable-length integers

  /** Six bits; bits 4 and 5 say how many more follow: none, 4, 8 or 28. */
  function ReadUbitvar(b: BitString): (r: Read<nat>)
    ensures r.Ok? ==> r.value < U32 && |r.rest| <= |b| - 6
  {
    var (head, b1) :- ReadUbit(6, b);
    var width := UbitvarWidth(head / 16);
    if width == 0 then Ok(head, b1) else
    var (more, b2) :- ReadUbit(width, b1);
    Pow2Table(width);
    Ok(head % 16 + 16 * more, b2)
  }

  function UbitvarWidth(selector: nat): nat
  {
    match selector
    case 1 => 4
    case 2 => 8
    case 3 => 28
    case _ => 0
  }

  function EncUbitvar(v: nat): BitString
  {
    var selector := if v < 16 then 0 else if v < 256 then 1 else if v < 4096 then 2 else 3;
    OfNat(16 * selector + v % 16, 6) + OfNat(v / 16, UbitvarWidth(selector))
  }

  lemma UbitvarRoundTrip(v: nat, rest: BitString)
    requires v < U32
    ensures ReadUbitvar(EncUbitvar(v) + rest) == Ok(v, rest)
  {
    var selector := if v < 16 then 0 else if v < 256 then 1 else if v < 4096 then 2 else 3;
    hide OfNat, Pow2, ReadUbitvar;
    UbitvarParts(v, selector);
    UbitvarParted(16 * selector + v % 16, v / 16, 6, rest);
  }

  lemma UbitvarParted(head: nat, more: nat, six: nat, rest: BitString)
    requires six == 6 && head < Pow2(six) && more < Pow2(UbitvarWidth(head / 16))
    ensures ReadUbitvar(OfNat(head, six) + OfNat(more, UbitvarWidth(head / 16)) + rest)
         == if UbitvarWidth(head / 16) == 0 then Ok(head, rest) else Ok(head % 16 + 16 * more, rest)
  {
    var width := UbitvarWidth(head / 16);
    OfNatNothing(more);
    hide OfNat, ReadUbit, Pow2, ReadUbitvar, UbitvarWidth;
    var first, second := OfNat(head, six), OfNat(more, width);
    UbitRoundTrip(head, six, second + rest);
    UbitRoundTrip(more, width, rest);
    assert first + second + rest == first + (second + rest);
    if width == 0 {
      assert second + rest == rest;
    }
    UbitvarOfParts(first + second + rest, head, second + rest, more, rest);
  }

  lemma UbitvarOfParts(b: BitString, head: nat, b1: BitString, more: nat, rest: BitString)
    requires ReadUbit(6, b) == Ok(head, b1)
    requires UbitvarWidth(head / 16) > 0 ==> ReadUbit(UbitvarWidth(head / 16), b1) == Ok(more, rest)
    ensures ReadUbitvar(b) ==
      if UbitvarWidth(head / 16) == 0 then Ok(head, b1) else Ok(head % 16 + 16 * more, rest)
  {
    hide ReadUbit, Pow2;
  }

  lemma OfNatNothing(v: nat)
    ensures OfNat(v, 0) == []
  {
  }

  lemma UbitvarParts(v: nat, selector: nat)
    requires v < U32 && selector == if v < 16 then 0 else if v < 256 then 1 else if v < 4096 then 2 else 3
    ensures var first, width, six := 16 * selector + v % 16, UbitvarWidth(selector), 6;
      && first < Pow2(six) && v / 16 < Pow2(width)
      && first / 16 == selector && first % 16 == v % 16 && (width == 0 <==> selector == 0)
          && (selector == 0 ==> first == v)
      && v % 16 + 16 * (v / 16) == v
  {
    var six := 6;
    assert Pow2(six) == 64;
    Pow2Table(UbitvarWidth(selector));
  }

  predicate Narrow(widths: seq<nat>)
  {
    widths != [] && forall i | 0 <= i < |widths| :: widths[i] <= 31
  }

  /** One bool per width but the last; the first set bool chooses its width, none the last. */
  function ReadPrefixed(widths: seq<nat>, b: BitString): (r: Read<nat>)
    requires Narrow(widths)
    ensures r.Ok? ==> r.value < U32 / 2 && |r.rest| <= |b|
    decreases |widths|
  {
    var top := 31;
    Pow2Table(top);
    Pow2Mono(widths[0], top);
    if |widths| == 1 then ReadUbit(widths[0], b) else
    var (chosen, b1) :- ReadBool(b);
    if chosen then ReadUbit(widths[0], b1) else ReadPrefixed(widths[1..], b1)
  }

  function EncPrefixed(widths: seq<nat>, v: nat): BitString
    requires widths != []
    decreases |widths|
  {
    if |widths| == 1 then OfNat(v, widths[0])
    else if v < Pow2(widths[0]) then [true] + OfNat(v, widths[0])
    else [false] + EncPrefixed(widths[1..], v)
  }

  lemma {:induction false} PrefixedRoundTrip(widths: seq<nat>, v: nat, rest: BitString)
    requires Narrow(widths)
    requires v < Pow2(widths[|widths| - 1])
    ensures ReadPrefixed(widths, EncPrefixed(widths, v) + rest) == Ok(v, rest)
    decreases |widths|
  {
    hide OfNat, ReadUbit, Pow2;
    var all := EncPrefixed(widths, v) + rest;
    if |widths| == 1 {
      UbitRoundTrip(v, widths[0], rest);
    } else if v < Pow2(widths[0]) {
      UbitRoundTrip(v, widths[0], rest);
      assert all[1..] == OfNat(v, widths[0]) + rest;
    } else {
      PrefixedRoundTrip(widths[1..], v, rest);
      assert all[1..] == EncPrefixed(widths[1..], v) + rest;
    }
  }

  const FP_WIDTHS: seq<nat> := [2, 4, 10, 17, 31]

  function ReadUbitvarfp(b: BitString): (r: Read<nat>)
    ensures r.Ok? ==> r.value < U32 / 2 && |r.rest| <= |b|
  {
    ReadPrefixed(FP_WIDTHS, b)
  }

  function EncUbitvarfp(v: nat): BitString { EncPrefixed(FP_WIDTHS, v) }

  lemma UbitvarfpRoundTrip(v: nat, rest: BitString)
    requires v < U32 / 2
    ensures ReadUbitvarfp(EncUbitvarfp(v) + rest) == Ok(v, rest)
  {
    var top := 31;
    Pow2Table(top);
    PrefixedRoundTrip(FP_WIDTHS, v, rest);
  }

  // ---- terminated strings

  const NEWLINE: Byte := 10

  /** A NUL ends a string, and in line mode so does a newline. */
  predicate Ends(line: bool, v: Byte) { v == 0 || (line && v == NEWLINE) }

  /** The characters up to (and consuming) the first one that ends the string. */
  function ReadText(line: bool, b: BitString): (r: Read<Bytes>)
    ensures r.Ok? ==> |r.rest| == |b| - 8 * (|r.value| + 1) && forall v | v in r.value :: !Ends(line, v)
    decreases |b|
  {
    var (v, b1) :- ReadByte(b);
    if Ends(line, v) then Ok([], b1) else
    var (vs, b2) :- ReadText(line, b1);
    Ok([v] + vs, b2)
  }

  function ReadCString(b: BitString): (r: Read<Bytes>)
    ensures r.Ok? ==> |r.rest| == |b| - 8 * (|r.value| + 1) && 0 !in r.value
  {
    ReadText(false, b)
  }

  /** Having read the characters `seen` of the string at `start`, none of which ends it, a reader stands at `now`. */
  ghost predicate InText(line: bool, start: BitString, seen: Bytes, now: BitString)
  {
    match ReadText(line, now)
    case Ok(s, rest) => ReadText(line, start) == Ok(seen + s, rest)
    case Fail => ReadText(line, start) == Fail
  }

  lemma InTextStart(line: bool, start: BitString)
    ensures InText(line, start, [], start)
  {
    match ReadText(line, start)
    case Ok(s, _) => assert [] + s == s;
    case Fail =>
  }

  lemma InTextNext(line: bool, start: BitString, seen: Bytes, now: BitString)
    requires InText(line, start, seen, now)
    ensures match ReadByte(now)
            case Ok(v, after) =>
              if Ends(line, v) then ReadText(line, start) == Ok(seen, after)
              else InText(line, start, seen + [v], after)
            case Fail => ReadText(line, start) == Fail
  {
    assert seen + [] == seen;
    match ReadByte(now)
    case Ok(v, after) =>
      match ReadText(line, after) {
        case Ok(s, _) => assert seen + ([v] + s) == (seen + [v]) + s;
        case Fail =>
      }
    case Fail =>
  }

  lemma {:induction false} TextRoundTrip(line: bool, s: Bytes, end: Byte, rest: BitString)
    requires Ends(line, end) && forall v | v in s :: !Ends(line, v)
    ensures ReadText(line, EncBytes(s + [end]) + rest) == Ok(s, rest)
  {
    var all := s + [end];
    assert EncBytes(all) + rest == EncByte(all[0]) + (EncBytes(all[1..]) + rest);
    ByteRoundTrip(all[0], EncBytes(all[1..]) + rest);
    if s == [] {
      assert EncBytes(all[1..]) + rest == rest;
    } else {
      assert all[1..] == s[1..] + [end];
      TextRoundTrip(line, s[1..], end, rest);
      assert [s[0]] + s[1..] == s;
    }
  }

  function EncCString(s: Bytes): BitString { EncBytes(s + [0]) }

  lemma CStringRoundTrip(s: Bytes, rest: BitString)
    requires 0 !in s
    ensures ReadCString(EncCString(s) + rest) == Ok(s, rest)
  {
    TextRoundTrip(false, s, 0, rest);
  }
}
