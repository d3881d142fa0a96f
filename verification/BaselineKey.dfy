/** Which class the key of a baseline item names: the keys are decimal numbers written as text. */
module BaselineKeys {
  import opened Prelude
  import opened StringTables

  // ---- decimal numbers

  datatype Sign = NoSign | Plus | Minus

  function Code(c: char): Byte
    requires c as int < 256
  {
    c as int
  }

  function Digit(d: nat): Byte
    requires d < 10
  {
    Code('0') + d
  }

  function Decimal(n: nat): Bytes
  {
    if n < 10 then [Digit(n)] else Decimal(n / 10) + [Digit(n % 10)]
  }

  /** A number with any sign, any zeros in front of it and no other character. */
  function Written(sign: Sign, zeros: nat, n: nat): Bytes
  {
    (match sign case NoSign => [] case Plus => [Code('+')] case Minus => [Code('-')])
    + (seq(zeros, _ => Code('0')) + Decimal(n))
  }

  function Signed(sign: Sign, n: nat): int
  {
    if sign == Minus then 0 - n else n
  }

  lemma {:induction false} DigitsOfDecimal(zeros: nat, n: nat)
    ensures var s := seq(zeros, _ => Code('0')) + Decimal(n);
      s != [] && IsDigit(s[0]) && (forall i | 0 <= i < |s| :: s[i] < 128) && DigitsValue(s) == Some(n)
    decreases n, zeros
  {
    var zs := seq(zeros, _ => Code('0'));
    var s := zs + Decimal(n);
    if n >= 10 {
      DigitsOfDecimal(zeros, n / 10);
      assert s[..|s| - 1] == zs + Decimal(n / 10);
    } else {
      DigitsOfZeros(zeros);
      assert s[..|s| - 1] == zs;
    }
  }

  lemma {:induction false} DigitsOfZeros(zeros: nat)
    ensures DigitsValue(seq(zeros, _ => Code('0'))) == Some(0)
  {
    if zeros > 0 {
      DigitsOfZeros(zeros - 1);
      var s: Bytes := seq(zeros, _ => Code('0'));
      assert s[..|s| - 1] == seq(zeros - 1, _ => Code('0'));
    }
  }

  /** Digits are zeros followed by the decimal text of their value. */
  lemma {:induction false} DecimalOfDigits(s: Bytes) returns (zeros: nat)
    requires s != [] && DigitsValue(s).Some?
    ensures s == seq(zeros, _ => Code('0')) + Decimal(DigitsValue(s).value)
  {
    var init, d := s[..|s| - 1], s[|s| - 1] - 48;
    assert s == init + [Digit(d)];
    if init == [] {
      zeros := 0;
    } else {
      zeros := DecimalOfDigits(init);
      var v := DigitsValue(init).value;
      if v == 0 {
        zeros := zeros + 1;
        assert Decimal(0) == [Code('0')];
        assert s == seq(zeros, _ => Code('0')) + Decimal(d);
      } else {
        assert (10 * v + d) / 10 == v && (10 * v + d) % 10 == d;
      }
    }
  }

  lemma {:induction false} AsciiIsText(s: Bytes)
    requires forall i | 0 <= i < |s| :: s[i] < 128
    ensures IsUtf8(s)
  {
    if s != [] {
      AsciiIsText(s[1..]);
    }
  }

  /** The decimal text of any class names it, with or without a sign and leading zeros. */
  lemma KeyNamesClass(sign: Sign, zeros: nat, n: nat)
    requires -0x8000_0000 <= Signed(sign, n) < 0x8000_0000
    ensures ClassOf(Some(Written(sign, zeros, n))) == Class(Signed(sign, n))
  {
    hide Decimal, DigitsValue;
    var s, digits := Written(sign, zeros, n), seq(zeros, _ => Code('0')) + Decimal(n);
    DigitsOfDecimal(zeros, n);
    AsciiIsText(s);
    if sign == NoSign {
      assert s == digits;
    } else {
      assert s[1..] == digits;
    }
  }

  /** Nothing else names a class: a key that does is a sign, zeros and the decimal text of it. */
  lemma ClassIsWritten(s: Bytes) returns (sign: Sign, zeros: nat, n: nat)
    requires ClassOf(Some(s)).Class?
    ensures s == Written(sign, zeros, n) && ClassOf(Some(s)).id == Signed(sign, n)
    ensures -0x8000_0000 <= Signed(sign, n) < 0x8000_0000
  {
    hide Decimal, DigitsValue;
    sign := if s[0] == 43 then Plus else if s[0] == 45 then Minus else NoSign;
    var digits := if sign == NoSign then s else s[1..];
    zeros := DecimalOfDigits(digits);
    n := DigitsValue(digits).value;
    assert s == (if sign == NoSign then [] else [s[0]]) + digits;
  }

  // ---- text

  predicate IsScalar(c: nat) { c < 0xD800 || 0xE000 <= c < 0x110000 }

  /** A character as UTF-8 (section 3 of RFC 3629). */
  function EncScalar(c: nat): Bytes
    requires IsScalar(c)
  {
    if c < 0x80 then [c]
    else if c < 0x800 then [0xC0 + c / 64, 0x80 + c % 64]
    else if c < 0x10000 then [0xE0 + c / 4096, 0x80 + c / 64 % 64, 0x80 + c % 64]
    else [0xF0 + c / 262144, 0x80 + c / 4096 % 64, 0x80 + c / 64 % 64, 0x80 + c % 64]
  }

  predicate AreScalars(cs: seq<nat>) { forall i | 0 <= i < |cs| :: IsScalar(cs[i]) }

  function EncScalars(cs: seq<nat>): Bytes
    requires AreScalars(cs)
  {
    if cs == [] then [] else EncScalar(cs[0]) + EncScalars(cs[1..])
  }

  lemma ScalarLength(c: nat, rest: Bytes)
    requires IsScalar(c)
    ensures Utf8Length(EncScalar(c) + rest) == |EncScalar(c)|
  {
    hide Utf8Length;
    var s := EncScalar(c) + rest;
    if c < 0x80 {
      LengthOne(s);
    } else if c < 0x800 {
      assert s[0] == 0xC0 + c / 64 && s[1] == 0x80 + c % 64;
      LengthTwo(c, s);
    } else if c < 0x10000 {
      assert s[0] == 0xE0 + c / 4096 && s[1] == 0x80 + c / 64 % 64 && s[2] == 0x80 + c % 64;
      LengthThree(c, s);
    } else {
      assert s[0] == 0xF0 + c / 262144 && s[1] == 0x80 + c / 4096 % 64;
      assert s[2] == 0x80 + c / 64 % 64 && s[3] == 0x80 + c % 64;
      LengthFour(c, s);
    }
  }

  lemma LengthOne(s: Bytes)
    requires s != [] && s[0] < 0x80
    ensures Utf8Length(s) == 1
  {
  }

  lemma LengthTwo(c: nat, s: Bytes)
    requires 0x80 <= c < 0x800 && |s| >= 2 && s[0] == 0xC0 + c / 64 && s[1] == 0x80 + c % 64
    ensures Utf8Length(s) == 2
  {
  }

  lemma LengthThree(c: nat, s: Bytes)
    requires 0x800 <= c < 0x10000 && IsScalar(c)
    requires |s| >= 3 && s[0] == 0xE0 + c / 4096 && s[1] == 0x80 + c / 64 % 64 && s[2] == 0x80 + c % 64
    ensures Utf8Length(s) == 3
  {
  }

  lemma LengthFour(c: nat, s: Bytes)
    requires 0x10000 <= c < 0x110000 && |s| >= 4 && s[0] == 0xF0 + c / 262144 && s[1] == 0x80 + c / 4096 % 64
    requires s[2] == 0x80 + c / 64 % 64 && s[3] == 0x80 + c % 64
    ensures Utf8Length(s) == 4
  {
  }

  lemma ScalarOfLength(s: Bytes) returns (c: nat)
    requires Utf8Length(s) > 0
    ensures Utf8Length(s) <= |s| && IsScalar(c) && EncScalar(c) == s[..Utf8Length(s)]
  {
    hide Continuation;
    var n := Utf8Length(s);
    if n == 1 {
      c := s[0];
    } else if n == 2 {
      c := ScalarOfTwo(s);
    } else if n == 3 {
      c := ScalarOfThree(s);
    } else {
      c := ScalarOfFour(s);
    }
  }

  /** Digits to the base of 64. */
  lemma Base64(high: nat, low: nat)
    requires low < 64
    ensures (64 * high + low) / 64 == high && (64 * high + low) % 64 == low
  {
  }

  lemma ScalarOfTwo(s: Bytes) returns (c: nat)
    requires Utf8Length(s) == 2
    ensures 2 <= |s| && IsScalar(c) && EncScalar(c) == s[..2]
  {
    var high: int, low: int := s[0], s[1];
    Base64(high - 0xC0, low - 0x80);
    c := 64 * (high - 0xC0) + (low - 0x80);
    assert EncScalar(c) == [s[0], s[1]];
  }

  lemma ScalarOfThree(s: Bytes) returns (c: nat)
    requires Utf8Length(s) == 3
    ensures 3 <= |s| && IsScalar(c) && EncScalar(c) == s[..3]
  {
    var high: int, mid: int, low: int := s[0], s[1], s[2];
    var top := 64 * (high - 0xE0) + (mid - 0x80);
    Base64(high - 0xE0, mid - 0x80);
    Base64(top, low - 0x80);
    c := 64 * top + (low - 0x80);
    assert c / 4096 == c / 64 / 64;
    assert EncScalar(c) == [s[0], s[1], s[2]];
  }

  lemma ScalarOfFour(s: Bytes) returns (c: nat)
    requires Utf8Length(s) == 4
    ensures 4 <= |s| && IsScalar(c) && EncScalar(c) == s[..4]
  {
    var first: int, high: int, mid: int, low: int := s[0], s[1], s[2], s[3];
    var top := 64 * (first - 0xF0) + (high - 0x80);
    var upper := 64 * top + (mid - 0x80);
    Base64(first - 0xF0, high - 0x80);
    Base64(top, mid - 0x80);
    Base64(upper, low - 0x80);
    c := 64 * upper + (low - 0x80);
    assert c / 4096 == c / 64 / 64 && c / 262144 == c / 64 / 64 / 64;
    assert EncScalar(c) == [s[0], s[1], s[2], s[3]];
  }

  /** Characters written as UTF-8 are text. */
  lemma {:induction false} ScalarsAreText(cs: seq<nat>)
    requires AreScalars(cs)
    ensures ClassOf(Some(EncScalars(cs))) != NoText && IsUtf8(EncScalars(cs))
  {
    hide Utf8Length, EncScalar;
    if cs != [] {
      var s := EncScalars(cs);
      ScalarLength(cs[0], EncScalars(cs[1..]));
      ScalarsAreText(cs[1..]);
      NonEmpty(cs[0]);
      assert s[Utf8Length(s)..] == EncScalars(cs[1..]);
    }
  }

  lemma NonEmpty(c: nat)
    requires IsScalar(c)
    ensures EncScalar(c) != []
  {
  }

  /** Text is the UTF-8 of some characters: a key that is not names nothing and stops nothing. */
  lemma TextIsScalars(s: Bytes) returns (cs: seq<nat>)
    requires ClassOf(Some(s)) != NoText
    ensures AreScalars(cs) && EncScalars(cs) == s
  {
    cs := ScalarsOf(s);
  }

  lemma {:induction false} ScalarsOf(s: Bytes) returns (cs: seq<nat>)
    requires IsUtf8(s)
    ensures AreScalars(cs) && EncScalars(cs) == s
    decreases |s|
  {
    hide Utf8Length, EncScalar;
    if s == [] {
      cs := [];
    } else {
      var n := Utf8Length(s);
      var c := ScalarOfLength(s);
      var later := ScalarsOf(s[n..]);
      cs := [c] + later;
      assert cs[1..] == later;
    }
  }
}
