/** The string hash, on 64-bit words held as natural numbers below 2^64. */
module FxHash {
  import opened Prelude

  type Word = x: nat | x < 0x1_0000_0000_0000_0000

  const GOLDEN_RATIO: Word := 0x517cc1b727220a95

  /** Bitwise exclusive or of `n`-bit numbers. */
  function Xor(n: nat, a: nat, b: nat): nat
  {
    if n == 0 then 0 else (a % 2 + b % 2) % 2 + 2 * Xor(n - 1, a / 2, b / 2)
  }

  lemma {:induction false} XorBound(n: nat, a: nat, b: nat)
    ensures Xor(n, a, b) < Pow2(n)
  {
    if n > 0 {
      XorBound(n - 1, a / 2, b / 2);
    }
  }

  /** Distinct words stay distinct when the same word is mixed into them. */
  lemma {:induction false} XorInjective(n: nat, a: nat, b: nat, c: nat)
    requires a < Pow2(n) && b < Pow2(n) && Xor(n, a, c) == Xor(n, b, c)
    ensures a == b
  {
    if n > 0 {
      XorInjective(n - 1, a / 2, b / 2, c / 2);
    }
  }

  lemma {:induction false} XorCommutes(n: nat, a: nat, b: nat)
    ensures Xor(n, a, b) == Xor(n, b, a)
  {
    if n > 0 {
      XorCommutes(n - 1, a / 2, b / 2);
    }
  }

  lemma Pow64()
    ensures Pow2(64) == 0x1_0000_0000_0000_0000
  {
    Pow2Of14();
    Pow2Add(14, 14);
    Pow2Add(28, 28);
    Pow2Add(56, 8);
  }

  function XorWords(a: Word, b: Word): Word
  {
    XorBound(64, a, b);
    Pow64();
    Xor(64, a, b)
  }

  function RotateLeft5(w: Word): Word
  {
    w % 0x800_0000_0000_0000 * 32 + w / 0x800_0000_0000_0000
  }

  function MulGolden(w: Word): Word
  {
    w * GOLDEN_RATIO % 0x1_0000_0000_0000_0000
  }

  function AddToHash(hash: Word, value: Word): Word
  {
    MulGolden(XorWords(RotateLeft5(hash), value))
  }

  function HashBytes(bytes: Bytes): Word
  {
    HashFrom(0, bytes)
  }

  function HashFrom(hash: Word, bytes: Bytes): Word
    decreases |bytes|
  {
    if bytes == [] then hash else HashFrom(AddToHash(hash, bytes[0]), bytes[1..])
  }

  method HashBytesLoop(bytes: Bytes) returns (hash: Word)
    ensures hash == HashBytes(bytes)
  {
    hash := 0;
    var i := 0;
    while i < |bytes|
      invariant i <= |bytes|
      invariant HashFrom(hash, bytes[i..]) == HashBytes(bytes)
    {
      assert bytes[i..][0] == bytes[i] && bytes[i..][1..] == bytes[i + 1..];
      hash := AddToHash(hash, bytes[i]);
      i := i + 1;
    }
  }

  // ---- each step is injective in each argument

  lemma RotateInjective(a: Word, b: Word)
    requires RotateLeft5(a) == RotateLeft5(b)
    ensures a == b
  {
  }

  /** The golden ratio is odd, so it has an inverse modulo 2^64. */
  const GOLDEN_INVERSE: Word := 0x2040003d780970bd

  lemma MulInjective(a: Word, b: Word)
    requires MulGolden(a) == MulGolden(b)
    ensures a == b
  {
    UndoMul(a);
    UndoMul(b);
  }

  lemma UndoMul(a: Word)
    ensures MulGolden(a) * GOLDEN_INVERSE % 0x1_0000_0000_0000_0000 == a
  {
    var q := a * GOLDEN_RATIO / 0x1_0000_0000_0000_0000;
    var k := a * 0xa43f77ae39dae8d - q * GOLDEN_INVERSE;
    assert MulGolden(a) == a * GOLDEN_RATIO - q * 0x1_0000_0000_0000_0000;
    assert MulGolden(a) * GOLDEN_INVERSE == a + k * 0x1_0000_0000_0000_0000;
    DropMultiple(a, k);
  }

  lemma DropMultiple(a: Word, k: int)
    ensures (a + k * 0x1_0000_0000_0000_0000) % 0x1_0000_0000_0000_0000 == a
  {
  }

  lemma AddToHashInjective(h1: Word, h2: Word, v1: Word, v2: Word)
    requires AddToHash(h1, v1) == AddToHash(h2, v2)
    ensures v1 == v2 ==> h1 == h2
    ensures h1 == h2 ==> v1 == v2
  {
    var r1, r2 := RotateLeft5(h1), RotateLeft5(h2);
    MulInjective(XorWords(r1, v1), XorWords(r2, v2));
    Pow64();
    if v1 == v2 {
      XorInjective(64, r1, r2, v1);
      RotateInjective(h1, h2);
    }
    if h1 == h2 {
      XorCommutes(64, r1, v1);
      XorCommutes(64, r2, v2);
      XorInjective(64, v1, v2, r1);
    }
  }

  /** Folding one further sequence of values into two different hashes keeps them different. */
  function AddAll(hash: Word, values: seq<Word>): Word
    decreases |values|
  {
    if values == [] then hash else AddAll(AddToHash(hash, values[0]), values[1..])
  }

  lemma {:induction false} AddAllInjective(h1: Word, h2: Word, values: seq<Word>)
    requires h1 != h2
    ensures AddAll(h1, values) != AddAll(h2, values)
    decreases |values|
  {
    if values != [] {
      if AddToHash(h1, values[0]) == AddToHash(h2, values[0]) {
        AddToHashInjective(h1, h2, values[0], values[0]);
      }
      AddAllInjective(AddToHash(h1, values[0]), AddToHash(h2, values[0]), values[1..]);
    }
  }
}
