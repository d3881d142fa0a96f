/** The hash step on the 64 bits of its operands, and the hash as that step over the bytes. */
module HashBits {
  import opened Prelude
  import opened Bits
  import opened FxHash

  lemma {:induction false} BitsOfSum(low: nat, high: nat, k: nat, m: nat)
    requires low < Pow2(k)
    ensures OfNat(low + Pow2(k) * high, k + m) == OfNat(low, k) + OfNat(high, m)
    decreases k
  {
    if k > 0 {
      var p := Pow2(k - 1);
      assert Pow2(k) == 2 * p;
      Half(low, p * high);
      assert Pow2(k) * high == 2 * (p * high) by { Twice(p, high); }
      BitsOfSum(low / 2, high, k - 1, m);
    }
  }

  lemma Twice(p: nat, high: nat)
    ensures 2 * p * high == 2 * (p * high)
  {
  }

  lemma Half(low: nat, x: nat)
    ensures (low + 2 * x) / 2 == low / 2 + x && (low + 2 * x) % 2 == low % 2
  {
  }

  lemma {:induction false} XorBits(n: nat, a: nat, b: nat, i: nat)
    requires i < n
    ensures OfNat(Xor(n, a, b), n)[i] == (OfNat(a, n)[i] != OfNat(b, n)[i])
    decreases n
  {
    hide Xor;
    XorHalves(n, a, b);
    if i > 0 {
      XorBits(n - 1, a / 2, b / 2, i - 1);
    }
  }

  lemma XorHalves(n: nat, a: nat, b: nat)
    requires n > 0
    ensures Xor(n, a, b) % 2 == (if a % 2 == b % 2 then 0 else 1) && Xor(n, a, b) / 2 == Xor(n - 1, a / 2, b / 2)
  {
    Half((a % 2 + b % 2) % 2, Xor(n - 1, a / 2, b / 2));
  }

  lemma Pow59(k: nat)
    requires k == 59
    ensures Pow2(k) == 0x800_0000_0000_0000 && Pow2(5) == 32
  {
    Pow64();
    Pow2Add(k, 5);
  }

  /** The low bits move up by five, and the five highest come to the bottom. */
  lemma RotateMovesBits(w: Word, n: nat)
    requires n == 64
    ensures OfNat(RotateLeft5(w), n) == OfNat(w, n)[n - 5..] + OfNat(w, n)[..n - 5]
  {
    hide OfNat;
    var k, five := 59, 5;
    Pow59(k);
    var low, high := w % 0x800_0000_0000_0000, w / 0x800_0000_0000_0000;
    BitsOfSum(low, high, k, five);
    BitsOfSum(high, low, five, k);
    assert w == low + Pow2(k) * high;
    assert RotateLeft5(w) == high + Pow2(five) * low;
    assert OfNat(w, n) == OfNat(low, k) + OfNat(high, five);
    assert OfNat(RotateLeft5(w), n) == OfNat(high, five) + OfNat(low, k);
  }

  /** One step: the bits of the hash moved up by five around the word, flipped where the value has a bit, times
      the golden ratio modulo 2^64. */
  lemma StepOnBits(hash: Word, value: Word, n: nat) returns (mixed: Word)
    requires n == 64
    ensures forall i | 0 <= i < n :: OfNat(mixed, n)[i] == (OfNat(hash, n)[(i + 59) % 64] != OfNat(value, n)[i])
    ensures AddToHash(hash, value) == mixed * 0x517cc1b727220a95 % 0x1_0000_0000_0000_0000
  {
    hide OfNat, Xor;
    var turned := RotateLeft5(hash);
    mixed := XorWords(turned, value);
    RotateMovesBits(hash, n);
    forall i | 0 <= i < n
      ensures OfNat(mixed, n)[i] == (OfNat(hash, n)[(i + 59) % 64] != OfNat(value, n)[i])
    {
      XorBits(n, turned, value, i);
    }
  }

  /** From zero, byte after byte. */
  lemma {:induction false} HashIsSteps(bytes: Bytes, last: Byte)
    ensures HashBytes([]) == 0
    ensures HashBytes(bytes + [last]) == AddToHash(HashBytes(bytes), last)
  {
    HashFromSteps(0, bytes, last);
  }

  lemma {:induction false} HashFromSteps(hash: Word, bytes: Bytes, last: Byte)
    ensures HashFrom(hash, bytes + [last]) == AddToHash(HashFrom(hash, bytes), last)
    decreases |bytes|
  {
    hide AddToHash;
    var all := bytes + [last];
    if bytes == [] {
      assert all[1..] == [];
    } else {
      assert all[0] == bytes[0] && all[1..] == bytes[1..] + [last];
      HashFromSteps(AddToHash(hash, bytes[0]), bytes[1..], last);
    }
  }
}
