/** Types and small arithmetic shared by every module. */
module Prelude {

  datatype Option<+T> = None | Some(value: T)

  type Byte = x: int | 0 <= x < 256

  type Bytes = seq<Byte>

  const U32: nat := 0x1_0000_0000
  const U64: nat := 0x1_0000_0000_0000_0000

  function Pow2(n: nat): (p: nat)
    ensures p >= 1
  {
    if n == 0 then 1 else 2 * Pow2(n - 1)
  }

  lemma {:induction false} Pow2Mono(a: nat, b: nat)
    requires a <= b
    ensures Pow2(a) <= Pow2(b)
  {
    if a < b {
      Pow2Mono(a, b - 1);
    }
  }

  lemma {:induction false} Pow2Add(a: nat, b: nat)
    ensures Pow2(a + b) == Pow2(a) * Pow2(b)
  {
    if b > 0 {
      Pow2Add(a, b - 1);
      assert Pow2(a + b) == 2 * Pow2(a + (b - 1));
    }
  }

  lemma Pow2Of14()
    ensures Pow2(14) == 16384
  {
  }

  /** The widths used by the bit formats.  `n` is a variable so that no power is unrolled. */
  lemma Pow2Table(n: nat)
    ensures n == 4 ==> Pow2(n) == 16
    ensures n == 5 ==> Pow2(n) == 32
    ensures n == 8 ==> Pow2(n) == 256
    ensures n == 17 ==> Pow2(n) == 131072
    ensures n == 28 ==> Pow2(n) == 0x1000_0000
    ensures n == 31 ==> Pow2(n) == U32 / 2
    ensures n == 35 ==> Pow2(n) == 8 * U32
    ensures n == 70 ==> Pow2(n) == 64 * U64
  {
    if n >= 17 {
      Pow2Of14();
      Pow2Add(14, 3);
      Pow2Add(14, 14);
      Pow2Add(28, 3);
      Pow2Add(28, 7);
      Pow2Add(35, 35);
    }
  }

  /** The value of a 32-bit word read as a two's complement `i32`. */
  function ToI32(u: nat): int
  {
    var w := u % U32;
    if w < U32 / 2 then w else w - U32
  }

  /** `Concat` of a list of sequences. */
  function Flatten<T>(ss: seq<seq<T>>): seq<T>
  {
    if ss == [] then [] else ss[0] + Flatten(ss[1..])
  }
}
