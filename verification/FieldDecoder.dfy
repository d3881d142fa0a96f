/** Field decoders: what `decode`, `skip` and `skip_bits` of each read.

    Floating point results are kept as the raw integers and flags they are computed from. */
module FieldDecoders {
  import opened Prelude
  import opened Bits

  datatype Quantizer = Quantizer(id: nat, roundDown: bool, roundUp: bool, zeroExactly: bool, bitCount: nat)

  /** The decoders of one number. */
  datatype FloatDecoder = SimulationTime | Coord | Normal | NoScale | Quantized(q: Quantizer)

  datatype Decoder =
    | Invalid
    | I64 | U64 | U64Fixed64 | Bool | Str
    | F32(float: FloatDecoder)
    | Vector2(float: FloatDecoder) | Vector3(float: FloatDecoder) | Vector3Normal | Vector4(float: FloatDecoder)
    | QAnglePitchYaw(bitCount: nat) | QAngleNoBitCount | QAnglePrecise | QAngleBitCount(bitCount: nat)

  datatype Float =
    | ZeroF
    | TimeF(ticks: nat, interval: nat)
    | CoordF(negative: bool, whole: nat, fraction: nat)
    | NormalF(negative: bool, fraction: nat)
    | NormalZ(negative: bool, x: Float, y: Float)
    | RawF(bits: nat)
    | LowF(q: Quantizer) | HighF(q: Quantizer) | ScaledF(q: Quantizer, step: nat)
    | AngleF(width: nat, step: nat)

  datatype FieldValue =
    | I64Value(i: int) | U64Value(u: nat) | BoolValue(b: bool) | StringValue(s: Bytes)
    | F32Value(f: Float) | VectorValue(fs: seq<Float>) | QAngleValue(fs: seq<Float>)

  // ---- floats built from single bits

  function ReadBitcoord(b: BitString): Read<Float>
  {
    var (hasInt, b1) :- ReadBool(b);
    var (hasFraction, b2) :- ReadBool(b1);
    if !hasInt && !hasFraction then Ok(ZeroF, b2) else
    var (negative, b3) :- ReadBool(b2);
    var (intval, b4) :- (if hasInt then ReadUbit(14, b3) else Ok(0, b3));
    var (fraction, b5) :- (if hasFraction then ReadUbit(5, b4) else Ok(0, b4));
    Ok(CoordF(negative, if hasInt then intval + 1 else 0, fraction), b5)
  }

  function ReadBitnormal(b: BitString): Read<Float>
  {
    var (negative, b1) :- ReadBool(b);
    var (fraction, b2) :- ReadUbit(11, b1);
    Ok(NormalF(negative, fraction), b2)
  }

  function ReadOptional(present: bool, f: FloatDecoder, b: BitString): Read<Float>
  {
    if present then DecodeFloat(f, 0, b) else Ok(ZeroF, b)
  }

  function ReadBitvec3coord(b: BitString): Read<seq<Float>>
  {
    var (x, b1) :- ReadBool(b);
    var (y, b2) :- ReadBool(b1);
    var (z, b3) :- ReadBool(b2);
    var (fx, b4) :- ReadOptional(x, Coord, b3);
    var (fy, b5) :- ReadOptional(y, Coord, b4);
    var (fz, b6) :- ReadOptional(z, Coord, b5);
    Ok([fx, fy, fz], b6)
  }

  function ReadBitvec3normal(b: BitString): Read<seq<Float>>
  {
    var (x, b1) :- ReadBool(b);
    var (y, b2) :- ReadBool(b1);
    var (fx, b3) :- ReadOptional(x, Normal, b2);
    var (fy, b4) :- ReadOptional(y, Normal, b3);
    var (negative, b5) :- ReadBool(b4);
    Ok([fx, fy, NormalZ(negative, fx, fy)], b5)
  }

  function ReadBitangle(width: nat, b: BitString): Read<Float>
  {
    var (step, b1) :- ReadUbit(width, b);
    Ok(AngleF(width, step), b1)
  }

  function ReadAngleIf(present: bool, width: nat, b: BitString): Read<Float>
  {
    if present then ReadBitangle(width, b) else Ok(ZeroF, b)
  }

  // ---- decode

  /** The flag bit, when the quantizer has it. */
  function ReadFlag(has: bool, b: BitString): Read<bool>
  {
    if has then ReadBool(b) else Ok(false, b)
  }

  function DecodeQuantized(q: Quantizer, b: BitString): Read<Float>
  {
    var (low, b1) :- ReadFlag(q.roundDown, b);
    if low then Ok(LowF(q), b1) else
    var (high, b2) :- ReadFlag(q.roundUp, b1);
    if high then Ok(HighF(q), b2) else
    var (zero, b3) :- ReadFlag(q.zeroExactly, b2);
    if zero then Ok(ZeroF, b3) else
    var (step, b4) :- ReadUbit(q.bitCount, b3);
    Ok(ScaledF(q, step), b4)
  }

  function DecodeFloat(f: FloatDecoder, interval: nat, b: BitString): Read<Float>
  {
    match f
    case SimulationTime =>
      var (ticks, b1) :- ReadUvarint32(b);
      Ok(TimeF(ticks, interval), b1)
    case Coord => ReadBitcoord(b)
    case Normal => ReadBitnormal(b)
    case NoScale =>
      var (bits, b1) :- ReadUbit(32, b);
      Ok(RawF(bits), b1)
    case Quantized(q) => DecodeQuantized(q, b)
  }

  function DecodeFloats(n: nat, f: FloatDecoder, interval: nat, b: BitString): Read<seq<Float>>
  {
    if n == 0 then Ok([], b) else
    var (x, b1) :- DecodeFloat(f, interval, b);
    var (xs, b2) :- DecodeFloats(n - 1, f, interval, b1);
    Ok([x] + xs, b2)
  }

  function ReadAngles(n: nat, width: nat, b: BitString): Read<seq<Float>>
  {
    if n == 0 then Ok([], b) else
    var (x, b1) :- ReadBitangle(width, b);
    var (xs, b2) :- ReadAngles(n - 1, width, b1);
    Ok([x] + xs, b2)
  }

  function ReadPrecise(b: BitString): Read<seq<Float>>
  {
    var (x, b1) :- ReadBool(b);
    var (y, b2) :- ReadBool(b1);
    var (z, b3) :- ReadBool(b2);
    var (fx, b4) :- ReadAngleIf(x, 20, b3);
    var (fy, b5) :- ReadAngleIf(y, 20, b4);
    var (fz, b6) :- ReadAngleIf(z, 20, b5);
    Ok([fx, fy, fz], b6)
  }

  function Decode(d: Decoder, interval: nat, b: BitString): Read<FieldValue>
  {
    match d
    case Invalid => Fail
    case I64 => var (v, b1) :- ReadVarint64(b); Ok(I64Value(v), b1)
    case U64 => var (v, b1) :- ReadUvarint64(b); Ok(U64Value(v), b1)
    case U64Fixed64 => var (v, b1) :- ReadBytes(8, b); Ok(U64Value(LittleEndian(v)), b1)
    case Bool => var (v, b1) :- ReadBool(b); Ok(BoolValue(v), b1)
    case Str => var (v, b1) :- ReadCString(b); Ok(StringValue(v), b1)
    case F32(f) => var (v, b1) :- DecodeFloat(f, interval, b); Ok(F32Value(v), b1)
    case Vector2(f) => var (v, b1) :- DecodeFloats(2, f, interval, b); Ok(VectorValue(v), b1)
    case Vector3(f) => var (v, b1) :- DecodeFloats(3, f, interval, b); Ok(VectorValue(v), b1)
    case Vector3Normal => var (v, b1) :- ReadBitvec3normal(b); Ok(VectorValue(v), b1)
    case Vector4(f) => var (v, b1) :- DecodeFloats(4, f, interval, b); Ok(VectorValue(v), b1)
    case QAnglePitchYaw(n) => var (v, b1) :- ReadAngles(2, n, b); Ok(QAngleValue(v + [ZeroF]), b1)
    case QAngleNoBitCount => var (v, b1) :- ReadBitvec3coord(b); Ok(QAngleValue(v), b1)
    case QAnglePrecise => var (v, b1) :- ReadPrecise(b); Ok(QAngleValue(v), b1)
    case QAngleBitCount(n) => var (v, b1) :- ReadAngles(3, n, b); Ok(QAngleValue(v), b1)
  }

  function LittleEndian(bytes: Bytes): nat
  {
    if bytes == [] then 0 else bytes[0] + 256 * LittleEndian(bytes[1..])
  }

  // ---- skip_bits: the number of bits passed over

  /** A read whose value is dropped and whose length is measured. */
  function Measured<T>(r: Read<T>, b: BitString): Read<int>
  {
    var (_, rest) :- r;
    Ok(|b| - |rest|, rest)
  }

  function Passed(n: nat, b: BitString): Read<int>
  {
    var (_, rest) :- SkipBits(n, b);
    Ok(n, rest)
  }

  function SkipQuantized(q: Quantizer, b: BitString): Read<int>
  {
    var n1 := if q.roundDown then 1 else 0;
    var (low, b1) :- ReadFlag(q.roundDown, b);
    if low then Ok(n1, b1) else
    var n2 := n1 + if q.roundUp then 1 else 0;
    var (high, b2) :- ReadFlag(q.roundUp, b1);
    if high then Ok(n2, b2) else
    var n3 := n2 + if q.zeroExactly then 1 else 0;
    var (zero, b3) :- ReadFlag(q.zeroExactly, b2);
    if zero then Ok(n3, b3) else
    var (_, b4) :- SkipBits(q.bitCount, b3);
    Ok(n3 + q.bitCount, b4)
  }

  function SkipFloat(f: FloatDecoder, b: BitString): Read<int>
  {
    match f
    case SimulationTime => Measured(ReadUvarint32(b), b)
    case Coord => Measured(ReadBitcoord(b), b)
    case Normal => Passed(12, b)
    case NoScale => Passed(32, b)
    case Quantized(q) => SkipQuantized(q, b)
  }

  function SkipFloats(n: nat, f: FloatDecoder, b: BitString): Read<int>
  {
    if n == 0 then Ok(0, b) else
    var (k, b1) :- SkipFloat(f, b);
    var (ks, b2) :- SkipFloats(n - 1, f, b1);
    Ok(k + ks, b2)
  }

  function SkipPrecise(b: BitString): Read<int>
  {
    var (x, b1) :- ReadBool(b);
    var (y, b2) :- ReadBool(b1);
    var (z, b3) :- ReadBool(b2);
    var n := 20 * ((if x then 1 else 0) + (if y then 1 else 0) + (if z then 1 else 0));
    var (_, b4) :- SkipBits(n, b3);
    Ok(3 + n, b4)
  }

  function SkipBitsOf(d: Decoder, b: BitString): Read<int>
  {
    match d
    case Invalid => Fail
    case I64 => Measured(ReadVarint64(b), b)
    case U64 => Measured(ReadUvarint64(b), b)
    case U64Fixed64 => Passed(64, b)
    case Bool => Passed(1, b)
    case Str => Measured(ReadCString(b), b)
    case F32(f) => SkipFloat(f, b)
    case Vector2(f) => SkipFloats(2, f, b)
    case Vector3(f) => SkipFloats(3, f, b)
    case Vector3Normal => Measured(ReadBitvec3normal(b), b)
    case Vector4(f) => SkipFloats(4, f, b)
    case QAnglePitchYaw(n) => Passed(n * 2, b)
    case QAngleNoBitCount => Measured(ReadBitvec3coord(b), b)
    case QAnglePrecise => SkipPrecise(b)
    case QAngleBitCount(n) => Passed(n * 3, b)
  }

  // ---- skip: no value, no count

  function Dropped<T>(r: Read<T>): Read<()>
  {
    var (_, rest) :- r;
    Ok((), rest)
  }

  function DropQuantized(q: Quantizer, b: BitString): Read<()>
  {
    var (low, b1) :- ReadFlag(q.roundDown, b);
    if low then Ok((), b1) else
    var (high, b2) :- ReadFlag(q.roundUp, b1);
    if high then Ok((), b2) else
    var (zero, b3) :- ReadFlag(q.zeroExactly, b2);
    if zero then Ok((), b3) else Dropped(ReadUbit(q.bitCount, b3))
  }

  function DropFloat(f: FloatDecoder, b: BitString): Read<()>
  {
    match f
    case Quantized(q) => DropQuantized(q, b)
    case _ => Dropped(DecodeFloat(f, 0, b))
  }

  function DropFloats(n: nat, f: FloatDecoder, b: BitString): Read<()>
  {
    if n == 0 then Ok((), b) else
    var (_, b1) :- DropFloat(f, b);
    DropFloats(n - 1, f, b1)
  }

  function DropUbits(n: nat, width: nat, b: BitString): Read<()>
  {
    if n == 0 then Ok((), b) else
    var (_, b1) :- ReadUbit(width, b);
    DropUbits(n - 1, width, b1)
  }

  function DropPrecise(b: BitString): Read<()>
  {
    var (x, b1) :- ReadBool(b);
    var (y, b2) :- ReadBool(b1);
    var (z, b3) :- ReadBool(b2);
    var (_, b4) :- (if x then Dropped(ReadUbit(20, b3)) else Ok((), b3));
    var (_, b5) :- (if y then Dropped(ReadUbit(20, b4)) else Ok((), b4));
    if z then Dropped(ReadUbit(20, b5)) else Ok((), b5)
  }

  function SkipOf(d: Decoder, b: BitString): Read<()>
  {
    match d
    case F32(f) => DropFloat(f, b)
    case Vector2(f) => DropFloats(2, f, b)
    case Vector3(f) => DropFloats(3, f, b)
    case Vector4(f) => DropFloats(4, f, b)
    case Str => Dropped(ReadCString(b))
    case QAnglePitchYaw(n) => DropUbits(2, n, b)
    case QAnglePrecise => DropPrecise(b)
    case QAngleBitCount(n) => DropUbits(3, n, b)
    case _ => Dropped(Decode(d, 0, b))
  }

  // ---- the three agree

  /** Both reads succeed on the same inputs and stop at the same place; the counts are exact. */
  ghost predicate Agree<T, U>(decoded: Read<T>, skipped: Read<int>, dropped: Read<U>, b: BitString)
  {
    match decoded
    case Ok(_, rest) => skipped == Ok(|b| - |rest|, rest) && dropped.Ok? && dropped.rest == rest
    case Fail => skipped == Fail && dropped == Fail
  }

  lemma QuantizedAgrees(q: Quantizer, b: BitString)
    ensures Agree(DecodeQuantized(q, b), SkipQuantized(q, b), DropQuantized(q, b), b)
  {
  }

  lemma FloatAgrees(f: FloatDecoder, interval: nat, b: BitString)
    ensures Agree(DecodeFloat(f, interval, b), SkipFloat(f, b), DropFloat(f, b), b)
  {
    match f
    case SimulationTime =>
    case Coord =>
    case Normal => SkipSplit(1, 11, b);
    case NoScale =>
    case Quantized(q) => QuantizedAgrees(q, b);
  }

  lemma {:induction false} FloatsAgree(n: nat, f: FloatDecoder, interval: nat, b: BitString)
    ensures Agree(DecodeFloats(n, f, interval, b), SkipFloats(n, f, b), DropFloats(n, f, b), b)
  {
    hide DecodeFloat, SkipFloat, DropFloat;
    if n > 0 {
      FloatAgrees(f, interval, b);
      match DecodeFloat(f, interval, b)
      case Ok(_, b1) => FloatsAgree(n - 1, f, interval, b1);
      case Fail =>
    }
  }

  /** Skipping `m + n` bits is skipping `m` and then `n`. */
  lemma SkipSplit(m: nat, n: nat, b: BitString)
    ensures |b| >= m ==> (|b[m..]| >= n <==> |b| >= m + n)
    ensures |b| >= m + n ==> b[m..][n..] == b[m + n..]
  {
  }

  lemma {:induction false} AnglesAgree(n: nat, width: nat, total: nat, b: BitString)
    requires total == n * width
    ensures Agree(ReadAngles(n, width, b), Passed(total, b), DropUbits(n, width, b), b)
  {
    if n > 0 {
      var more: nat := total - width;
      assert more == (n - 1) * width;
      SkipSplit(width, more, b);
      if |b| >= width {
        AnglesAgree(n - 1, width, more, b[width..]);
      }
    } else {
      assert b[0..] == b;
    }
  }

  lemma PreciseAgrees(b: BitString)
    ensures Agree(ReadPrecise(b), SkipPrecise(b), DropPrecise(b), b)
  {
  }

  /** `decode`, `skip_bits` and `skip` of every decoder succeed together and stop at the same bit. */
  lemma SkipAgreesWithDecode(d: Decoder, interval: nat, b: BitString)
    ensures Agree(Decode(d, interval, b), SkipBitsOf(d, b), SkipOf(d, b), b)
  {
    hide DecodeFloat, SkipFloat, DropFloat, DecodeFloats, SkipFloats, DropFloats, ReadPrecise, SkipPrecise, DropPrecise,
      ReadAngles, Passed, DropUbits, ReadVarint64, ReadUvarint64, ReadText, ReadBitvec3normal, ReadBitvec3coord;
    match d
    case F32(f) => FloatAgrees(f, interval, b);
    case Vector2(f) => FloatsAgree(2, f, interval, b);
    case Vector3(f) => FloatsAgree(3, f, interval, b);
    case Vector4(f) => FloatsAgree(4, f, interval, b);
    case QAnglePitchYaw(n) => AnglesAgree(2, n, n * 2, b);
    case QAnglePrecise => PreciseAgrees(b);
    case QAngleBitCount(n) => AnglesAgree(3, n, n * 3, b);
    case U64Fixed64 => BytesAgree(8, b);
    case Bool => BoolAgrees(b);
    case _ =>
  }

  lemma BoolAgrees(b: BitString)
    ensures Agree(ReadBool(b), Passed(1, b), ReadBool(b), b)
  {
  }

  lemma {:induction false} BytesAgree(n: nat, b: BitString)
    ensures Agree(ReadBytes(n, b), Passed(8 * n, b), Dropped(ReadBytes(n, b)), b)
  {
    if n > 0 {
      if |b| >= 8 {
        var b1 := b[8..];
        BytesAgree(n - 1, b1);
        if |b| >= 8 * n {
          assert b1[8 * (n - 1)..] == b[8 * n..];
        }
      }
    } else {
      assert b[0..] == b;
    }
  }
}
