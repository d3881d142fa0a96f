/** Field values written bit by bit, and that the decoders read them back. */
module FieldEncoders {
  import opened Prelude
  import opened Bits
  import opened FieldDecoders
  import FxHash

  // ---- one number

  predicate QuantizedFits(q: Quantizer, f: Float)
  {
    match f
    case LowF(of) => of == q && q.roundDown
    case HighF(of) => of == q && q.roundUp
    case ZeroF => q.zeroExactly
    case ScaledF(of, step) => of == q && step < Pow2(q.bitCount)
    case _ => false
  }

  /** The values a decoder can give. */
  predicate FloatFits(d: FloatDecoder, interval: nat, f: Float)
  {
    match d
    case SimulationTime => f.TimeF? && f.interval == interval && f.ticks < U32
    case Coord => f.ZeroF? || (f.CoordF? && f.whole <= 16384 && f.fraction < 32)
    case Normal => f.NormalF? && f.fraction < 2048
    case NoScale => f.RawF? && f.bits < U32
    case Quantized(q) => QuantizedFits(q, f)
  }

  /** Whether there is a whole part and a fraction; the sign; one less than the whole part in 14 bits; the fraction,
      in 32nds, in five. */
  function EncCoord(f: Float): BitString
    requires FloatFits(Coord, 0, f)
  {
    if f.ZeroF? then [false, false]
    else if f.whole == 0 then [false, true] + ([f.negative] + OfNat(f.fraction, 5))
    else if f.fraction == 0 then [true, false] + ([f.negative] + OfNat(f.whole - 1, 14))
    else [true, true] + ([f.negative] + (OfNat(f.whole - 1, 14) + OfNat(f.fraction, 5)))
  }

  /** A set flag for the low end, the high end or zero, one that is not set for each of them that is passed. */
  function EncQuantized(q: Quantizer, f: Float): BitString
    requires QuantizedFits(q, f)
  {
    var down, up, zero :=
      if q.roundDown then [false] else [], if q.roundUp then [false] else [], if q.zeroExactly then [false] else [];
    match f
    case LowF(_) => [true]
    case HighF(_) => down + [true]
    case ZeroF => down + (up + [true])
    case ScaledF(_, step) => down + (up + (zero + OfNat(step, q.bitCount)))
  }

  function EncFloat(d: FloatDecoder, interval: nat, f: Float): BitString
    requires FloatFits(d, interval, f)
  {
    match d
    case SimulationTime => EncGroups(f.ticks)
    case Coord => EncCoord(f)
    case Normal => [f.negative] + OfNat(f.fraction, 11)
    case NoScale => OfNat(f.bits, 32)
    case Quantized(q) => EncQuantized(q, f)
  }

  lemma Widths(n: nat)
    ensures n == 5 ==> Pow2(n) == 32
    ensures n == 11 ==> Pow2(n) == 2048
    ensures n == 14 ==> Pow2(n) == 16384
    ensures n == 20 ==> Pow2(n) == 1048576
    ensures n == 32 ==> Pow2(n) == U32
  {
    if n == 5 {
      Pow2Table(n);
    } else if n == 11 {
      assert Pow2(11) == 2048;
    } else if n >= 14 {
      Pow2Of14();
      Pow2Add(14, 6);
      Pow2Add(14, 14);
      Pow2Add(28, 4);
    }
  }

  /** The bits after the two flags and the sign. */
  function CoordParts(f: Float, rest: BitString): (BitString, BitString)
    requires FloatFits(Coord, 0, f) && f.CoordF?
  {
    var b4 := if f.whole == 0 || f.fraction > 0 then OfNat(f.fraction, 5) + rest else rest;
    (if f.whole > 0 then OfNat(f.whole - 1, 14) + b4 else b4, b4)
  }

  lemma CoordBits(f: Float, rest: BitString)
    requires FloatFits(Coord, 0, f) && f.CoordF?
    ensures EncCoord(f) + rest
         == [f.whole > 0] + ([f.whole == 0 || f.fraction > 0] + ([f.negative] + CoordParts(f, rest).0))
  {
    hide OfNat;
  }

  lemma CoordRoundTrip(f: Float, rest: BitString)
    requires FloatFits(Coord, 0, f)
    ensures ReadBitcoord(EncCoord(f) + rest) == Ok(f, rest)
  {
    if f.ZeroF? {
      hide ReadBool, ReadBitcoord;
      assert EncCoord(f) + rest == [false] + ([false] + rest);
      BoolRoundTrip(false, [false] + rest);
      BoolRoundTrip(false, rest);
      CoordOf([false] + ([false] + rest), false, false, rest, false, rest, 0, rest, 0, rest);
    } else {
      CoordPartsRead(f, rest);
    }
  }

  lemma CoordPartsRead(f: Float, rest: BitString)
    requires FloatFits(Coord, 0, f) && f.CoordF?
    ensures ReadBitcoord(EncCoord(f) + rest) == Ok(f, rest)
  {
    hide OfNat, ReadUbit, Pow2, ReadBool, ReadBitcoord, EncCoord;
    Widths(5);
    Widths(14);
    var hasInt, hasFraction := f.whole > 0, f.whole == 0 || f.fraction > 0;
    var (b3, b4) := CoordParts(f, rest);
    CoordBits(f, rest);
    BoolRoundTrip(hasInt, [hasFraction] + ([f.negative] + b3));
    BoolRoundTrip(hasFraction, [f.negative] + b3);
    BoolRoundTrip(f.negative, b3);
    if hasInt { UbitRoundTrip(f.whole - 1, 14, b4); }
    if hasFraction { UbitRoundTrip(f.fraction, 5, rest); }
    CoordOf(EncCoord(f) + rest, hasInt, hasFraction, [f.negative] + b3, f.negative, b3,
            if hasInt then f.whole - 1 else 0, b4, f.fraction, rest);
  }

  lemma CoordOf(b: BitString, hasInt: bool, hasFraction: bool, b2: BitString, negative: bool, b3: BitString,
      whole: nat, b4: BitString, fraction: nat, b5: BitString)
    requires ReadBool(b).Ok? && ReadBool(b).value == hasInt && ReadBool(ReadBool(b).rest) == Ok(hasFraction, b2)
    requires hasInt || hasFraction ==>
      && ReadBool(b2) == Ok(negative, b3)
      && (if hasInt then ReadUbit(14, b3) == Ok(whole, b4) else b4 == b3)
      && (if hasFraction then ReadUbit(5, b4) == Ok(fraction, b5) else b5 == b4 && fraction == 0)
    ensures ReadBitcoord(b) ==
      if !hasInt && !hasFraction then Ok(ZeroF, b2)
      else Ok(CoordF(negative, if hasInt then whole + 1 else 0, fraction), b5)
  {
    hide ReadUbit, ReadBool;
  }

  lemma NormalRoundTrip(f: Float, rest: BitString)
    requires FloatFits(Normal, 0, f)
    ensures ReadBitnormal([f.negative] + OfNat(f.fraction, 11) + rest) == Ok(f, rest)
  {
    Widths(11);
    var b := OfNat(f.fraction, 11) + rest;
    assert [f.negative] + OfNat(f.fraction, 11) + rest == [f.negative] + b;
    BoolRoundTrip(f.negative, b);
    UbitRoundTrip(f.fraction, 11, rest);
    hide OfNat, ReadUbit, Pow2, ReadBool;
  }

  /** A flag that the quantizer has, not set. */
  lemma FlagPassed(has: bool, rest: BitString)
    ensures ReadFlag(has, (if has then [false] else []) + rest) == Ok(false, rest)
  {
    BoolRoundTrip(false, rest);
    assert [] + rest == rest;
  }

  lemma QuantizedRoundTrip(q: Quantizer, f: Float, rest: BitString)
    requires QuantizedFits(q, f)
    ensures DecodeQuantized(q, EncQuantized(q, f) + rest) == Ok(f, rest)
  {
    hide OfNat, ReadUbit, Pow2, ReadBool, ReadFlag;
    var down, up, zero: BitString :=
      if q.roundDown then [false] else [], if q.roundUp then [false] else [], if q.zeroExactly then [false] else [];
    var b := EncQuantized(q, f) + rest;
    match f
    case LowF(_) => FlagSet(rest);
    case HighF(_) =>
      assert b == down + ([true] + rest);
      FlagPassed(q.roundDown, [true] + rest);
      FlagSet(rest);
    case ZeroF =>
      assert b == down + (up + ([true] + rest));
      FlagPassed(q.roundDown, up + ([true] + rest));
      FlagPassed(q.roundUp, [true] + rest);
      FlagSet(rest);
    case ScaledF(_, step) =>
      var bits := OfNat(step, q.bitCount) + rest;
      assert b == down + (up + (zero + bits));
      FlagPassed(q.roundDown, up + (zero + bits));
      FlagPassed(q.roundUp, zero + bits);
      FlagPassed(q.zeroExactly, bits);
      UbitRoundTrip(step, q.bitCount, rest);
  }

  lemma FlagSet(rest: BitString)
    ensures ReadFlag(true, [true] + rest) == Ok(true, rest)
  {
    BoolRoundTrip(true, rest);
  }

  lemma FloatRoundTrip(d: FloatDecoder, interval: nat, f: Float, rest: BitString)
    requires FloatFits(d, interval, f)
    ensures DecodeFloat(d, interval, EncFloat(d, interval, f) + rest) == Ok(f, rest)
  {
    Widths(32);
    hide EncGroups, ReadUvarint32, ReadBitcoord, EncCoord, ReadBitnormal, ReadUbit, OfNat, DecodeQuantized,
        EncQuantized, Pow2;
    match d
    case SimulationTime => Uvarint32RoundTrip(f.ticks, rest);
    case Coord => CoordRoundTrip(f, rest);
    case Normal => NormalRoundTrip(f, rest);
    case NoScale => UbitRoundTrip(f.bits, 32, rest);
    case Quantized(q) => QuantizedRoundTrip(q, f, rest);
  }

  // ---- several numbers

  predicate FloatsFit(d: FloatDecoder, interval: nat, fs: seq<Float>)
  {
    forall i | 0 <= i < |fs| :: FloatFits(d, interval, fs[i])
  }

  /** One after the other, in order. */
  function EncFloats(d: FloatDecoder, interval: nat, fs: seq<Float>): BitString
    requires FloatsFit(d, interval, fs)
  {
    if fs == [] then [] else EncFloat(d, interval, fs[0]) + EncFloats(d, interval, fs[1..])
  }

  lemma {:induction false} FloatsRoundTrip(d: FloatDecoder, interval: nat, fs: seq<Float>, rest: BitString)
    requires FloatsFit(d, interval, fs)
    ensures DecodeFloats(|fs|, d, interval, EncFloats(d, interval, fs) + rest) == Ok(fs, rest)
    decreases |fs|
  {
    hide EncFloat, DecodeFloat, FloatFits;
    if fs == [] {
      assert EncFloats(d, interval, fs) + rest == rest;
    } else {
      var more := EncFloats(d, interval, fs[1..]) + rest;
      assert EncFloats(d, interval, fs) + rest == EncFloat(d, interval, fs[0]) + more;
      FloatRoundTrip(d, interval, fs[0], more);
      FloatsRoundTrip(d, interval, fs[1..], rest);
      assert [fs[0]] + fs[1..] == fs;
    }
  }

  predicate AnglesFit(width: nat, fs: seq<Float>)
  {
    forall i | 0 <= i < |fs| :: fs[i].AngleF? && fs[i].width == width && fs[i].step < Pow2(width)
  }

  function EncAngles(width: nat, fs: seq<Float>): BitString
    requires AnglesFit(width, fs)
  {
    if fs == [] then [] else OfNat(fs[0].step, width) + EncAngles(width, fs[1..])
  }

  lemma {:induction false} AnglesRoundTrip(width: nat, fs: seq<Float>, rest: BitString)
    requires AnglesFit(width, fs)
    ensures ReadAngles(|fs|, width, EncAngles(width, fs) + rest) == Ok(fs, rest)
    decreases |fs|
  {
    hide OfNat, ReadUbit, Pow2;
    if fs == [] {
      assert EncAngles(width, fs) + rest == rest;
    } else {
      var more := EncAngles(width, fs[1..]) + rest;
      assert EncAngles(width, fs) + rest == OfNat(fs[0].step, width) + more;
      UbitRoundTrip(fs[0].step, width, more);
      AnglesRoundTrip(width, fs[1..], rest);
      assert [fs[0]] + fs[1..] == fs;
    }
  }

  // ---- vectors with flags

  /** A component that is left out when it is zero. */
  predicate CoordOrZero(f: Float) { FloatFits(Coord, 0, f) }

  predicate NormalOrZero(f: Float) { f.ZeroF? || FloatFits(Normal, 0, f) }

  predicate AngleOrZero(f: Float) { f.ZeroF? || (f.AngleF? && f.width == 20 && f.step < 1048576) }

  function IfCoord(f: Float): BitString
    requires CoordOrZero(f)
  {
    if f.ZeroF? then [] else EncCoord(f)
  }

  function IfNormal(f: Float): BitString
    requires NormalOrZero(f)
  {
    if f.ZeroF? then [] else [f.negative] + OfNat(f.fraction, 11)
  }

  function IfAngle(f: Float): BitString
    requires AngleOrZero(f)
  {
    if f.ZeroF? then [] else OfNat(f.step, 20)
  }

  lemma IfCoordRoundTrip(f: Float, rest: BitString)
    requires CoordOrZero(f)
    ensures ReadOptional(!f.ZeroF?, Coord, IfCoord(f) + rest) == Ok(f, rest)
  {
    hide ReadBitcoord, EncCoord;
    if f.ZeroF? {
      assert [] + rest == rest;
    } else {
      CoordRoundTrip(f, rest);
    }
  }

  lemma IfNormalRoundTrip(f: Float, rest: BitString)
    requires NormalOrZero(f)
    ensures ReadOptional(!f.ZeroF?, Normal, IfNormal(f) + rest) == Ok(f, rest)
  {
    hide ReadBitnormal, OfNat;
    if f.ZeroF? {
      assert [] + rest == rest;
    } else {
      NormalRoundTrip(f, rest);
    }
  }

  lemma IfAngleRoundTrip(f: Float, rest: BitString)
    requires AngleOrZero(f)
    ensures ReadAngleIf(!f.ZeroF?, 20, IfAngle(f) + rest) == Ok(f, rest)
  {
    Widths(20);
    hide OfNat, ReadUbit, Pow2;
    if f.ZeroF? {
      assert [] + rest == rest;
    } else {
      UbitRoundTrip(f.step, 20, rest);
    }
  }

  /** Three flags in order, then the components that are there, in order. */
  lemma CoordsRoundTrip(x: Float, y: Float, z: Float, rest: BitString)
    requires CoordOrZero(x) && CoordOrZero(y) && CoordOrZero(z)
    ensures ReadBitvec3coord([!x.ZeroF?, !y.ZeroF?, !z.ZeroF?] + (IfCoord(x) + (IfCoord(y) + (IfCoord(z) + rest))))
         == Ok([x, y, z], rest)
  {
    hide ReadBool, ReadOptional, IfCoord, CoordOrZero;
    var b2 := IfCoord(z) + rest;
    var b1 := IfCoord(y) + b2;
    var b0 := IfCoord(x) + b1;
    FlagsAreRead(!x.ZeroF?, !y.ZeroF?, !z.ZeroF?, b0);
    IfCoordRoundTrip(x, b1);
    IfCoordRoundTrip(y, b2);
    IfCoordRoundTrip(z, rest);
  }

  lemma PreciseRoundTrip(x: Float, y: Float, z: Float, rest: BitString)
    requires AngleOrZero(x) && AngleOrZero(y) && AngleOrZero(z)
    ensures ReadPrecise([!x.ZeroF?, !y.ZeroF?, !z.ZeroF?] + (IfAngle(x) + (IfAngle(y) + (IfAngle(z) + rest))))
         == Ok([x, y, z], rest)
  {
    hide ReadBool, ReadAngleIf, IfAngle, AngleOrZero;
    var b2 := IfAngle(z) + rest;
    var b1 := IfAngle(y) + b2;
    var b0 := IfAngle(x) + b1;
    FlagsAreRead(!x.ZeroF?, !y.ZeroF?, !z.ZeroF?, b0);
    IfAngleRoundTrip(x, b1);
    IfAngleRoundTrip(y, b2);
    IfAngleRoundTrip(z, rest);
  }

  lemma FlagsAreRead(x: bool, y: bool, z: bool, rest: BitString)
    ensures ReadBool([x, y, z] + rest) == Ok(x, [y, z] + rest) && ReadBool([y, z] + rest) == Ok(y, [z] + rest)
        && ReadBool([z] + rest) == Ok(z, rest)
  {
    assert [x, y, z] + rest == [x] + ([y, z] + rest) && [y, z] + rest == [y] + ([z] + rest);
    BoolRoundTrip(x, [y, z] + rest);
    BoolRoundTrip(y, [z] + rest);
    BoolRoundTrip(z, rest);
  }

  /** Two flags and components, then the sign of the third. */
  lemma NormalsRoundTrip(x: Float, y: Float, negative: bool, rest: BitString)
    requires NormalOrZero(x) && NormalOrZero(y)
    ensures ReadBitvec3normal([!x.ZeroF?, !y.ZeroF?] + (IfNormal(x) + (IfNormal(y) + ([negative] + rest))))
         == Ok([x, y, NormalZ(negative, x, y)], rest)
  {
    hide ReadBool, ReadOptional, IfNormal, NormalOrZero;
    var b2 := [negative] + rest;
    var b1 := IfNormal(y) + b2;
    var b0 := IfNormal(x) + b1;
    FlagsAreRead(false, !x.ZeroF?, !y.ZeroF?, b0);
    IfNormalRoundTrip(x, b1);
    IfNormalRoundTrip(y, b2);
    BoolRoundTrip(negative, rest);
  }

  // ---- eight bytes

  /** The lowest byte first. */
  function LowBytes(v: nat, n: nat): (r: Bytes)
    ensures |r| == n
  {
    if n == 0 then [] else [v % 256] + LowBytes(v / 256, n - 1)
  }

  lemma {:induction false} LowBytesBack(v: nat, n: nat)
    requires v < Pow2(8 * n)
    ensures LittleEndian(LowBytes(v, n)) == v
  {
    if n > 0 {
      var eight := 8;
      Pow2Add(8 * (n - 1), eight);
      Pow2Table(eight);
      LowBytesBack(v / 256, n - 1);
    }
  }

  // ---- a field

  predicate ValueFits(d: Decoder, interval: nat, v: FieldValue)
  {
    match d
    case Invalid => false
    case I64 => v.I64Value? && -0x8000_0000_0000_0000 <= v.i < 0x8000_0000_0000_0000
    case U64 => v.U64Value? && v.u < Prelude.U64
    case U64Fixed64 => v.U64Value? && v.u < Prelude.U64
    case Bool => v.BoolValue?
    case Str => v.StringValue? && 0 !in v.s
    case F32(f) => v.F32Value? && FloatFits(f, interval, v.f)
    case Vector2(f) => v.VectorValue? && |v.fs| == 2 && FloatsFit(f, interval, v.fs)
    case Vector3(f) => v.VectorValue? && |v.fs| == 3 && FloatsFit(f, interval, v.fs)
    case Vector3Normal =>
      && v.VectorValue? && |v.fs| == 3 && NormalOrZero(v.fs[0]) && NormalOrZero(v.fs[1])
      && v.fs[2].NormalZ? && v.fs[2].x == v.fs[0] && v.fs[2].y == v.fs[1]
    case Vector4(f) => v.VectorValue? && |v.fs| == 4 && FloatsFit(f, interval, v.fs)
    case QAnglePitchYaw(n) => v.QAngleValue? && |v.fs| == 3 && AnglesFit(n, v.fs[..2]) && v.fs[2] == ZeroF
    case QAngleNoBitCount => v.QAngleValue? && |v.fs| == 3 && CoordOrZero(v.fs[0]) && CoordOrZero(v.fs[1])
        && CoordOrZero(v.fs[2])
    case QAnglePrecise => v.QAngleValue? && |v.fs| == 3 && AngleOrZero(v.fs[0]) && AngleOrZero(v.fs[1])
        && AngleOrZero(v.fs[2])
    case QAngleBitCount(n) => v.QAngleValue? && |v.fs| == 3 && AnglesFit(n, v.fs)
  }

  function EncValue(d: Decoder, interval: nat, v: FieldValue): BitString
    requires ValueFits(d, interval, v)
  {
    match d
    case Invalid => []
    case I64 => EncGroups(if v.i >= 0 then 2 * v.i else -2 * v.i - 1)
    case U64 => EncGroups(v.u)
    case U64Fixed64 => EncBytes(LowBytes(v.u, 8))
    case Bool => [v.b]
    case Str => EncBytes(v.s + [0])
    case F32(f) => EncFloat(f, interval, v.f)
    case Vector2(f) => EncFloats(f, interval, v.fs)
    case Vector3(f) => EncFloats(f, interval, v.fs)
    case Vector3Normal =>
      [!v.fs[0].ZeroF?, !v.fs[1].ZeroF?] + (IfNormal(v.fs[0]) + (IfNormal(v.fs[1]) + [v.fs[2].negative]))
    case Vector4(f) => EncFloats(f, interval, v.fs)
    case QAnglePitchYaw(n) => EncAngles(n, v.fs[..2])
    case QAngleNoBitCount =>
      [!v.fs[0].ZeroF?, !v.fs[1].ZeroF?, !v.fs[2].ZeroF?]
      + (IfCoord(v.fs[0]) + (IfCoord(v.fs[1]) + IfCoord(v.fs[2])))
    case QAnglePrecise =>
      [!v.fs[0].ZeroF?, !v.fs[1].ZeroF?, !v.fs[2].ZeroF?]
      + (IfAngle(v.fs[0]) + (IfAngle(v.fs[1]) + IfAngle(v.fs[2])))
    case QAngleBitCount(n) => EncAngles(n, v.fs)
  }

  lemma NormalsValue(interval: nat, v: FieldValue, rest: BitString)
    requires ValueFits(Vector3Normal, interval, v)
    ensures Decode(Vector3Normal, interval, EncValue(Vector3Normal, interval, v) + rest) == Ok(v, rest)
  {
    hide IfNormal, IfCoord, IfAngle, ReadBitvec3normal, ReadBitvec3coord, ReadPrecise, NormalOrZero, CoordOrZero,
        AngleOrZero;
    var x, y, z := v.fs[0], v.fs[1], v.fs[2];
    NormalsRoundTrip(x, y, z.negative, rest);
    assert EncValue(Vector3Normal, interval, v) + rest
        == [!x.ZeroF?, !y.ZeroF?] + (IfNormal(x) + (IfNormal(y) + ([z.negative] + rest)));
    assert v.fs == [x, y, NormalZ(z.negative, x, y)];
  }

  lemma CoordsValue(interval: nat, v: FieldValue, rest: BitString)
    requires ValueFits(QAngleNoBitCount, interval, v)
    ensures Decode(QAngleNoBitCount, interval, EncValue(QAngleNoBitCount, interval, v) + rest) == Ok(v, rest)
  {
    hide IfNormal, IfCoord, IfAngle, ReadBitvec3normal, ReadBitvec3coord, ReadPrecise, NormalOrZero, CoordOrZero,
        AngleOrZero;
    var x, y, z := v.fs[0], v.fs[1], v.fs[2];
    CoordsRoundTrip(x, y, z, rest);
    assert EncValue(QAngleNoBitCount, interval, v) + rest
        == [!x.ZeroF?, !y.ZeroF?, !z.ZeroF?] + (IfCoord(x) + (IfCoord(y) + (IfCoord(z) + rest)));
    assert v.fs == [x, y, z];
  }

  lemma PreciseValue(interval: nat, v: FieldValue, rest: BitString)
    requires ValueFits(QAnglePrecise, interval, v)
    ensures Decode(QAnglePrecise, interval, EncValue(QAnglePrecise, interval, v) + rest) == Ok(v, rest)
  {
    hide IfNormal, IfCoord, IfAngle, ReadBitvec3normal, ReadBitvec3coord, ReadPrecise, NormalOrZero, CoordOrZero,
        AngleOrZero;
    var x, y, z := v.fs[0], v.fs[1], v.fs[2];
    PreciseRoundTrip(x, y, z, rest);
    assert EncValue(QAnglePrecise, interval, v) + rest
        == [!x.ZeroF?, !y.ZeroF?, !z.ZeroF?] + (IfAngle(x) + (IfAngle(y) + (IfAngle(z) + rest)));
    assert v.fs == [x, y, z];
  }

  /** Every value a decoder can give, written like this, is decoded to that value, and nothing beyond it is read. */
  lemma ValueRoundTrip(d: Decoder, interval: nat, v: FieldValue, rest: BitString)
    requires ValueFits(d, interval, v)
    ensures Decode(d, interval, EncValue(d, interval, v) + rest) == Ok(v, rest)
  {
    hide EncGroups, ReadUvarint64, ReadVarint64, ReadText, EncBytes, ReadBytes, LowBytes, LittleEndian, EncFloat,
        EncFloats, DecodeFloat, DecodeFloats, EncAngles, ReadAngles, IfNormal, IfCoord, IfAngle, ReadBitvec3normal,
        ReadBitvec3coord, ReadPrecise, Pow2;
    var b := EncValue(d, interval, v) + rest;
    match d
    case I64 => SignedIsRead(v.i, rest);
    case U64 => Uvarint64RoundTrip(v.u, rest);
    case U64Fixed64 =>
      FxHash.Pow64();
      LowBytesBack(v.u, 8);
      BytesRoundTrip(LowBytes(v.u, 8), rest);
    case Bool => BoolRoundTrip(v.b, rest);
    case Str => TextRoundTrip(false, v.s, 0, rest);
    case F32(f) => FloatRoundTrip(f, interval, v.f, rest);
    case Vector2(f) => FloatsRoundTrip(f, interval, v.fs, rest);
    case Vector3(f) => FloatsRoundTrip(f, interval, v.fs, rest);
    case Vector3Normal => NormalsValue(interval, v, rest);
    case Vector4(f) => FloatsRoundTrip(f, interval, v.fs, rest);
    case QAnglePitchYaw(n) =>
      AnglesRoundTrip(n, v.fs[..2], rest);
      assert v.fs[..2] + [ZeroF] == v.fs;
    case QAngleNoBitCount => CoordsValue(interval, v, rest);
    case QAnglePrecise => PreciseValue(interval, v, rest);
    case QAngleBitCount(n) => AnglesRoundTrip(n, v.fs, rest);
  }

  lemma SignedIsRead(v: int, rest: BitString)
    requires -0x8000_0000_0000_0000 <= v < 0x8000_0000_0000_0000
    ensures ReadVarint64(EncGroups(if v >= 0 then 2 * v else -2 * v - 1) + rest) == Ok(v, rest)
  {
    hide EncGroups, ReadUvarint64;
    Uvarint64RoundTrip(if v >= 0 then 2 * v else -2 * v - 1, rest);
  }
}
