/** The decoders as code that moves a reader, each proved to read what `FieldDecoders` says. */
module FieldReading {
  import opened Prelude
  import B = Bits
  import opened BitReaders
  import opened FieldDecoders

  method ReadBitcoordFrom(br: BitReader) returns (r: Option<Float>)
    modifies br
    ensures br.Did(r, ReadBitcoord(old(br.unread)))
    ensures |br.unread| <= old(|br.unread|)
  {
    r := None;
    var hasInt := br.ReadBool();
    if hasInt.None? { return; }
    var hasFraction := br.ReadBool();
    if hasFraction.None? { return; }
    if !hasInt.value && !hasFraction.value { return Some(ZeroF); }
    var sign := br.ReadBool();
    if sign.None? { return; }
    var intval := 0;
    if hasInt.value {
      var v := br.ReadUbit(14);
      if v.None? { return; }
      intval := v.value + 1;
    }
    var fraction := 0;
    if hasFraction.value {
      var v := br.ReadUbit(5);
      if v.None? { return; }
      fraction := v.value;
    }
    r := Some(CoordF(sign.value, intval, fraction));
  }

  method ReadBitnormalFrom(br: BitReader) returns (r: Option<Float>)
    modifies br
    ensures br.Did(r, ReadBitnormal(old(br.unread)))
    ensures |br.unread| <= old(|br.unread|)
  {
    r := None;
    var sign := br.ReadBool();
    if sign.None? { return; }
    var fraction := br.ReadUbit(11);
    if fraction.None? { return; }
    r := Some(NormalF(sign.value, fraction.value));
  }

  method ReadOptionalFrom(present: bool, f: FloatDecoder, br: BitReader) returns (r: Option<Float>)
    modifies br
    ensures br.Did(r, ReadOptional(present, f, old(br.unread)))
    ensures |br.unread| <= old(|br.unread|)
  {
    if present {
      r := DecodeFloatFrom(f, 0, br);
    } else {
      r := Some(ZeroF);
    }
  }

  method ReadBitvec3coordFrom(br: BitReader) returns (r: Option<seq<Float>>)
    modifies br
    ensures br.Did(r, ReadBitvec3coord(old(br.unread)))
    ensures |br.unread| <= old(|br.unread|)
  {
    hide ReadOptional, B.ReadBool;
    r := None;
    var x := br.ReadBool();
    if x.None? { return; }
    var y := br.ReadBool();
    if y.None? { return; }
    var z := br.ReadBool();
    if z.None? { return; }
    var fx := ReadOptionalFrom(x.value, Coord, br);
    if fx.None? { return; }
    var fy := ReadOptionalFrom(y.value, Coord, br);
    if fy.None? { return; }
    var fz := ReadOptionalFrom(z.value, Coord, br);
    if fz.None? { return; }
    r := Some([fx.value, fy.value, fz.value]);
  }

  method ReadBitvec3normalFrom(br: BitReader) returns (r: Option<seq<Float>>)
    modifies br
    ensures br.Did(r, ReadBitvec3normal(old(br.unread)))
    ensures |br.unread| <= old(|br.unread|)
  {
    hide ReadOptional, B.ReadBool;
    r := None;
    var x := br.ReadBool();
    if x.None? { return; }
    var y := br.ReadBool();
    if y.None? { return; }
    var fx := ReadOptionalFrom(x.value, Normal, br);
    if fx.None? { return; }
    var fy := ReadOptionalFrom(y.value, Normal, br);
    if fy.None? { return; }
    var negative := br.ReadBool();
    if negative.None? { return; }
    r := Some([fx.value, fy.value, NormalZ(negative.value, fx.value, fy.value)]);
  }

  method ReadFlagFrom(has: bool, br: BitReader) returns (r: Option<bool>)
    modifies br
    ensures br.Did(r, ReadFlag(has, old(br.unread)))
    ensures |br.unread| <= old(|br.unread|)
  {
    if has {
      r := br.ReadBool();
    } else {
      r := Some(false);
    }
  }

  method DecodeQuantizedFrom(q: Quantizer, br: BitReader) returns (r: Option<Float>)
    modifies br
    ensures br.Did(r, DecodeQuantized(q, old(br.unread)))
    ensures |br.unread| <= old(|br.unread|)
  {
    hide ReadFlag, B.ReadUbit;
    r := None;
    var low := ReadFlagFrom(q.roundDown, br);
    if low.None? { return; }
    if low.value { return Some(LowF(q)); }
    var high := ReadFlagFrom(q.roundUp, br);
    if high.None? { return; }
    if high.value { return Some(HighF(q)); }
    var zero := ReadFlagFrom(q.zeroExactly, br);
    if zero.None? { return; }
    if zero.value { return Some(ZeroF); }
    var step := br.ReadUbit(q.bitCount);
    if step.None? { return; }
    r := Some(ScaledF(q, step.value));
  }

  method DecodeFloatFrom(f: FloatDecoder, interval: nat, br: BitReader) returns (r: Option<Float>)
    modifies br
    ensures br.Did(r, DecodeFloat(f, interval, old(br.unread)))
    ensures |br.unread| <= old(|br.unread|)
  {
    match f
    case SimulationTime =>
      var ticks := br.ReadUvarint32();
      r := if ticks.None? then None else Some(TimeF(ticks.value, interval));
    case Coord => r := ReadBitcoordFrom(br);
    case Normal => r := ReadBitnormalFrom(br);
    case NoScale =>
      var bits := br.ReadUbit(32);
      r := if bits.None? then None else Some(RawF(bits.value));
    case Quantized(q) => r := DecodeQuantizedFrom(q, br);
  }

  /** The `n` components of a vector, one after the other. */
  method DecodeFloatsFrom(n: nat, f: FloatDecoder, interval: nat, br: BitReader) returns (r: Option<seq<Float>>)
    modifies br
    ensures br.Did(r, DecodeFloats(n, f, interval, old(br.unread)))
    ensures |br.unread| <= old(|br.unread|)
    decreases n
  {
    hide DecodeFloat;
    if n == 0 { return Some([]); }
    var x := DecodeFloatFrom(f, interval, br);
    if x.None? { return None; }
    var xs := DecodeFloatsFrom(n - 1, f, interval, br);
    r := if xs.None? then None else Some([x.value] + xs.value);
  }

  method ReadAnglesFrom(n: nat, width: nat, br: BitReader) returns (r: Option<seq<Float>>)
    modifies br
    ensures br.Did(r, ReadAngles(n, width, old(br.unread)))
    ensures |br.unread| <= old(|br.unread|)
    decreases n
  {
    if n == 0 { return Some([]); }
    var step := br.ReadUbit(width);
    if step.None? { return None; }
    var xs := ReadAnglesFrom(n - 1, width, br);
    r := if xs.None? then None else Some([AngleF(width, step.value)] + xs.value);
  }

  method ReadAngleIfFrom(present: bool, width: nat, br: BitReader) returns (r: Option<Float>)
    modifies br
    ensures br.Did(r, ReadAngleIf(present, width, old(br.unread)))
    ensures |br.unread| <= old(|br.unread|)
  {
    if !present { return Some(ZeroF); }
    var step := br.ReadUbit(width);
    r := if step.None? then None else Some(AngleF(width, step.value));
  }

  method ReadPreciseFrom(br: BitReader) returns (r: Option<seq<Float>>)
    modifies br
    ensures br.Did(r, ReadPrecise(old(br.unread)))
    ensures |br.unread| <= old(|br.unread|)
  {
    hide ReadAngleIf, B.ReadBool;
    r := None;
    var x := br.ReadBool();
    if x.None? { return; }
    var y := br.ReadBool();
    if y.None? { return; }
    var z := br.ReadBool();
    if z.None? { return; }
    var fx := ReadAngleIfFrom(x.value, 20, br);
    if fx.None? { return; }
    var fy := ReadAngleIfFrom(y.value, 20, br);
    if fy.None? { return; }
    var fz := ReadAngleIfFrom(z.value, 20, br);
    if fz.None? { return; }
    r := Some([fx.value, fy.value, fz.value]);
  }

  method DecodeFrom(d: Decoder, interval: nat, br: BitReader) returns (r: Option<FieldValue>)
    modifies br
    ensures br.Did(r, Decode(d, interval, old(br.unread)))
    ensures |br.unread| <= old(|br.unread|)
  {
    hide DecodeFloat, DecodeFloats, ReadAngles, ReadPrecise, ReadBitvec3coord, ReadBitvec3normal, LittleEndian,
      B.ReadVarint64, B.ReadUvarint64, B.ReadBytes, B.ReadBool, B.ReadText;
    match d
    case Invalid => r := None;
    case I64 => var v := br.ReadVarint64(); r := if v.None? then None else Some(I64Value(v.value));
    case U64 => var v := br.ReadUvarint64(); r := if v.None? then None else Some(U64Value(v.value));
    case U64Fixed64 => var v := br.ReadBytes(8); r := if v.None? then None else Some(U64Value(LittleEndian(v.value)));
    case Bool => var v := br.ReadBool(); r := if v.None? then None else Some(BoolValue(v.value));
    case Str => var v := br.ReadStringToEnd(false); r := if v.None? then None else Some(StringValue(v.value));
    case F32(f) => var v := DecodeFloatFrom(f, interval, br); r := if v.None? then None else Some(F32Value(v.value));
    case Vector2(f) =>
      var v := DecodeFloatsFrom(2, f, interval, br);
      r := if v.None? then None else Some(VectorValue(v.value));
    case Vector3(f) =>
      var v := DecodeFloatsFrom(3, f, interval, br);
      r := if v.None? then None else Some(VectorValue(v.value));
    case Vector3Normal => var v := ReadBitvec3normalFrom(br); r := if v.None? then None else Some(VectorValue(v.value));
    case Vector4(f) =>
      var v := DecodeFloatsFrom(4, f, interval, br);
      r := if v.None? then None else Some(VectorValue(v.value));
    case QAnglePitchYaw(n) =>
      var v := ReadAnglesFrom(2, n, br);
      r := if v.None? then None else Some(QAngleValue(v.value + [ZeroF]));
    case QAngleNoBitCount => var v := ReadBitvec3coordFrom(br); r := if v.None? then None
        else Some(QAngleValue(v.value));
    case QAnglePrecise => var v := ReadPreciseFrom(br); r := if v.None? then None else Some(QAngleValue(v.value));
    case QAngleBitCount(n) => var v := ReadAnglesFrom(3, n, br); r := if v.None? then None
        else Some(QAngleValue(v.value));
  }

  // ---- skip_bits

  method PassBits(n: nat, br: BitReader) returns (r: Option<int>)
    modifies br
    ensures br.Did(r, Passed(n, old(br.unread)))
    ensures |br.unread| <= old(|br.unread|)
  {
    var s := br.SkipBits(n);
    r := if s.None? then None else Some(n);
  }

  method SkipQuantizedIn(q: Quantizer, br: BitReader) returns (r: Option<int>)
    modifies br
    ensures br.Did(r, SkipQuantized(q, old(br.unread)))
    ensures |br.unread| <= old(|br.unread|)
  {
    hide ReadFlag;
    r := None;
    var bitsRead := 0;
    if q.roundDown { bitsRead := bitsRead + 1; }
    var flag := ReadFlagFrom(q.roundDown, br);
    if flag.None? { return; }
    if flag.value { return Some(bitsRead); }
    if q.roundUp { bitsRead := bitsRead + 1; }
    flag := ReadFlagFrom(q.roundUp, br);
    if flag.None? { return; }
    if flag.value { return Some(bitsRead); }
    if q.zeroExactly { bitsRead := bitsRead + 1; }
    flag := ReadFlagFrom(q.zeroExactly, br);
    if flag.None? { return; }
    if flag.value { return Some(bitsRead); }
    var s := br.SkipBits(q.bitCount);
    if s.None? { return; }
    r := Some(bitsRead + q.bitCount);
  }

  method SkipFloatIn(f: FloatDecoder, br: BitReader) returns (r: Option<int>)
    requires br.Valid()
    modifies br
    ensures br.Did(r, SkipFloat(f, old(br.unread)))
    ensures |br.unread| <= old(|br.unread|)
  {
    hide B.ReadUvarint32, ReadBitcoord, SkipQuantized, Passed;
    var start := br.NumBitsRead();
    match f
    case SimulationTime => var v := br.ReadUvarint32(); r := if v.None? then None else Some(br.NumBitsRead() - start);
    case Coord => var v := ReadBitcoordFrom(br); r := if v.None? then None else Some(br.NumBitsRead() - start);
    case Normal => r := PassBits(12, br);
    case NoScale => r := PassBits(32, br);
    case Quantized(q) => r := SkipQuantizedIn(q, br);
  }

  method SkipFloatsIn(n: nat, f: FloatDecoder, br: BitReader) returns (r: Option<int>)
    requires br.Valid()
    modifies br
    ensures br.Did(r, SkipFloats(n, f, old(br.unread)))
    ensures |br.unread| <= old(|br.unread|)
    decreases n
  {
    hide SkipFloat;
    if n == 0 { return Some(0); }
    var k := SkipFloatIn(f, br);
    if k.None? { return None; }
    var ks := SkipFloatsIn(n - 1, f, br);
    r := if ks.None? then None else Some(k.value + ks.value);
  }

  /** Reads bytes up to and including a NUL, keeping none. */
  method SkipStringIn(br: BitReader) returns (r: Option<int>)
    requires br.Valid()
    modifies br
    ensures br.Did(r, Measured(B.ReadCString(old(br.unread)), old(br.unread)))
    ensures |br.unread| <= old(|br.unread|)
  {
    var start := br.NumBitsRead();
    ghost var from, seen: Bytes := br.unread, [];
    B.InTextStart(false, from);
    while true
      invariant br.Valid() && |br.unread| <= |from|
      invariant B.InText(false, from, seen, br.unread)
      decreases |br.unread|
    {
      B.InTextNext(false, from, seen, br.unread);
      var val := br.ReadByte();
      if val.None? { return None; }
      if val.value == 0 { break; }
      seen := seen + [val.value];
    }
    r := Some(br.NumBitsRead() - start);
  }

  method SkipPreciseIn(br: BitReader) returns (r: Option<int>)
    modifies br
    ensures br.Did(r, SkipPrecise(old(br.unread)))
    ensures |br.unread| <= old(|br.unread|)
  {
    r := None;
    var x := br.ReadBool();
    if x.None? { return; }
    var y := br.ReadBool();
    if y.None? { return; }
    var z := br.ReadBool();
    if z.None? { return; }
    var valueBits := 20 * ((if x.value then 1 else 0) + (if y.value then 1 else 0) + (if z.value then 1 else 0));
    var s := br.SkipBits(valueBits);
    r := if s.None? then None else Some(3 + valueBits);
  }

  method SkipIn(d: Decoder, br: BitReader) returns (r: Option<int>)
    requires br.Valid()
    modifies br
    ensures br.Did(r, SkipBitsOf(d, old(br.unread)))
    ensures |br.unread| <= old(|br.unread|)
  {
    hide SkipFloat, SkipFloats, SkipPrecise, Passed, ReadBitvec3coord, ReadBitvec3normal,
      B.ReadVarint64, B.ReadUvarint64, B.ReadText;
    var start := br.NumBitsRead();
    match d
    case Invalid => r := None;
    case I64 => var v := br.ReadVarint64(); r := if v.None? then None else Some(br.NumBitsRead() - start);
    case U64 => var v := br.ReadUvarint64(); r := if v.None? then None else Some(br.NumBitsRead() - start);
    case U64Fixed64 => r := PassBits(64, br);
    case Bool => r := PassBits(1, br);
    case Str => r := SkipStringIn(br);
    case F32(f) => r := SkipFloatIn(f, br);
    case Vector2(f) => r := SkipFloatsIn(2, f, br);
    case Vector3(f) => r := SkipFloatsIn(3, f, br);
    case Vector3Normal =>
      var v := ReadBitvec3normalFrom(br);
      r := if v.None? then None else Some(br.NumBitsRead() - start);
    case Vector4(f) => r := SkipFloatsIn(4, f, br);
    case QAnglePitchYaw(n) => r := PassBits(n * 2, br);
    case QAngleNoBitCount =>
      var v := ReadBitvec3coordFrom(br);
      r := if v.None? then None else Some(br.NumBitsRead() - start);
    case QAnglePrecise => r := SkipPreciseIn(br);
    case QAngleBitCount(n) => r := PassBits(n * 3, br);
  }
}
