/** The messages packed into the bits of a packet. */
module PacketFraming {
  import opened Prelude
  import opened Bits
  import opened BitReaders

  const RECORD_BUFFER_SIZE: nat := 2 * 1024 * 1024

  /** A packet ends when no more than these bits are left: they may be padding. */
  const PADDING: nat := 8

  datatype Framed = Framed(kind: nat, payload: Bytes)

  function ReadFramed(b: BitString): (r: Read<Framed>)
    ensures r.Ok? ==> |r.rest| < |b|
  {
    var (kind, b1) :- ReadUbitvar(b);
    var (size, b2) :- ReadUvarint32(b1);
    if size > RECORD_BUFFER_SIZE then Fail
    else
      var (payload, b3) :- ReadBytes(size, b2);
      RestShrinks(b1);
      BytesShrink(size, b2);
      Ok(Framed(kind, payload), b3)
  }

  lemma RestShrinks(b: BitString)
    ensures ReadUvarint32(b).Ok? ==> |ReadUvarint32(b).rest| <= |b|
  {
  }

  lemma {:induction false} BytesShrink(n: nat, b: BitString)
    ensures ReadBytes(n, b).Ok? ==> |ReadBytes(n, b).rest| <= |b|
  {
  }

  function ReadPacket(b: BitString): Read<seq<Framed>>
    decreases |b|
  {
    if |b| <= PADDING then Ok([], b) else
    var (m, b1) :- ReadFramed(b);
    var (ms, b2) :- ReadPacket(b1);
    Ok([m] + ms, b2)
  }

  // ---- packing

  predicate Packable(m: Framed)
  {
    m.kind < U32 && |m.payload| <= 2097152
  }

  function EncFramed(m: Framed): BitString
  {
    EncUbitvar(m.kind) + (EncGroups(|m.payload|) + EncBytes(m.payload))
  }

  function EncPacket(ms: seq<Framed>): BitString
  {
    if ms == [] then [] else EncFramed(ms[0]) + EncPacket(ms[1..])
  }

  lemma FramedRoundTrip(m: Framed, rest: BitString)
    requires Packable(m)
    ensures ReadFramed(EncFramed(m) + rest) == Ok(m, rest)
  {
    hide ReadUbitvar, EncUbitvar, ReadUvarint32, EncGroups, ReadBytes, EncBytes;
    var body := EncBytes(m.payload) + rest;
    assert EncFramed(m) + rest == EncUbitvar(m.kind) + (EncGroups(|m.payload|) + body);
    UbitvarRoundTrip(m.kind, EncGroups(|m.payload|) + body);
    Uvarint32RoundTrip(|m.payload|, body);
    BytesRoundTrip(m.payload, rest);
  }

  /** The shortest message is longer than the padding. */
  lemma FramedIsLong(m: Framed)
    ensures |EncFramed(m)| > 8
  {
  }

  /** Packing any messages, padding with up to a byte, and reading the packet gives the messages back
      and leaves the padding: the padding is never taken for a message, and no message for padding. */
  lemma {:induction false} PacketRoundTrip(ms: seq<Framed>, padding: BitString)
    requires |padding| <= 8 && forall i | 0 <= i < |ms| :: Packable(ms[i])
    ensures ReadPacket(EncPacket(ms) + padding) == Ok(ms, padding)
    decreases |ms|
  {
    hide ReadFramed, EncFramed;
    if ms == [] {
      assert EncPacket(ms) + padding == padding;
    } else {
      var later := EncPacket(ms[1..]) + padding;
      assert EncPacket(ms) + padding == EncFramed(ms[0]) + later;
      FramedRoundTrip(ms[0], later);
      FramedIsLong(ms[0]);
      PacketRoundTrip(ms[1..], padding);
      assert [ms[0]] + ms[1..] == ms;
    }
  }

  /** More than a byte that is too short for any message is no padding: the packet fails. */
  lemma NineBitsFail(b: BitString)
    requires 9 <= |b| <= 13
    ensures ReadPacket(b).Fail? && ReadFramed(b).Fail?
  {
  }

  /** A message too large for the record buffer fails, whatever follows. */
  lemma LargeMessageFails(m: Framed, rest: BitString)
    requires m.kind < U32 && 2097152 < |m.payload| < U32
    ensures ReadFramed(EncFramed(m) + rest).Fail?
  {
    hide ReadUbitvar, EncUbitvar, ReadUvarint32, EncGroups, ReadBytes, EncBytes;
    var body := EncBytes(m.payload) + rest;
    assert EncFramed(m) + rest == EncUbitvar(m.kind) + (EncGroups(|m.payload|) + body);
    UbitvarRoundTrip(m.kind, EncGroups(|m.payload|) + body);
    Uvarint32RoundTrip(|m.payload|, body);
  }

  // ---- reading

  method ReadFramedFrom(br: BitReader) returns (r: Option<Framed>)
    modifies br
    ensures br.Did(r, ReadFramed(old(br.unread)))
    ensures r.Some? ==> |br.unread| < old(|br.unread|)
  {
    hide ReadUbitvar, ReadUvarint32, ReadBytes;
    var kind := br.ReadUbitvar();
    if kind.None? { return None; }
    var size := br.ReadUvarint32();
    if size.None? || size.value > RECORD_BUFFER_SIZE { return None; }
    var payload := br.ReadBytes(size.value);
    if payload.None? { return None; }
    r := Some(Framed(kind.value, payload.value));
  }
}
