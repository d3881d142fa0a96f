/** Commands as the stream gives them: packets are still bits, and what they hold is decoded message by
    message while it is handled. */
module RawCommands {
  import opened Prelude
  import opened Bits
  import opened StringTables
  import opened PacketFraming
  import opened Player

  type NoPacket = b: Body | !b.Packet? && !b.SignonPacket? && !b.FullPacket?
    witness SyncTick

  datatype RawBody =
    | RawPacket(data: BitString)
    | RawSignon(data: BitString)
    | RawFull(snapshots: Option<seq<Snapshot>>, packet: Option<BitString>)
    | RawOther(body: NoPacket)

  datatype RawCommand = RawCommand(tick: int, body: RawBody)

  /** What a framed message means. */
  type Decode = Framed -> Message

  /** The messages of a packet; where its bits frame none the last one says so. */
  function MessagesOf(decode: Decode, b: BitString): seq<Message>
    decreases |b|
  {
    if |b| <= PADDING then [] else
    match ReadFramed(b)
    case Ok(m, rest) => [decode(m)] + MessagesOf(decode, rest)
    case Fail => [Unframed]
  }

  function DecodedBody(decode: Decode, body: RawBody): Body
  {
    match body
    case RawPacket(data) => Packet(MessagesOf(decode, data))
    case RawSignon(data) => SignonPacket(MessagesOf(decode, data))
    case RawFull(snapshots, packet) =>
      FullPacket(snapshots, if packet.Some? then Some(MessagesOf(decode, packet.value)) else None)
    case RawOther(other) => other
  }

  function Decoded(decode: Decode, cmd: RawCommand): Command
  {
    Command(cmd.tick, DecodedBody(decode, cmd.body))
  }

  function DecodedAll(decode: Decode, cmds: seq<RawCommand>): (r: seq<Command>)
    ensures |r| == |cmds| && forall i | 0 <= i < |cmds| :: r[i] == Decoded(decode, cmds[i])
  {
    seq(|cmds|, i requires 0 <= i < |cmds| => Decoded(decode, cmds[i]))
  }

  /** A packet that reads as a whole holds its messages decoded one by one; of any other the messages that could
      be framed come first, and then the failure. */
  lemma {:induction false} MessagesOfPacket(decode: Decode, b: BitString)
    ensures var ms := MessagesOf(decode, b);
      match ReadPacket(b)
      case Ok(framed, _) => |ms| == |framed| && forall i | 0 <= i < |ms| :: ms[i] == decode(framed[i])
      case Fail => ms != [] && ms[|ms| - 1] == Unframed
    decreases |b|
  {
    hide ReadFramed;
    if |b| > PADDING && ReadFramed(b).Ok? {
      MessagesOfPacket(decode, ReadFramed(b).rest);
    }
  }

  /** Packing messages, with any padding of up to a byte, and decoding the packet gives their meanings. */
  lemma MessagesOfPacked(decode: Decode, framed: seq<Framed>, padding: BitString)
    requires |padding| <= 8 && forall i | 0 <= i < |framed| :: Packable(framed[i])
    ensures MessagesOf(decode, EncPacket(framed) + padding)
         == seq(|framed|, i requires 0 <= i < |framed| => decode(framed[i]))
  {
    hide MessagesOf, ReadPacket;
    PacketRoundTrip(framed, padding);
    MessagesOfPacket(decode, EncPacket(framed) + padding);
  }
}
