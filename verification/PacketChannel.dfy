/** Demo bytes arriving in chunks: command headers and bodies as functions of the unread bytes. */
module PacketChannels {
  import opened Prelude

  const DEMO_HEADER_SIZE: nat := 16
  const MAX_CMD_HEADER_SIZE: nat := 15
  const DEM_IS_COMPRESSED: nat := 64

  datatype CmdHeader = CmdHeader(cmd: int, bodyCompressed: bool, tick: int, bodySize: nat, size: nat)

  datatype Error = Eof | VarintTooLarge | UnknownCmd | Undecompressable

  /** What a read gives, and how many bytes it takes from the front. */
  datatype Taken<+T> = Got(value: T, taken: nat) | Bad(error: Error, taken: nat)

  type Unsnap = Bytes -> Option<Bytes>

  // ---- varints

  /** The value of a varint whose first `k` bytes were read: seven bits a byte, low ones first; bits
      beyond the 32nd are lost. */
  function VarintFrom(u: Bytes, k: nat): (r: Taken<nat>)
    ensures r.taken <= |u|
    ensures r.Got? ==> 1 <= r.taken
    decreases |u|
  {
    if u == [] then Bad(Eof, 0)
    else
      var part := u[0] % 128 * Pow2(7 * k) % U32;
      if u[0] < 128 then Got(part, 1)
      else if 7 * (k + 1) >= 32 then Bad(VarintTooLarge, 1)
      else
        match VarintFrom(u[1..], k + 1)
        case Got(v, n) => Got(part + v, n + 1)
        case Bad(e, n) => Bad(e, n + 1)
  }

  lemma {:induction false} VarintFits(u: Bytes, k: nat)
    requires k < 5
    ensures VarintFrom(u, k).taken <= 5 - k
    ensures |u| >= 5 - k ==> VarintFrom(u, k) != Bad(Eof, VarintFrom(u, k).taken)
    decreases |u|
  {
    if u != [] && u[0] >= 128 && k < 4 {
      VarintFits(u[1..], k + 1);
    }
  }

  /** More bytes behind do not matter once there are enough. */
  lemma {:induction false} VarintPrefix(u: Bytes, more: Bytes, k: nat)
    requires k < 5 && |u| >= 5 - k
    ensures VarintFrom(u + more, k) == VarintFrom(u, k)
    decreases |u|
  {
    assert (u + more)[1..] == u[1..] + more;
    if u[0] >= 128 && k < 4 {
      VarintPrefix(u[1..], more, k + 1);
    }
  }

  // ---- command headers

  function IsCompressed(raw: nat): bool
  {
    raw / DEM_IS_COMPRESSED % 2 == 1
  }

  function CmdOf(raw: nat): int
  {
    ToI32(if IsCompressed(raw) then raw - DEM_IS_COMPRESSED else raw)
  }

  /** The header at the front of the bytes, as the whole-file reader takes it. */
  function ParseHeader(known: int -> bool, u: Bytes): (r: Taken<CmdHeader>)
    ensures r.taken <= |u|
    ensures r.Got? ==> 3 <= r.taken == r.value.size
  {
    match VarintFrom(u, 0)
    case Bad(e, n) => Bad(e, n)
    case Got(raw, n) =>
      if !known(CmdOf(raw)) then Bad(UnknownCmd, n) else
      match VarintFrom(u[n..], 0)
      case Bad(e, m) => Bad(e, n + m)
      case Got(tick, m) =>
        match VarintFrom(u[n + m..], 0)
        case Bad(e, l) => Bad(e, n + m + l)
        case Got(size, l) => Got(CmdHeader(CmdOf(raw), IsCompressed(raw), ToI32(tick), size, n + m + l), n + m + l)
  }

  /** With fifteen bytes the three varints never run out, and what follows does not matter. */
  lemma HeaderFits(known: int -> bool, u: Bytes, more: Bytes)
    requires |u| >= MAX_CMD_HEADER_SIZE
    ensures ParseHeader(known, u) != Bad(Eof, ParseHeader(known, u).taken)
    ensures ParseHeader(known, u).taken <= MAX_CMD_HEADER_SIZE
    ensures ParseHeader(known, u + more) == ParseHeader(known, u)
  {
    hide VarintFrom;
    VarintFits(u, 0);
    VarintPrefix(u, more, 0);
    var n := VarintFrom(u, 0).taken;
    assert (u + more)[n..] == u[n..] + more;
    VarintFits(u[n..], 0);
    VarintPrefix(u[n..], more, 0);
    var m := VarintFrom(u[n..], 0).taken;
    assert (u + more)[n + m..] == u[n + m..] + more;
    VarintFits(u[n + m..], 0);
    VarintPrefix(u[n + m..], more, 0);
  }

  // ---- the stream as a function of what is unread

  /** `unread` is everything that is still to come, however it is split. */
  datatype Stream = Stream(headerSkipped: bool, unread: Bytes)

  datatype Read<+T> = Read(result: Taken<T>, stream: Stream)

  /** The demo file header is skipped once; then fifteen bytes must be there before anything is read. */
  function ReadCmdHeader(known: int -> bool, s: Stream): Read<CmdHeader>
  {
    if !s.headerSkipped && |s.unread| < DEMO_HEADER_SIZE then Read(Bad(Eof, 0), s)
    else
      var u := if s.headerSkipped then s.unread else s.unread[DEMO_HEADER_SIZE..];
      if |u| < MAX_CMD_HEADER_SIZE then Read(Bad(Eof, 0), Stream(true, u))
      else
        var r := ParseHeader(known, u);
        Read(r, Stream(true, u[r.taken..]))
  }

  function ReadCmd(unsnap: Unsnap, h: CmdHeader, s: Stream): Read<Bytes>
  {
    if |s.unread| < h.bodySize then Read(Bad(Eof, 0), s)
    else
      var body, rest := s.unread[..h.bodySize], s.(unread := s.unread[h.bodySize..]);
      if !h.bodyCompressed then Read(Got(body, h.bodySize), rest)
      else if unsnap(body).None? then Read(Bad(Undecompressable, h.bodySize), rest)
      else Read(Got(unsnap(body).value, h.bodySize), rest)
  }

  datatype Cmd = Cmd(header: CmdHeader, body: Bytes)

  /** All commands up to the first failure, and that failure. */
  datatype Played = Played(cmds: seq<Cmd>, error: Error)

  function Play(known: int -> bool, unsnap: Unsnap, s: Stream): Played
    decreases |s.unread|
  {
    var h := ReadCmdHeader(known, s);
    if h.result.Bad? then Played([], h.result.error)
    else
      var b := ReadCmd(unsnap, h.result.value, h.stream);
      if b.result.Bad? then Played([], b.result.error)
      else
        var later := Play(known, unsnap, b.stream);
        Played([Cmd(h.result.value, b.result.value)] + later.cmds, later.error)
  }

  // ---- the whole-file reader

  /** Commands read from a whole file, past its header: no lookahead is asked for. */
  function PlayFile(known: int -> bool, unsnap: Unsnap, u: Bytes): Played
    decreases |u|
  {
    var h := ParseHeader(known, u);
    if h.Bad? then Played([], h.error)
    else
      var b := ReadCmd(unsnap, h.value, Stream(true, u[h.taken..]));
      if b.result.Bad? then Played([], b.result.error)
      else
        var later := PlayFile(known, unsnap, b.stream.unread);
        Played([Cmd(h.value, b.result.value)] + later.cmds, later.error)
  }

  /** At a header, both readers agree exactly when fifteen bytes remain or the file has no header there
      either for want of bytes. */
  lemma HeaderAgreesIff(known: int -> bool, u: Bytes)
    ensures var chunked, file := ReadCmdHeader(known, Stream(true, u)).result, ParseHeader(known, u);
      (chunked.Got? == file.Got? && (chunked.Bad? ==> chunked.error == file.error)
          && (chunked.Got? ==> chunked == file))
      <==> |u| >= MAX_CMD_HEADER_SIZE || file == Bad(Eof, file.taken)
  {
  }

  /** Fewer than fifteen bytes remain only where the file ends in the middle of a command. */
  predicate RoomAtHeaders(known: int -> bool, unsnap: Unsnap, u: Bytes)
    decreases |u|
  {
    var h := ParseHeader(known, u);
    if |u| < MAX_CMD_HEADER_SIZE then
      (if h.Bad? then h.error == Eof else |u| - h.taken < h.value.bodySize)
    else if h.Bad? then true
    else
      var b := ReadCmd(unsnap, h.value, Stream(true, u[h.taken..]));
      b.result.Bad? || RoomAtHeaders(known, unsnap, b.stream.unread)
  }

  /** Over a whole file the chunked reader gives a prefix of the commands, and the same commands and
      outcome exactly when there is room at every header. */
  lemma {:induction false} PlayAgreesIff(known: int -> bool, unsnap: Unsnap, u: Bytes)
    ensures Play(known, unsnap, Stream(true, u)).cmds <= PlayFile(known, unsnap, u).cmds
    ensures Play(known, unsnap, Stream(true, u)) == PlayFile(known, unsnap, u) <==> RoomAtHeaders(known, unsnap, u)
    decreases |u|
  {
    hide ParseHeader;
    if |u| >= MAX_CMD_HEADER_SIZE && ParseHeader(known, u).Got? {
      var h := ParseHeader(known, u);
      var b := ReadCmd(unsnap, h.value, Stream(true, u[h.taken..]));
      if b.result.Got? {
        PlayAgreesIff(known, unsnap, b.stream.unread);
        var first := Cmd(h.value, b.result.value);
        SameTail(first, Play(known, unsnap, b.stream).cmds, PlayFile(known, unsnap, b.stream.unread).cmds);
      }
    }
  }

  lemma SameTail(first: Cmd, a: seq<Cmd>, b: seq<Cmd>)
    ensures [first] + a == [first] + b <==> a == b
    ensures a <= b ==> [first] + a <= [first] + b
  {
    if [first] + a == [first] + b {
      assert a == ([first] + a)[1..] && b == ([first] + b)[1..];
    }
  }

  /** A file ending in a three-byte command: the whole-file reader gives it, the chunked one reports the
      end of the stream instead. */
  lemma ShortLastCommandIsLost(known: int -> bool, unsnap: Unsnap)
    requires known(0)
    ensures var u := [0, 1, 0];
      && PlayFile(known, unsnap, u).cmds == [Cmd(CmdHeader(0, false, 1, 0, 3), [])]
      && Play(known, unsnap, Stream(true, u)) == Played([], Eof)
  {
    var u: Bytes := [0, 1, 0];
    assert u[1..] == [1, 0] && u[2..] == [0] && u[3..] == [];
    assert VarintFrom(u, 0) == Got(0, 1) && VarintFrom(u[1..], 0) == Got(1, 1) && VarintFrom(u[2..], 0) == Got(0, 1);
    var h := CmdHeader(0, false, 1, 0, 3);
    assert ParseHeader(known, u) == Got(h, 3);
    var s := Stream(true, u[3..]);
    assert ReadCmd(unsnap, h, s).result.value == [];
    assert ParseHeader(known, []).Bad?;
  }
}
