/** The chunked stream as an object.  Its results are functions of the unread bytes alone. */
module PacketChannelStreams {
  import opened Prelude
  import P = PacketChannels
  import opened PacketChannels

  class PacketChannelDemoStream {
    /** The chunks not received yet. */
    var source: seq<Bytes>
    var current: Bytes
    var offset: nat
    var headerSkipped: bool
    var bodyBuf: Bytes

    ghost predicate Valid()
      reads this
    {
      offset <= |current|
    }

    ghost function Unread(): Bytes
      requires Valid()
      reads this
    {
      current[offset..] + Flatten(source)
    }

    ghost function View(): Stream
      requires Valid()
      reads this
    {
      Stream(headerSkipped, Unread())
    }

    constructor (source: seq<Bytes>)
      ensures Valid() && View() == Stream(false, Flatten(source))
    {
      this.source, current, offset, headerSkipped, bodyBuf := source, [], 0, false, [];
    }

    method Recv() returns (r: Option<Bytes>)
      modifies this`source
      ensures match r
              case Some(chunk) => old(source) != [] && chunk == old(source)[0] && source == old(source)[1..]
              case None => source == old(source) == []
    {
      if source == [] { return None; }
      r := Some(source[0]);
      source := source[1..];
    }

    function Remaining(): nat
      reads this
    {
      if offset <= |current| then |current| - offset else 0
    }

    /** Receives chunks until `n` bytes are there or the source is exhausted. */
    method EnsureBytes(n: nat) returns (ok: bool)
      requires Valid()
      modifies this`source, this`current, this`offset
      ensures Valid() && Unread() == old(Unread())
      ensures ok == (|Unread()| >= n)
      ensures ok ==> Remaining() >= n
    {
      while Remaining() < n
        invariant Valid() && Unread() == old(Unread())
        decreases |source|
      {
        ghost var before := source;
        var chunk := Recv();
        if chunk.None? {
          assert Flatten(source) == [];
          return false;
        }
        assert Flatten(before) == chunk.value + Flatten(source);
        if offset > 0 {
          current := current[offset..] + chunk.value;
          offset := 0;
        } else if current == [] {
          current := chunk.value;
        } else {
          current := current + chunk.value;
        }
      }
      ok := true;
    }

    method ReadByte() returns (b: Byte)
      requires Valid() && Remaining() > 0
      modifies this`offset
      ensures Valid() && b == current[old(offset)] && offset == old(offset) + 1
    {
      b := current[offset];
      offset := offset + 1;
    }

    /** Reads from what is there; it does not receive. */
    method ReadVarint() returns (r: Taken<nat>)
      requires Valid()
      modifies this`offset
      ensures Valid() && r == VarintFrom(old(current[offset..]), 0) && offset == old(offset) + r.taken
    {
      var value, k := 0, 0;
      ghost var u, start := current[offset..], offset;
      ghost var spec := VarintFrom(u, 0);
      while true
        invariant Valid() && offset == start + k && k < 5
        invariant var rest := VarintFrom(u[k..], k);
          match rest
          case Got(v, n) => spec == Got(value + v, k + n)
          case Bad(e, n) => spec == Bad(e, k + n)
        decreases |current| - offset
      {
        assert u[k..] == current[offset..];
        if Remaining() == 0 { return Bad(Eof, k); }
        ghost var left := u[k..];
        var byte := ReadByte();
        assert left[0] == byte && left[1..] == u[k + 1..];
        value := value + byte % 128 * Pow2(7 * k) % U32;
        k := k + 1;
        if byte < 128 { return Got(value, k); }
        if 7 * k >= 32 { return Bad(VarintTooLarge, k); }
      }
    }

    method SkipHeaderIfNeeded() returns (ok: bool)
      requires Valid()
      modifies this`source, this`current, this`offset, this`headerSkipped
      ensures Valid() && ok == (old(headerSkipped) || |old(Unread())| >= DEMO_HEADER_SIZE)
      ensures View() == if old(headerSkipped) || !ok then old(View())
          else Stream(true, old(Unread())[DEMO_HEADER_SIZE..])
    {
      ok := true;
      if !headerSkipped {
        ok := EnsureBytes(DEMO_HEADER_SIZE);
        if !ok { return; }
        ghost var u := Unread();
        offset := offset + DEMO_HEADER_SIZE;
        assert Unread() == u[DEMO_HEADER_SIZE..];
        headerSkipped := true;
      }
    }

    /** The three varints of a header. */
    method ReadHeaderFields(known: int -> bool) returns (r: Taken<CmdHeader>)
      requires Valid()
      modifies this`offset
      ensures Valid() && r == ParseHeader(known, old(current[offset..])) && offset == old(offset) + r.taken
    {
      hide VarintFrom, IsCompressed, CmdOf;
      var start := offset;
      ghost var u := current[offset..];
      var raw := ReadVarint();
      if raw.Bad? { return Bad(raw.error, offset - start); }
      assert current[offset..] == u[raw.taken..];
      if !known(CmdOf(raw.value)) { return Bad(UnknownCmd, offset - start); }
      var tick := ReadVarint();
      if tick.Bad? { return Bad(tick.error, offset - start); }
      assert current[offset..] == u[raw.taken + tick.taken..];
      var size := ReadVarint();
      if size.Bad? { return Bad(size.error, offset - start); }
      var header := CmdHeader(CmdOf(raw.value), IsCompressed(raw.value), ToI32(tick.value), size.value, offset - start);
      r := Got(header, offset - start);
    }

    method ReadCmdHeader(known: int -> bool) returns (r: Taken<CmdHeader>)
      requires Valid()
      modifies this`source, this`current, this`offset, this`headerSkipped
      ensures Valid()
      ensures var spec := P.ReadCmdHeader(known, old(View())); r == spec.result && View() == spec.stream
    {
      hide ParseHeader;
      var ok := SkipHeaderIfNeeded();
      if !ok { return Bad(Eof, 0); }
      ghost var u := Unread();
      ok := EnsureBytes(MAX_CMD_HEADER_SIZE);
      if !ok { return Bad(Eof, 0); }
      HeaderFits(known, current[offset..], Flatten(source));
      r := ReadHeaderFields(known);
      assert Unread() == u[r.taken..];
    }

    method ReadCmd(unsnap: Unsnap, h: CmdHeader) returns (r: Taken<Bytes>)
      requires Valid()
      modifies this
      ensures Valid()
      ensures var spec := P.ReadCmd(unsnap, h, old(View())); r == spec.result && View() == spec.stream
    {
      ghost var u := Unread();
      var ok := EnsureBytes(h.bodySize);
      if !ok { return Bad(Eof, 0); }
      bodyBuf := current[offset..offset + h.bodySize];
      assert bodyBuf == u[..h.bodySize];
      offset := offset + h.bodySize;
      assert Unread() == u[h.bodySize..];
      if h.bodyCompressed {
        var plain := unsnap(bodyBuf);
        if plain.None? { return Bad(Undecompressable, h.bodySize); }
        bodyBuf := plain.value;
      }
      r := Got(bodyBuf, h.bodySize);
    }

    /** Reads commands until one fails. */
    method ReadAll(known: int -> bool, unsnap: Unsnap) returns (cmds: seq<Cmd>, error: Error)
      requires Valid()
      modifies this
      ensures Valid() && Played(cmds, error) == Play(known, unsnap, old(View()))
    {
      hide P.ReadCmdHeader, P.ReadCmd;
      cmds := [];
      while true
        invariant Valid()
        invariant var later := Play(known, unsnap, View());
          Play(known, unsnap, old(View())) == Played(cmds + later.cmds, later.error)
        decreases |Unread()|
      {
        ghost var s := View();
        HeaderShrinks(known, s);
        var h := ReadCmdHeader(known);
        if h.Bad? { return cmds, h.error; }
        BodyShrinks(unsnap, h.value, View());
        var b := ReadCmd(unsnap, h.value);
        if b.Bad? { return cmds, b.error; }
        ghost var later := Play(known, unsnap, View());
        assert cmds + ([Cmd(h.value, b.value)] + later.cmds) == (cmds + [Cmd(h.value, b.value)]) + later.cmds;
        cmds := cmds + [Cmd(h.value, b.value)];
      }
    }
  }

  lemma HeaderShrinks(known: int -> bool, s: Stream)
    ensures var r := P.ReadCmdHeader(known, s); r.result.Got? ==> |r.stream.unread| < |s.unread|
  {
    hide ParseHeader;
  }

  lemma BodyShrinks(unsnap: Unsnap, h: CmdHeader, s: Stream)
    ensures |P.ReadCmd(unsnap, h, s).stream.unread| <= |s.unread|
  {
  }

  /** Any two splittings of the same bytes, empty chunks included, give the same commands and the same
      outcome. */
  method ReadBoth(a: seq<Bytes>, b: seq<Bytes>, known: int -> bool, unsnap: Unsnap) returns (x: Played, y: Played)
    requires Flatten(a) == Flatten(b)
    ensures x == y == Play(known, unsnap, Stream(false, Flatten(a)))
  {
    hide Play;
    var s := new PacketChannelDemoStream(a);
    var cmds, error := s.ReadAll(known, unsnap);
    x := Played(cmds, error);
    var t := new PacketChannelDemoStream(b);
    cmds, error := t.ReadAll(known, unsnap);
    y := Played(cmds, error);
  }
}
