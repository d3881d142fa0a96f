/** The parser object: it moves through the command stream, changes its context and calls the visitor. */
module DemoParsers {
  import opened Prelude
  import opened BitReaders
  import opened StringTables
  import opened Entities
  import EC = EntityContainers
  import P = Player
  import opened Player
  import opened Traces
  import opened PacketFraming
  import opened RawCommands
  import opened LiveContexts

  datatype ControlFlow = Take | Skip | Ignore

  class Parser {
    const ctx: LiveContext
    const decode: Decode
    const raw: seq<RawCommand>
    /** Whether the stream ends where its last command does. */
    const clean: bool
    /** The commands with their packets decoded. */
    ghost const demo: seq<Command> := DecodedAll(decode, raw)
    /** The number of commands passed, and whether the header of the next one was read. */
    var at: nat
    var inBody: bool
    var skipEntityPackets: bool
    /** The visitor: what it was called with while it was recording. */
    var recording: bool
    ghost var calls: seq<Call>

    ghost predicate Ready()
      reads this
    {
      at <= |demo| && !inBody
    }

    ghost predicate HasRead(cmd: RawCommand)
      reads this
    {
      at < |demo| && inBody && raw[at] == cmd
    }

    ghost predicate Usable()
      reads ctx, ctx.Repr
    {
      ctx.Usable() && this !in ctx.Repr
    }

    ghost predicate Valid()
      reads ctx, ctx.Repr
    {
      ctx.Valid() && this !in ctx.Repr
    }

    /** The visitor has recorded the calls of `t`, and the context is that at its end, with new objects at most. */
    twostate predicate Did(ok: bool, new t: Trace)
      reads this, ctx, ctx.Repr
    {
      && Usable() && fresh(ctx.Repr - old(ctx.Repr))
      && calls == old(calls) + (if recording then t.calls else [])
      && match t.end
         case Some(c) => ok && Valid() && ctx.seen == c
         case None => !ok
    }

    constructor (ctx: LiveContext, decode: Decode, raw: seq<RawCommand>, clean: bool)
      requires ctx.Valid()
      ensures Ready() && at == 0 && Valid() && calls == [] && recording && !skipEntityPackets
      ensures this.ctx == ctx && this.decode == decode && this.raw == raw && this.clean == clean
    {
      this.ctx, this.decode, this.raw, this.clean := ctx, decode, raw, clean;
      at, inBody, calls := 0, false, [];
      recording, skipEntityPackets := true, false;
    }

    // ---- the stream

    method ReadCmdHeader() returns (r: Option<RawCommand>)
      requires Ready()
      modifies this`inBody
      ensures r == if at < |demo| then Some(raw[at]) else None
      ensures inBody == r.Some?
    {
      if at == |raw| { return None; }
      inBody := true;
      r := Some(raw[at]);
    }

    /** The body is read or skipped: either way the next command follows. */
    method PassCmd(ghost cmd: RawCommand)
      requires HasRead(cmd)
      modifies this`at, this`inBody
      ensures Ready() && at == old(at) + 1
    {
      at, inBody := at + 1, false;
    }

    method UnreadCmdHeader()
      requires inBody && at < |demo|
      modifies this`inBody
      ensures Ready()
    {
      inBody := false;
    }

    /** Past the last command: the run ends well exactly at the end of the file. */
    method IsAtEof() returns (r: bool)
      ensures r == (at == |demo| && clean)
    {
      r := at == |raw| && clean;
    }

    method Rewind()
      modifies this`at, this`inBody
      ensures Ready() && at == 0
    {
      at, inBody := 0, false;
    }

    // ---- the visitor

    ghost method Visit(call: Call)
      modifies this`calls
      ensures calls == old(calls) + (if recording then [call] else [])
    {
      if recording {
        calls := calls + [call];
      }
    }

    ghost method VisitAll(more: seq<Call>)
      modifies this`calls
      ensures calls == old(calls) + (if recording then more else [])
    {
      if recording {
        calls := calls + more;
      }
    }

    method SetCollecting(collecting: bool)
      modifies this`recording
      ensures recording == collecting
    {
      recording := collecting;
    }

    // ---- messages

    /** One entry: the entity changes in place and the visitor is shown it with the context of that moment. */
    method HandleSvcEntity(prev: int, br: BitReader, ghost left: nat, ghost scope: Scope)
      returns (ok: bool, index: int, ghost shown: seq<Call>)
      requires Valid() && ctx.seen.classes.Some? && ctx.seen.serializers.Some? && left > 0
      requires br !in ctx.Repr && br.Valid()
      modifies ctx.Repr, br, this`calls
      ensures Usable() && fresh(ctx.Repr - old(ctx.Repr)) && br.Valid()
      ensures calls == old(calls) + (if recording then shown else [])
      ensures
        var spec := EntitiesTrace(ctx.env, old(ctx.seen), scope, left, prev, old(br.unread));
        if ok then
          && Valid() && ctx.seen.classes.Some? && ctx.seen.serializers.Some?
          && spec == After(shown, EntitiesTrace(ctx.env, ctx.seen, scope, left - 1, index, br.unread))
        else spec == Trace([], None) && shown == []
    {
      hide EntitiesTrace, HandleDelta, ReadEntryHead, BaselinesIn, SchemaOf, Shown, See, After;
      hide LiveContext.Usable, LiveContext.Valid;
      ctx.OpenedFields();
      EntitiesNext(ctx.env, ctx.seen, scope, left, prev, br.unread);
      shown := [];
      var head := EC.ReadEntryHeadFrom(prev, br);
      if head.None? { return false, prev, []; }
      index := head.value.index;
      var events;
      ok, events := ctx.HandleEntity(index, head.value.delta, br);
      if !ok { return; }
      shown := Shown(ctx.seen, scope, events);
      VisitAll(shown);
    }

    /** Entry by entry. */
    method HandleSvcPacketEntities(n: nat, data: seq<bool>, ghost scope: Scope) returns (ok: bool)
      requires Valid()
      modifies ctx.Repr, this`calls
      ensures Did(ok, PacketEntitiesTrace(ctx.env, old(ctx.seen), scope, n, data))
    {
      hide EntitiesTrace, See, After, LiveContext.Usable, LiveContext.Valid;
      ctx.OpenedFields();
      if ctx.classes.None? || ctx.serializers.None? { return false; }
      var br := new BitReader(data);
      var index := -1;
      ghost var spec := EntitiesTrace(ctx.env, ctx.seen, scope, n, -1, data);
      ghost var done: seq<Call> := [];
      AfterNothing(spec);
      for i := 0 to n
        invariant Usable() && Valid() && fresh(ctx.Repr - old(ctx.Repr)) && br !in ctx.Repr && br.Valid()
        invariant ctx.seen.classes.Some? && ctx.seen.serializers.Some?
        invariant spec == After(done, EntitiesTrace(ctx.env, ctx.seen, scope, n - i, index, br.unread))
        invariant calls == old(calls) + (if recording then done else [])
      {
        AfterEnd(done, None);
        ghost var shown;
        ok, index, shown := HandleSvcEntity(index, br, n - i, scope);
        if !ok { return; }
        AfterAfter(done, shown, EntitiesTrace(ctx.env, ctx.seen, scope, n - i - 1, index, br.unread));
        done := done + shown;
      }
      EntitiesEnd(ctx.env, ctx.seen, scope, index, br.unread);
      AfterEnd(done, Some(ctx.seen));
      ok := true;
    }

    method HandleMessage(m: Message, ghost scope: Scope) returns (ok: bool)
      requires Valid()
      modifies ctx.Repr, this`calls
      ensures Did(ok, MessageTrace(ctx.env, old(ctx.seen), skipEntityPackets, m, scope))
    {
      hide HandleCreateTable, HandleUpdateTable, PacketEntitiesTrace, MessageTrace, See;
      hide LiveContext.Usable, LiveContext.Valid;
      MessageTraceIs(ctx.env, ctx.seen, skipEntityPackets, m, scope);
      ctx.OpenedFields();
      if m.Unframed? { return false; }
      ghost var first, was := OnPacket(See(ctx.seen, scope), m), ctx.seen;
      Visit(first);
      match m
      case CreateTable(cfg, n, data) => ok := ctx.HandleCreateStringTable(cfg, n, data);
      case UpdateTable(id, n, data) => ok := ctx.HandleUpdateStringTable(id, n, data);
      case PacketEntities(n, data) =>
        ok := true;
        if !skipEntityPackets {
          ok := HandleSvcPacketEntities(n, data, scope);
          ghost var more := PacketEntitiesTrace(ctx.env, was, scope, n, data).calls;
          assert old(calls) + ([first] + more) == (old(calls) + [first]) + more;
        }
      case ServerInfo(interval) => ctx.HandleServerInfo(interval); ok := true;
      case OtherMessage(_, _) => ok := true;
      case Broken => ok := false;
    }

    /** Message by message: each is framed, decoded, shown and applied before the next is framed. */
    method HandleCmdPacket(data: seq<bool>, ghost scope: Scope) returns (ok: bool)
      requires Valid()
      modifies ctx.Repr, this`calls
      ensures Did(ok, MessagesTrace(ctx.env, old(ctx.seen), skipEntityPackets, MessagesOf(decode, data), scope))
    {
      hide MessageTrace, MessagesTrace, MessagesOf, ReadFramed, See, After, LiveContext.Usable, LiveContext.Valid;
      ctx.OpenedFields();
      var br := new BitReader(data);
      ghost var spec := MessagesTrace(ctx.env, ctx.seen, skipEntityPackets, MessagesOf(decode, data), scope);
      ghost var done: seq<Call> := [];
      AfterNothing(spec);
      while |br.unread| > PADDING
        invariant Usable() && Valid() && fresh(ctx.Repr - old(ctx.Repr)) && br !in ctx.Repr
        invariant spec == After(done, MessagesTrace(ctx.env, ctx.seen, skipEntityPackets,
                                                    MessagesOf(decode, br.unread), scope))
        invariant calls == old(calls) + (if recording then done else [])
        decreases |br.unread|
      {
        FramedNext(ctx.env, ctx.seen, skipEntityPackets, decode, br.unread, scope);
        var framed := ReadFramedFrom(br);
        if framed.None? {
          AfterEnd(done, None);
          return false;
        }
        var m := decode(framed.value);
        ghost var t := MessageTrace(ctx.env, ctx.seen, skipEntityPackets, m, scope);
        ok := HandleMessage(m, scope);
        if !ok {
          AfterCalls(done, t);
          return;
        }
        AfterAfter(done, t.calls, MessagesTrace(ctx.env, ctx.seen, skipEntityPackets, MessagesOf(decode, br.unread),
            scope));
        done := done + t.calls;
      }
      FramedEnd(ctx.env, ctx.seen, skipEntityPackets, decode, br.unread, scope);
      AfterEnd(done, Some(ctx.seen));
      ok := true;
    }

    // ---- commands

    method HandleCmdFullPacket(snapshots: Option<seq<Snapshot>>, packet: Option<seq<bool>>) returns (ok: bool)
      requires Valid()
      modifies ctx.Repr, this`calls
      ensures Did(ok, BodyTrace(ctx.env, old(ctx.seen), skipEntityPackets,
                                DecodedBody(decode, RawFull(snapshots, packet))))
    {
      hide FullUpdates, Indexable, HandleMessages, MessagesShown, MessagesOf, LiveContext.Usable, LiveContext.Valid;
      ctx.OpenedFields();
      ok := true;
      if snapshots.Some? {
        ok := ctx.HandleFullUpdate(snapshots.value);
        if !ok { return; }
      }
      if packet.Some? {
        ok := HandleCmdPacket(packet.value, NoEntities);
      }
    }

    /** After `on_cmd`: the body is decoded and applied. */
    method HandleCmdBody(body: RawBody) returns (ok: bool)
      requires Valid()
      modifies ctx.Repr, this`calls
      ensures Did(ok, BodyTrace(ctx.env, old(ctx.seen), skipEntityPackets, DecodedBody(decode, body)))
    {
      hide HandleMessages, HandleFullPacket, HandleSendTables, HandleClassInfo, MessagesShown, MessagesOf;
      hide LiveContext.Usable, LiveContext.Valid;
      ctx.OpenedFields();
      match body
      case RawPacket(data) => ok := HandleCmdPacket(data, Everything);
      case RawSignon(data) => ok := HandleCmdPacket(data, Everything);
      case RawFull(snapshots, packet) => ok := HandleCmdFullPacket(snapshots, packet);
      case RawOther(other) =>
        match other {
          case SendTables(sent) => ok := ctx.HandleSendTables(sent);
          case ClassInfo(info) => ok := ctx.HandleClassInfo(info);
          case SyncTick => ok := true;
          case Other(_, _) => ok := true;
          case Unreadable => ok := false;
        }
    }

    method Dispatch(cf: ControlFlow, cmd: RawCommand) returns (ok: bool)
      requires Valid() && if cf.Ignore? then Ready() else HasRead(cmd)
      modifies ctx.Repr, this`at, this`inBody, this`calls
      ensures Ready() && at == (if cf.Ignore? then old(at) else old(at) + 1)
      ensures Did(ok, if cf.Take? then HandleTrace(ctx.env, old(ctx.seen), skipEntityPackets, Decoded(decode, cmd))
                      else Trace([], Some(old(ctx.seen))))
    {
      hide HandleTrace, See, LiveContext.Usable, LiveContext.Valid;
      ctx.OpenedFields();
      match cf
      case Take => ok := HandleCmd(cmd);
      case Skip => PassCmd(cmd); ok := true;
      case Ignore => ok := true;
    }

    /** `on_cmd`, the body, and `on_tick_end` if the tick is a new one. */
    method HandleCmd(cmd: RawCommand) returns (ok: bool)
      requires Valid() && HasRead(cmd)
      modifies ctx.Repr, this`at, this`inBody, this`calls
      ensures Ready() && at == old(at) + 1
      ensures Did(ok, HandleTrace(ctx.env, old(ctx.seen), skipEntityPackets, Decoded(decode, cmd)))
    {
      hide HandleTrace, BodyTrace, See, CommandScope, DecodedBody, LiveContext.Usable, LiveContext.Valid;
      PassCmd(cmd);
      ghost var shown := Decoded(decode, cmd);
      ghost var first := OnCmd(See(ctx.seen, CommandScope(shown)), ctx.seen.prevTick, shown);
      HandleTraceIs(ctx.env, ctx.seen, skipEntityPackets, shown);
      ghost var more := BodyTrace(ctx.env, ctx.seen, skipEntityPackets, shown.body).calls;
      Visit(first);
      ok := HandleCmdBody(cmd.body);
      InOrder(old(calls), first, more, if ok then TickEnd(ctx.seen) else []);
      if !ok { return; }
      ctx.OpenedFields();
      if ctx.prevTick != ctx.tick {
        Visit(OnTickEnd(See(ctx.seen, Everything)));
      }
    }

    // ---- runs

    /** Back to the start of the stream, also after a failure. */
    method Reset()
      requires Usable()
      modifies ctx.Repr, this`at, this`inBody
      ensures Ready() && at == 0 && Usable() && Valid() && fresh(ctx.Repr - old(ctx.Repr))
      ensures ctx.seen == ResetContext(old(ctx.seen))
      ensures ctx.seen == Context([], old(ctx.seen).classes, old(ctx.seen).serializers, EMPTY, old(ctx.seen).interval,
                                  old(ctx.seen).fullPacketInterval, -1, -1)
    {
      hide LiveContext.Valid;
      Rewind();
      ctx.Reset();
    }

    /** The header of the next command and its tick. */
    method Advance(cmd: RawCommand)
      requires Valid()
      modifies ctx.Repr
      ensures Usable() && Valid() && ctx.Repr == old(ctx.Repr)
      ensures ctx.seen == P.Advance(old(ctx.seen), Decoded(decode, cmd))
    {
      hide LiveContext.Valid, LiveContext.Usable;
      ctx.OpenedFields();
      ctx.SetTicks(cmd.tick, ctx.tick);
    }

    /** Handles every command that is left. */
    method RunToEnd() returns (ok: bool)
      requires Ready() && Valid() && !skipEntityPackets
      modifies ctx.Repr, this`at, this`inBody, this`calls
      ensures Did(ok, RunTrace(ctx.env, old(ctx.seen), demo[old(at)..], clean))
      ensures ok ==> Ready() && at == |demo|
    {
      hide HandleTrace, RunTrace, After, DecodedBody, LiveContext.Valid, LiveContext.Usable;
      ctx.OpenedFields();
      ghost var spec := RunTrace(ctx.env, ctx.seen, demo[at..], clean);
      ghost var done: seq<Call> := [];
      AfterNothing(spec);
      while true
        invariant Usable() && Valid() && fresh(ctx.Repr - old(ctx.Repr))
        invariant Ready() && spec == After(done, RunTrace(ctx.env, ctx.seen, demo[at..], clean))
        invariant calls == old(calls) + (if recording then done else [])
        decreases |demo| - at
      {
        RunNext(ctx.env, ctx.seen, demo, at, clean);
        var header := ReadCmdHeader();
        if header.None? {
          AfterEnd(done, if clean then Some(ctx.seen) else None);
          ok := IsAtEof();
          return;
        }
        var cmd := header.value;
        ghost var h := HandleTrace(ctx.env, P.Advance(ctx.seen, demo[at]), false, demo[at]);
        Advance(cmd);
        ok := Dispatch(Take, cmd);
        if !ok {
          AfterCalls(done, h);
          return;
        }
        AfterAfter(done, h.calls, RunTrace(ctx.env, ctx.seen, demo[at..], clean));
        done := done + h.calls;
      }
    }

    /** `run_seekable` breaking out. */
    method BreakOut()
      requires inBody && at < |demo| && Valid()
      modifies ctx.Repr, this`inBody
      ensures Ready() && Usable() && Valid() && ctx.Repr == old(ctx.Repr)
      ensures ctx.seen == old(ctx.seen).(tick := old(ctx.seen).prevTick)
    {
      hide LiveContext.Valid, LiveContext.Usable;
      ctx.OpenedFields();
      UnreadCmdHeader();
      ctx.SetTicks(ctx.prevTick, ctx.prevTick);
    }

    /** What the loop of `run_full_packet` does with the next command. */
    method SegmentHandler(body: RawBody, ordinal: nat, seen: nat, collecting: bool) returns (d: Decision)
      modifies this`recording, this`skipEntityPackets
      ensures d == SegmentDecision(DecodedBody(decode, body), ordinal, seen, collecting)
      ensures d.seen == (if body.RawFull? then seen + 1 else seen)
      ensures d.cf.None? <==> body.RawFull? && seen > ordinal
      ensures d.cf.Some? ==> !d.cf.value.Ignore?
      ensures d.cf == Some(Skip) ==> !collecting || seen < ordinal
      ensures d.collecting == (collecting || (body.RawFull? && seen == ordinal))
      ensures recording == (old(recording) || (body.RawFull? && seen == ordinal))
      ensures skipEntityPackets == (old(skipEntityPackets) && !(body.RawFull? && seen == ordinal))
    {
      if body.RawFull? {
        if seen < ordinal { return Decision(Some(Skip), seen + 1, collecting); }
        if seen == ordinal {
          SetCollecting(true);
          skipEntityPackets := false;
          return Decision(Some(Take), seen + 1, true);
        }
        return Decision(None, seen + 1, collecting);
      }
      var isInit := body.RawSignon? || (body.RawOther? && (body.body.SendTables? || body.body.ClassInfo?));
      d := Decision(Some(if collecting || isInit then Take else Skip), seen, collecting);
    }

    /** One turn of the loop of `run_full_packet`: either it ends, or a command is behind it. */
    method SegmentStep(ordinal: nat, seen: nat, collecting: bool)
      returns (ended: Option<bool>, nowSeen: nat, nowCollecting: bool, ghost gain: seq<Call>)
      requires Ready() && Valid() && skipEntityPackets == !collecting && (!collecting ==> !recording)
      requires collecting == (ordinal == 0 || ordinal < seen)
      modifies ctx.Repr, this`at, this`inBody, this`calls, this`recording, this`skipEntityPackets
      ensures Usable() && fresh(ctx.Repr - old(ctx.Repr))
      ensures calls == old(calls) + (if recording then gain else [])
      ensures
        var spec := SegmentTrace(ctx.env, old(ctx.seen), demo[old(at)..], clean, ordinal, seen, collecting);
        match ended
        case Some(ok) =>
          && spec == Trace(gain, if ok then Some(ctx.seen) else None)
          && (ok ==> Ready() && Valid() && nowSeen == seen && recording == old(recording))
        case None =>
          && Ready() && Valid() && old(at) < |demo| && at == old(at) + 1
          && spec == After(gain, SegmentTrace(ctx.env, ctx.seen, demo[at..], clean, ordinal, nowSeen, nowCollecting))
          && skipEntityPackets == !nowCollecting && nowCollecting == (ordinal == 0 || ordinal < nowSeen)
          && nowSeen == (if demo[old(at)].body.FullPacket? then seen + 1 else seen)
      ensures var over := old(at) == |demo| || (demo[old(at)].body.FullPacket? && seen > ordinal);
        if over then ended.Some? && gain == [] && recording == old(recording)
        else
          var cmd, was := demo[old(at)], P.Advance(old(ctx.seen), demo[old(at)]);
          && ended != Some(true)
          && recording == (old(recording) || (cmd.body.FullPacket? && seen == ordinal))
          && (collecting && !cmd.body.FullPacket? ==>
                HandleTrace(ctx.env, was, false, cmd) == Trace(gain, if ended.None? then Some(ctx.seen) else None))
          && (!recording ==> collecting || gain == [])
    {
      hide HandleTrace, SegmentTrace, After, SegmentDecision, LiveContext.Valid, LiveContext.Usable;
      ctx.OpenedFields();
      nowSeen, nowCollecting, gain := seen, collecting, [];
      SegmentNext(ctx.env, ctx.seen, demo, at, clean, ordinal, seen, collecting);
      var header := ReadCmdHeader();
      if header.None? {
        var eof := IsAtEof();
        return Some(eof), seen, collecting, [];
      }
      var cmd := header.value;
      Advance(cmd);
      var d := SegmentHandler(cmd.body, ordinal, seen, collecting);
      if d.cf.None? {
        BreakOut();
        return Some(true), seen, collecting, [];
      }
      nowSeen, nowCollecting := d.seen, d.collecting;
      ghost var h := HandleTrace(ctx.env, ctx.seen, skipEntityPackets, demo[at]);
      if d.cf.value.Take? && d.collecting {
        gain := h.calls;
      }
      var ok := Dispatch(d.cf.value, cmd);
      ended := if ok then None else Some(false);
    }

    /** Handles the segment of full packet `ordinal`.  A visitor that an earlier call left silent stays so in the
        first segment until its full packet. */
    method RunFullPacket(ordinal: nat) returns (ok: bool)
      requires Usable()
      modifies ctx.Repr, this
      ensures Usable() && fresh(ctx.Repr - old(ctx.Repr)) && !skipEntityPackets
      ensures
        var start := ResetContext(old(ctx.seen));
        var t := SegmentTrace(ctx.env, start, demo, clean, ordinal, 0, ordinal == 0);
        var unheard := if ordinal == 0 && !old(recording) then CallsBefore(ctx.env, start, demo) else [];
        && unheard <= t.calls && calls == old(calls) + t.calls[|unheard|..]
        && match t.end
           case Some(c) =>
             && ok && Ready() && Valid() && ctx.seen == c
             && recording == ((ordinal == 0 && old(recording)) || ordinal < |FullPacketTicks(demo)|)
           case None => !ok
    {
      hide SegmentTrace, After, HandleTrace, CallsBefore, FullPacketTicks, Heard, LiveContext.Valid, LiveContext.Usable;
      Reset();
      ghost var start, silent, base := ctx.seen, ordinal == 0 && !recording, calls;
      ghost var spec := SegmentTrace(ctx.env, start, demo, clean, ordinal, 0, ordinal == 0);
      ghost var done: seq<Call> := [];
      AfterNothing(spec);
      HeardStart(silent, ctx.env, start, demo, calls);
      assert demo[0..] == demo;
      var seen: nat := 0;
      var collecting := ordinal == 0;
      skipEntityPackets := false;
      if !collecting {
        SetCollecting(false);
        skipEntityPackets := true;
      }
      while true
        invariant Usable() && Valid() && fresh(ctx.Repr - old(ctx.Repr))
        invariant Ready() && skipEntityPackets == !collecting && collecting == (ordinal == 0 || ordinal < seen)
        invariant recording == ((ordinal == 0 && !silent) || ordinal < seen)
        invariant seen + |FullPacketTicks(demo[at..])| == |FullPacketTicks(demo)|
        invariant spec == After(done, SegmentTrace(ctx.env, ctx.seen, demo[at..], clean, ordinal, seen, collecting))
        invariant Heard(silent, ctx.env, start, ctx.seen, demo, at, seen, done, base, calls)
        decreases |demo| - at
      {
        ghost var was, before, had, from := ctx.seen, seen, calls, at;
        TicksNext(demo, at);
        var ended;
        ghost var gain;
        ended, seen, collecting, gain := SegmentStep(ordinal, seen, collecting);
        if ended.Some? {
          ok := ended.value;
          AfterCalls(done, Trace(gain, if ok then Some(ctx.seen) else None));
          HeardEnd(silent, ctx.env, start, was, demo, from, before, done, gain, base, had, calls);
          break;
        }
        AfterAfter(done, gain, SegmentTrace(ctx.env, ctx.seen, demo[at..], clean, ordinal, seen, collecting));
        HeardNext(silent, ctx.env, start, was, ctx.seen, demo, from, before, done, gain, base, had, calls);
        done := done + gain;
      }
      skipEntityPackets := false;
    }

    /** The full packet branch of the seek handler. */
    method ApplyFullPacket(cmd: RawCommand, target: int) returns (ok: bool)
      requires Valid() && HasRead(cmd) && cmd.body.RawFull? && !skipEntityPackets
      modifies ctx.Repr, this`at, this`inBody, this`calls
      ensures Ready() && at == old(at) + 1
      ensures Did(ok, SeekFullPacketTrace(ctx.env, old(ctx.seen), Decoded(decode, cmd), target))
    {
      hide BodyTrace, SeekFullPacketTrace, See, MessagesOf, LiveContext.Valid, LiveContext.Usable;
      ctx.OpenedFields();
      var ahead := target - ctx.tick > ctx.fullPacketInterval + AHEAD_SLACK;
      PassCmd(cmd);
      ghost var shown := Decoded(decode, cmd);
      ghost var first := OnCmd(See(ctx.seen, InitOnly), ctx.seen.prevTick, shown);
      Visit(first);
      var packet := if ahead then None else cmd.body.packet;
      ghost var body := DecodedBody(decode, RawFull(cmd.body.snapshots, packet));
      SeekFullPacketTraceIs(ctx.env, ctx.seen, shown, target, body);
      ghost var more := BodyTrace(ctx.env, ctx.seen, false, body).calls;
      ok := HandleCmdFullPacket(cmd.body.snapshots, packet);
      InOrder(old(calls), first, more, if ok then [OnTickEnd(See(ctx.seen, Everything))] else []);
      if ok {
        Visit(OnTickEnd(See(ctx.seen, Everything)));
      }
    }

    /** What the handler of `run_to_tick` does with a command up to the target. */
    method SeekHandler(cmd: RawCommand, target: int, synced: bool, last: bool) returns (ok: bool, cf: ControlFlow)
      requires Valid() && HasRead(cmd) && !skipEntityPackets
      modifies ctx.Repr, this`at, this`inBody, this`calls
      ensures Usable() && fresh(ctx.Repr - old(ctx.Repr))
      ensures synced && cmd.body.RawFull? ==>
        && cf.Ignore? && Ready() && at == old(at) + 1
        && Did(ok, SeekFullPacketTrace(ctx.env, old(ctx.seen), Decoded(decode, cmd), target))
      ensures !(synced && cmd.body.RawFull?) ==>
        && ok && cf == (if !synced || last then Take else Skip) && HasRead(cmd) && Valid() && ctx.seen == old(ctx.seen)
        && calls == old(calls) && at == old(at)
    {
      hide SeekFullPacketTrace, LiveContext.Valid, LiveContext.Usable;
      ctx.OpenedFields();
      ok := true;
      if !synced { return true, Take; }
      if cmd.body.RawFull? {
        ok := ApplyFullPacket(cmd, target);
        return ok, Ignore;
      }
      cf := if last then Take else Skip;
    }

    /** One turn of the loop of `run_to_tick`: either it ends, or a command is behind it. */
    method SeekStep(target: int, synced: bool, last: bool)
      returns (ended: Option<bool>, nowSynced: bool, nowLast: bool, ghost gain: seq<Call>)
      requires Ready() && Valid() && !skipEntityPackets
      modifies ctx.Repr, this`at, this`inBody, this`calls
      ensures Usable() && fresh(ctx.Repr - old(ctx.Repr))
      ensures calls == old(calls) + (if recording then gain else [])
      ensures
        var spec := SeekTrace(ctx.env, old(ctx.seen), demo[old(at)..], clean, target, synced, last);
        match ended
        case Some(ok) => spec == Trace(gain, if ok then Some(ctx.seen) else None) && (ok ==> Ready() && Valid())
        case None =>
          && Ready() && Valid() && old(at) < |demo| && at == old(at) + 1
          && spec == After(gain, SeekTrace(ctx.env, ctx.seen, demo[at..], clean, target, nowSynced, nowLast))
    {
      hide HandleTrace, SeekFullPacketTrace, SeekTrace, After, MessagesOf, LiveContext.Valid, LiveContext.Usable;
      ctx.OpenedFields();
      nowSynced, nowLast, gain := synced, last, [];
      SeekNext(ctx.env, ctx.seen, demo, at, clean, target, synced, last);
      var header := ReadCmdHeader();
      if header.None? {
        var eof := IsAtEof();
        return Some(eof), synced, last, [];
      }
      var cmd := header.value;
      Advance(cmd);
      if cmd.tick > target {
        BreakOut();
        return Some(true), synced, last, [];
      }
      ctx.OpenedFields();
      gain := SeekOne(ctx.env, ctx.seen, demo[at], target, synced, last).calls;
      var ahead := target - ctx.tick > ctx.fullPacketInterval + AHEAD_SLACK;
      var ok, cf := SeekHandler(cmd, target, synced, last);
      if !ok { return Some(false), synced, last, gain; }
      ok := Dispatch(cf, cmd);
      if !ok { return Some(false), synced, last, gain; }
      ended, nowSynced := None, synced || (cmd.body.RawOther? && cmd.body.body.SyncTick?);
      if synced && cmd.body.RawFull? {
        nowLast := !ahead;
      }
    }

    /** Fast-forwards to the last command whose tick is at most `target`. */
    method RunToTick(target: int) returns (ok: bool)
      requires Usable() && !skipEntityPackets
      modifies ctx.Repr, this`at, this`inBody, this`calls
      ensures Did(ok, SeekTrace(ctx.env, ResetContext(old(ctx.seen)), demo, clean, target, false, false))
      ensures ok ==> Ready()
    {
      hide SeekTrace, After, LiveContext.Valid, LiveContext.Usable;
      Reset();
      ghost var spec := SeekTrace(ctx.env, ctx.seen, demo, clean, target, false, false);
      ghost var done: seq<Call> := [];
      AfterNothing(spec);
      assert demo[0..] == demo;
      var didHandleFirstSyncTick, didHandleLastFullPacket := false, false;
      while true
        invariant Usable() && Valid() && fresh(ctx.Repr - old(ctx.Repr))
        invariant Ready()
        invariant spec == After(done, SeekTrace(ctx.env, ctx.seen, demo[at..], clean, target, didHandleFirstSyncTick,
            didHandleLastFullPacket))
        invariant calls == old(calls) + (if recording then done else [])
        decreases |demo| - at
      {
        var ended;
        ghost var gain;
        ended, didHandleFirstSyncTick, didHandleLastFullPacket, gain :=
          SeekStep(target, didHandleFirstSyncTick, didHandleLastFullPacket);
        if ended.Some? {
          AfterCalls(done, Trace(gain, if ended.value then Some(ctx.seen) else None));
          return ended.value;
        }
        AfterAfter(done, gain, SeekTrace(ctx.env, ctx.seen, demo[at..], clean, target, didHandleFirstSyncTick,
            didHandleLastFullPacket));
        done := done + gain;
      }
    }

    /** Reads headers only; the stream ends rewound. */
    method ScanFullPacketTicks() returns (r: Option<seq<int>>)
      requires Usable()
      modifies ctx.Repr, this`at, this`inBody
      ensures Usable() && fresh(ctx.Repr - old(ctx.Repr))
      ensures r == if clean then Some(FullPacketTicks(demo)) else None
      ensures r.Some? ==> Ready() && at == 0 && Valid() && ctx.seen == ResetContext(old(ctx.seen))
    {
      hide FullPacketTicks, LiveContext.Valid, LiveContext.Usable;
      Reset();
      var ticks := [];
      assert demo[0..] == demo && ticks + FullPacketTicks(demo) == FullPacketTicks(demo);
      while true
        invariant Usable() && Valid() && fresh(ctx.Repr - old(ctx.Repr)) && ctx.seen == ResetContext(old(ctx.seen))
        invariant Ready() && FullPacketTicks(demo) == ticks + FullPacketTicks(demo[at..])
        decreases |demo| - at
      {
        TicksNext(demo, at);
        var header := ReadCmdHeader();
        if header.None? {
          var eof := IsAtEof();
          if eof { break; }
          return None;
        }
        var cmd := header.value;
        if cmd.body.RawFull? {
          ghost var rest := FullPacketTicks(demo[at + 1..]);
          assert (ticks + [cmd.tick]) + rest == ticks + ([cmd.tick] + rest);
          ticks := ticks + [cmd.tick];
        } else {
          assert [] + FullPacketTicks(demo[at + 1..]) == FullPacketTicks(demo[at + 1..]);
        }
        PassCmd(cmd);
      }
      assert ticks + [] == ticks;
      Reset();
      r := Some(ticks);
    }
  }

  // ---- the steps of the traces

  lemma AfterCalls(a: seq<Call>, t: Trace)
    ensures After(a, t) == Trace(a + t.calls, t.end)
  {
  }

  lemma InOrder(had: seq<Call>, first: Call, more: seq<Call>, end: seq<Call>)
    ensures ((had + [first]) + more) + end == had + ([first] + more + end)
  {
  }

  lemma HandleTraceIs(env: Env, ctx: Context, skipEntities: bool, cmd: Command)
    ensures var b := BodyTrace(env, ctx, skipEntities, cmd.body);
      HandleTrace(env, ctx, skipEntities, cmd) ==
        Trace([OnCmd(See(ctx, CommandScope(cmd)), ctx.prevTick, cmd)] + b.calls
              + (if b.end.Some? then TickEnd(b.end.value) else []), b.end)
  {
    hide HandleBody, BodyShown, See;
  }

  lemma SeekFullPacketTraceIs(env: Env, ctx: Context, cmd: Command, target: int, body: Body)
    requires cmd.body.FullPacket?
    requires body == if Ahead(ctx, target) then cmd.body.(packet := None) else cmd.body
    ensures var b := BodyTrace(env, ctx, false, body);
      SeekFullPacketTrace(env, ctx, cmd, target) ==
        Trace([OnCmd(See(ctx, InitOnly), ctx.prevTick, cmd)] + b.calls
              + (if b.end.Some? then [OnTickEnd(See(b.end.value, Everything))] else []), b.end)
  {
    hide HandleFullPacket, BodyShown, See, Ahead;
  }

  lemma MessageTraceIs(env: Env, ctx: Context, skipEntities: bool, m: Message, scope: Scope)
    ensures MessageTrace(env, ctx, skipEntities, m, scope) ==
      After(if m.Unframed? then [] else [OnPacket(See(ctx, scope), m)],
            if m.PacketEntities? && !skipEntities then PacketEntitiesTrace(env, ctx, scope, m.numEntries, m.data)
            else Trace([], ApplyMessage(env, ctx, skipEntities, m)))
  {
    hide See, HandleEntries, EntityCalls, HandleCreateTable, HandleUpdateTable;
  }

  /** The next message of a packet, as far as its bits frame one. */
  lemma FramedNext(env: Env, ctx: Context, skipEntities: bool, decode: Decode, b: seq<bool>, scope: Scope)
    requires |b| > PADDING
    ensures var all := MessagesTrace(env, ctx, skipEntities, MessagesOf(decode, b), scope);
      match ReadFramed(b)
      case Fail => all == Trace([], None)
      case Ok(framed, rest) =>
        var t := MessageTrace(env, ctx, skipEntities, decode(framed), scope);
        all == if t.end.None? then t
               else After(t.calls, MessagesTrace(env, t.end.value, skipEntities, MessagesOf(decode, rest), scope))
  {
    hide ReadFramed, MessagesTrace, MessageTrace;
    match ReadFramed(b)
    case Fail =>
      assert MessagesOf(decode, b) == [Unframed] + [];
      OneMessage(env, ctx, skipEntities, Unframed, [], scope);
      UnframedTrace(env, ctx, skipEntities, scope);
    case Ok(framed, rest) => OneMessage(env, ctx, skipEntities, decode(framed), MessagesOf(decode, rest), scope);
  }

  lemma UnframedTrace(env: Env, ctx: Context, skipEntities: bool, scope: Scope)
    ensures MessageTrace(env, ctx, skipEntities, Unframed, scope) == Trace([], None)
  {
  }

  lemma OneMessage(env: Env, ctx: Context, skipEntities: bool, m: Message, more: seq<Message>, scope: Scope)
    ensures var t := MessageTrace(env, ctx, skipEntities, m, scope);
      MessagesTrace(env, ctx, skipEntities, [m] + more, scope) ==
        if t.end.None? then t else After(t.calls, MessagesTrace(env, t.end.value, skipEntities, more, scope))
  {
    hide ApplyMessage, MessageCalls;
    assert ([m] + more)[1..] == more;
    var calls := MessageCalls(env, ctx, skipEntities, m, scope);
    assert calls + [] == calls;
  }

  lemma FramedEnd(env: Env, ctx: Context, skipEntities: bool, decode: Decode, b: seq<bool>, scope: Scope)
    requires |b| <= PADDING
    ensures MessagesTrace(env, ctx, skipEntities, MessagesOf(decode, b), scope) == Trace([], Some(ctx))
  {
  }

  /** What a message about entities does, with its calls. */
  function PacketEntitiesTrace(env: Env, ctx: Context, scope: Scope, n: nat, data: seq<bool>): Trace
  {
    if ctx.classes.None? || ctx.serializers.None? then Trace([], None) else EntitiesTrace(env, ctx, scope, n, -1, data)
  }

  function EntitiesTrace(env: Env, ctx: Context, scope: Scope, n: nat, prev: int, b: seq<bool>): Trace
    requires ctx.classes.Some? && ctx.serializers.Some?
  {
    Trace(EntityCalls(env, ctx, scope, n, prev, b),
          match HandleEntries(n, SchemaOf(env, ctx), env.track, BaselinesIn(ctx), ctx.interval, ctx.container, prev, b)
          case Ok(s, _) => Some(ctx.(container := s.container))
          case Fail => None)
  }

  lemma EntitiesEnd(env: Env, ctx: Context, scope: Scope, prev: int, b: seq<bool>)
    requires ctx.classes.Some? && ctx.serializers.Some?
    ensures EntitiesTrace(env, ctx, scope, 0, prev, b) == Trace([], Some(ctx))
  {
  }

  lemma EntitiesNext(env: Env, ctx: Context, scope: Scope, n: nat, prev: int, b: seq<bool>)
    requires ctx.classes.Some? && ctx.serializers.Some? && n > 0
    ensures match ReadEntryHead(prev, b)
            case Fail => EntitiesTrace(env, ctx, scope, n, prev, b) == Trace([], None)
            case Ok(h, b1) =>
              match HandleDelta(SchemaOf(env, ctx), env.track, BaselinesIn(ctx), ctx.interval, ctx.container,
                                h.index, h.delta, b1)
              case Fail => EntitiesTrace(env, ctx, scope, n, prev, b) == Trace([], None)
              case Ok(s, b2) =>
                var later := ctx.(container := s.container);
                EntitiesTrace(env, ctx, scope, n, prev, b)
                == After(Shown(later, scope, s.events), EntitiesTrace(env, later, scope, n - 1, s.index, b2))
  {
    hide HandleDelta, ReadEntryHead, CurrentBaselines, See, Shown;
    match ReadEntryHead(prev, b)
    case Fail =>
    case Ok(h, b1) =>
      match HandleDelta(SchemaOf(env, ctx), env.track, BaselinesIn(ctx), ctx.interval, ctx.container, h.index,
                        h.delta, b1) {
        case Fail =>
        case Ok(s, b2) =>
          var later := ctx.(container := s.container);
          assert SchemaOf(env, later) == SchemaOf(env, ctx) && BaselinesIn(later) == BaselinesIn(ctx);
      }
  }

  // ---- what a silent visitor misses

  /** The calls for the commands before the first full packet. */
  function CallsBefore(env: Env, ctx: Context, cmds: seq<Command>): seq<Call>
    decreases |cmds|
  {
    if cmds == [] || cmds[0].body.FullPacket? then []
    else
      HandleShown(env, P.Advance(ctx, cmds[0]), false, cmds[0])
      + match Handle(env, P.Advance(ctx, cmds[0]), false, cmds[0])
        case Some(r) => CallsBefore(env, r.ctx, cmds[1..])
        case None => []
  }

  /** What the visitor has of the calls `done`: a silent one misses those before the first full packet. */
  ghost predicate Heard(silent: bool, env: Env, start: Context, ctx: Context, demo: seq<Command>, at: nat, seen: nat,
                        done: seq<Call>, base: seq<Call>, calls: seq<Call>)
    requires at <= |demo|
  {
    var unheard := CallsBefore(env, start, demo);
    if !silent then calls == base + done
    else if seen == 0 then calls == base && unheard == done + CallsBefore(env, ctx, demo[at..])
    else unheard <= done && calls == base + done[|unheard|..]
  }

  lemma HeardStart(silent: bool, env: Env, start: Context, demo: seq<Command>, base: seq<Call>)
    ensures Heard(silent, env, start, start, demo, 0, 0, [], base, base)
  {
    hide CallsBefore;
    assert demo[0..] == demo && [] + CallsBefore(env, start, demo) == CallsBefore(env, start, demo);
  }

  lemma HeardNext(silent: bool, env: Env, start: Context, ctx: Context, later: Context, demo: seq<Command>, at: nat,
                  seen: nat, done: seq<Call>, gain: seq<Call>, base: seq<Call>, had: seq<Call>, calls: seq<Call>)
    requires at < |demo| && Heard(silent, env, start, ctx, demo, at, seen, done, base, had)
    requires silent && seen == 0 && !demo[at].body.FullPacket? ==>
      HandleTrace(env, P.Advance(ctx, demo[at]), false, demo[at]) == Trace(gain, Some(later))
    requires calls == had + (if silent && seen == 0 && !demo[at].body.FullPacket? then [] else gain)
    ensures Heard(silent, env, start, later, demo, at + 1, if demo[at].body.FullPacket? then seen + 1 else seen,
                  done + gain, base, calls)
  {
    hide Handle, HandleShown;
    Unroll(demo, at);
    var unheard, rest := CallsBefore(env, start, demo), CallsBefore(env, later, demo[at + 1..]);
    if !silent {
      assert (base + done) + gain == base + (done + gain);
    } else if seen == 0 && !demo[at].body.FullPacket? {
      assert had + [] == had && done + (gain + rest) == (done + gain) + rest;
    } else {
      assert done + [] == done;
      assert (base + done[|unheard|..]) + gain == base + (done + gain)[|unheard|..];
    }
  }

  /** At the end, after a last command that was shown `gain` and failed, or after none. */
  lemma HeardEnd(silent: bool, env: Env, start: Context, ctx: Context, demo: seq<Command>, at: nat, seen: nat,
                 done: seq<Call>, gain: seq<Call>, base: seq<Call>, had: seq<Call>, calls: seq<Call>)
    requires at <= |demo| && Heard(silent, env, start, ctx, demo, at, seen, done, base, had)
    requires at == |demo| ==> gain == []
    requires silent && seen == 0 && at < |demo| && !demo[at].body.FullPacket? ==>
      HandleTrace(env, P.Advance(ctx, demo[at]), false, demo[at]) == Trace(gain, None)
    requires calls == had + (if silent && seen == 0 && at < |demo| && !demo[at].body.FullPacket? then [] else gain)
    ensures var unheard := if silent then CallsBefore(env, start, demo) else [];
      unheard <= done + gain && calls == base + (done + gain)[|unheard|..]
  {
    hide Handle, HandleShown;
    var unheard := CallsBefore(env, start, demo);
    if at == |demo| {
      assert demo[at..] == [];
    } else {
      Unroll(demo, at);
    }
    assert done + [] == done && gain + [] == gain && had + [] == had;
    if !silent {
      assert (base + done) + gain == base + (done + gain) && (done + gain)[0..] == done + gain;
    } else if seen == 0 && at < |demo| && !demo[at].body.FullPacket? {
      assert unheard == done + gain;
    } else {
      assert (base + done[|unheard|..]) + gain == base + (done + gain)[|unheard|..];
    }
  }

  /** What becomes of a command: nothing and the loop ends, or it is taken or skipped; the full packets seen
      with it, and whether its calls are part of the segment. */
  datatype Decision = Decision(cf: Option<ControlFlow>, seen: nat, collecting: bool)

  function SegmentDecision(body: Body, ordinal: nat, seen: nat, collecting: bool): Decision
  {
    if !body.FullPacket? then Decision(Some(if collecting || IsInit(body) then Take else Skip), seen, collecting)
    else if seen < ordinal then Decision(Some(Skip), seen + 1, collecting)
    else if seen == ordinal then Decision(Some(Take), seen + 1, true)
    else Decision(None, seen + 1, collecting)
  }

  lemma SegmentNext(env: Env, ctx: Context, demo: seq<Command>, at: nat, clean: bool, ordinal: nat, seen: nat,
      collecting: bool)
    requires at <= |demo|
    ensures var all := SegmentTrace(env, ctx, demo[at..], clean, ordinal, seen, collecting);
      if at == |demo| then all == Trace([], if clean then Some(ctx) else None)
      else
        var ctx1 := P.Advance(ctx, demo[at]);
        var d := SegmentDecision(demo[at].body, ordinal, seen, collecting);
        var h := HandleTrace(env, ctx1, !d.collecting, demo[at]);
        var gain := if d.collecting then h.calls else [];
        && (d.cf.None? ==> all == Trace([], Some(Stopped(ctx))))
        && (d.cf == Some(Take) && h.end.None? ==> all == Trace(gain, None))
        && (d.cf == Some(Take) && h.end.Some? ==>
              all == After(gain, SegmentTrace(env, h.end.value, demo[at + 1..], clean, ordinal, d.seen, d.collecting)))
        && (d.cf == Some(Skip) ==>
              all == After([], SegmentTrace(env, ctx1, demo[at + 1..], clean, ordinal, d.seen, d.collecting)))
  {
    hide Handle, HandleShown;
    if at < |demo| {
      Unroll(demo, at);
      var ctx1, d := P.Advance(ctx, demo[at]), SegmentDecision(demo[at].body, ordinal, seen, collecting);
      var h := HandleTrace(env, ctx1, !d.collecting, demo[at]);
      assert h.calls + [] == h.calls;
      AfterNothing(SegmentTrace(env, ctx1, demo[at + 1..], clean, ordinal, d.seen, d.collecting));
      if h.end.Some? {
        AfterNothing(SegmentTrace(env, h.end.value, demo[at + 1..], clean, ordinal, d.seen, d.collecting));
      }
    }
  }

  function SeekFullPacketTrace(env: Env, ctx: Context, cmd: Command, target: int): Trace
    requires cmd.body.FullPacket?
  {
    Trace(SeekFullPacketShown(env, ctx, cmd, target), EndOf(SeekFullPacket(env, ctx, cmd, target)))
  }

  /** What the loop of `run_to_tick` does with a command up to the target; the tick is already taken over. */
  function SeekOne(env: Env, ctx: Context, cmd: Command, target: int, synced: bool, last: bool): Trace
  {
    if synced && cmd.body.FullPacket? then SeekFullPacketTrace(env, ctx, cmd, target)
    else if !synced || last then HandleTrace(env, ctx, false, cmd)
    else Trace([], Some(ctx))
  }

  lemma SeekNext(env: Env, ctx: Context, demo: seq<Command>, at: nat, clean: bool, target: int, synced: bool,
      last: bool)
    requires at <= |demo|
    ensures var all := SeekTrace(env, ctx, demo[at..], clean, target, synced, last);
      if at == |demo| then all == Trace([], if clean then Some(ctx) else None)
      else if demo[at].tick > target then all == Trace([], Some(Stopped(ctx)))
      else
        var cmd, ctx1 := demo[at], P.Advance(ctx, demo[at]);
        var one := SeekOne(env, ctx1, cmd, target, synced, last);
        all == if one.end.None? then one
               else After(one.calls, SeekTrace(env, one.end.value, demo[at + 1..], clean, target,
                   synced || cmd.body.SyncTick?, if synced && cmd.body.FullPacket? then !Ahead(ctx1, target) else last))
  {
    hide Handle, HandleShown, SeekFullPacket, SeekFullPacketShown, Ahead;
    if at < |demo| {
      Unroll(demo, at);
      var ctx1 := P.Advance(ctx, demo[at]);
      var one := SeekOne(env, ctx1, demo[at], target, synced, last);
      assert one.calls + [] == one.calls;
      AfterNothing(SeekTrace(env, ctx1, demo[at + 1..], clean, target, synced, last));
    }
  }

  lemma RunNext(env: Env, ctx: Context, demo: seq<Command>, at: nat, clean: bool)
    requires at <= |demo|
    ensures var all := RunTrace(env, ctx, demo[at..], clean);
      if at == |demo| then all == Trace([], if clean then Some(ctx) else None)
      else
        var h := HandleTrace(env, P.Advance(ctx, demo[at]), false, demo[at]);
        all == if h.end.None? then h else After(h.calls, RunTrace(env, h.end.value, demo[at + 1..], clean))
  {
    hide Handle, HandleShown;
    if at < |demo| {
      Unroll(demo, at);
      var h := HandleTrace(env, P.Advance(ctx, demo[at]), false, demo[at]);
      assert h.calls + [] == h.calls;
    }
  }

  lemma TicksNext(demo: seq<Command>, at: nat)
    requires at <= |demo|
    ensures FullPacketTicks(demo[at..]) ==
      if at == |demo| then [] else
        (if demo[at].body.FullPacket? then [demo[at].tick] else []) + FullPacketTicks(demo[at + 1..])
  {
    if at < |demo| {
      Unroll(demo, at);
    }
  }

  lemma Unroll(demo: seq<Command>, at: nat)
    requires at < |demo|
    ensures demo[at..][0] == demo[at] && demo[at..][1..] == demo[at + 1..]
  {
  }
}
