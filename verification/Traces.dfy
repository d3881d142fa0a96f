/** The calls of a run that may fail: those made before it does. */
module Traces {
  import opened Prelude
  import opened Player

  /** The calls made, and the context at the end unless there was a failure. */
  datatype Trace = Trace(calls: seq<Call>, end: Option<Context>)

  function EndOf(o: Option<Out>): Option<Context>
  {
    if o.Some? then Some(o.value.ctx) else None
  }

  function After(calls: seq<Call>, t: Trace): Trace
  {
    Trace(calls + t.calls, t.end)
  }

  lemma AfterNothing(t: Trace)
    ensures After([], t) == t
  {
    assert [] + t.calls == t.calls;
  }

  lemma AfterAfter(a: seq<Call>, b: seq<Call>, t: Trace)
    ensures After(a, After(b, t)) == After(a + b, t)
  {
    assert a + (b + t.calls) == (a + b) + t.calls;
  }

  lemma AfterEnd(a: seq<Call>, end: Option<Context>)
    ensures After(a, Trace([], end)) == Trace(a, end)
  {
    assert a + [] == a;
  }

  // ---- messages

  function MessagesShown(env: Env, ctx: Context, skipEntities: bool, ms: seq<Message>, scope: Scope): seq<Call>
    decreases |ms|
  {
    if ms == [] then []
    else
      MessageCalls(env, ctx, skipEntities, ms[0], scope)
      + match ApplyMessage(env, ctx, skipEntities, ms[0])
        case Some(c) => MessagesShown(env, c, skipEntities, ms[1..], scope)
        case None => []
  }

  lemma {:induction false} MessagesShownIs(env: Env, ctx: Context, skipEntities: bool, ms: seq<Message>, scope: Scope)
    requires HandleMessages(env, ctx, skipEntities, ms, scope).Some?
    ensures MessagesShown(env, ctx, skipEntities, ms, scope)
         == HandleMessages(env, ctx, skipEntities, ms, scope).value.calls
    decreases |ms|
  {
    hide ApplyMessage, MessageCalls;
    if ms != [] {
      MessagesShownIs(env, ApplyMessage(env, ctx, skipEntities, ms[0]).value, skipEntities, ms[1..], scope);
    }
  }

  // ---- commands

  function BodyShown(env: Env, ctx: Context, skipEntities: bool, body: Body): seq<Call>
  {
    match body
    case Packet(ms) => MessagesShown(env, ctx, skipEntities, ms, Everything)
    case SignonPacket(ms) => MessagesShown(env, ctx, skipEntities, ms, Everything)
    case FullPacket(snapshots, Some(ms)) =>
      (match ApplySnapshots(ctx, snapshots)
       case Some(c) => MessagesShown(env, c, skipEntities, ms, NoEntities)
       case None => [])
    case _ => []
  }

  lemma BodyShownIs(env: Env, ctx: Context, skipEntities: bool, body: Body)
    requires HandleBody(env, ctx, skipEntities, body).Some?
    ensures BodyShown(env, ctx, skipEntities, body) == HandleBody(env, ctx, skipEntities, body).value.calls
  {
    hide HandleMessages, MessagesShown, ApplySnapshots;
    match body
    case Packet(ms) => MessagesShownIs(env, ctx, skipEntities, ms, Everything);
    case SignonPacket(ms) => MessagesShownIs(env, ctx, skipEntities, ms, Everything);
    case FullPacket(ss, Some(ms)) => MessagesShownIs(env, ApplySnapshots(ctx, ss).value, skipEntities, ms, NoEntities);
    case _ =>
  }

  function HandleShown(env: Env, ctx: Context, skipEntities: bool, cmd: Command): seq<Call>
  {
    [OnCmd(See(ctx, CommandScope(cmd)), ctx.prevTick, cmd)] + BodyShown(env, ctx, skipEntities, cmd.body)
    + match HandleBody(env, ctx, skipEntities, cmd.body)
      case Some(r) => TickEnd(r.ctx)
      case None => []
  }

  lemma HandleShownIs(env: Env, ctx: Context, skipEntities: bool, cmd: Command)
    requires Handle(env, ctx, skipEntities, cmd).Some?
    ensures HandleShown(env, ctx, skipEntities, cmd) == Handle(env, ctx, skipEntities, cmd).value.calls
  {
    hide HandleBody, BodyShown, See;
    BodyShownIs(env, ctx, skipEntities, cmd.body);
  }

  // ---- runs

  function RunShown(env: Env, ctx: Context, cmds: seq<Command>): seq<Call>
    decreases |cmds|
  {
    if cmds == [] then []
    else
      HandleShown(env, Advance(ctx, cmds[0]), false, cmds[0])
      + match Handle(env, Advance(ctx, cmds[0]), false, cmds[0])
        case Some(r) => RunShown(env, r.ctx, cmds[1..])
        case None => []
  }

  /** A run that gets through a part of a demo has shown that part when it goes on to the rest; one that fails in
      it shows nothing more.  What it has shown is a prefix of what it shows in all. */
  lemma {:induction false} RunShownSplits(env: Env, ctx: Context, cmds: seq<Command>, more: seq<Command>)
    ensures RunShown(env, ctx, cmds + more) ==
      match Run(env, ctx, cmds)
      case Some(o) => o.calls + RunShown(env, o.ctx, more)
      case None => RunShown(env, ctx, cmds)
    ensures RunShown(env, ctx, cmds) <= RunShown(env, ctx, cmds + more)
    decreases |cmds|
  {
    hide Handle, HandleShown;
    if cmds == [] {
      assert cmds + more == more && [] + RunShown(env, ctx, more) == RunShown(env, ctx, more);
    } else {
      var a := Advance(ctx, cmds[0]);
      assert (cmds + more)[0] == cmds[0] && (cmds + more)[1..] == cmds[1..] + more;
      if Handle(env, a, false, cmds[0]).Some? {
        var r := Handle(env, a, false, cmds[0]).value;
        HandleShownIs(env, a, false, cmds[0]);
        RunShownSplits(env, r.ctx, cmds[1..], more);
        match Run(env, r.ctx, cmds[1..])
        case Some(o) =>
          var later := RunShown(env, o.ctx, more);
          assert r.calls + (o.calls + later) == (r.calls + o.calls) + later;
        case None =>
      }
    }
  }

  lemma RunShownIs(env: Env, ctx: Context, cmds: seq<Command>)
    requires Run(env, ctx, cmds).Some?
    ensures RunShown(env, ctx, cmds) == Run(env, ctx, cmds).value.calls
  {
    hide Run;
    RunShownSplits(env, ctx, cmds, []);
    var o := Run(env, ctx, cmds).value;
    assert cmds + [] == cmds && o.calls + [] == o.calls;
    assert RunShown(env, o.ctx, []) == [];
  }

  /** What a segment collects. */
  function SegmentShown(env: Env, ctx: Context, cmds: seq<Command>, ordinal: nat, seen: nat,
      collecting: bool): seq<Call>
    decreases |cmds|
  {
    if cmds == [] then []
    else
      var cmd, rest := cmds[0], cmds[1..];
      var ctx1 := Advance(ctx, cmd);
      if cmd.body.FullPacket? && seen != ordinal then
        if seen < ordinal then SegmentShown(env, ctx1, rest, ordinal, seen + 1, collecting) else []
      else if cmd.body.FullPacket? || collecting then
        HandleShown(env, ctx1, false, cmd)
        + match Handle(env, ctx1, false, cmd)
          case Some(r) =>
            SegmentShown(env, r.ctx, rest, ordinal, if cmd.body.FullPacket? then seen + 1 else seen, true)
          case None => []
      else if IsInit(cmd.body) then
        match Handle(env, ctx1, true, cmd)
        case Some(r) => SegmentShown(env, r.ctx, rest, ordinal, seen, false)
        case None => []
      else SegmentShown(env, ctx1, rest, ordinal, seen, false)
  }

  lemma {:induction false} SegmentShownIs(env: Env, ctx: Context, cmds: seq<Command>, clean: bool, ordinal: nat,
      seen: nat, collecting: bool)
    requires SegmentFrom(env, ctx, cmds, clean, ordinal, seen, collecting).Some?
    ensures SegmentShown(env, ctx, cmds, ordinal, seen, collecting)
         == SegmentFrom(env, ctx, cmds, clean, ordinal, seen, collecting).value.calls
    decreases |cmds|
  {
    hide Handle, HandleShown;
    if cmds != [] {
      var cmd, rest := cmds[0], cmds[1..];
      var ctx1 := Advance(ctx, cmd);
      if cmd.body.FullPacket? && seen != ordinal {
        if seen < ordinal {
          SegmentShownIs(env, ctx1, rest, clean, ordinal, seen + 1, collecting);
        }
      } else if cmd.body.FullPacket? || collecting {
        HandleShownIs(env, ctx1, false, cmd);
        SegmentShownIs(env, Handle(env, ctx1, false, cmd).value.ctx, rest, clean, ordinal,
                       if cmd.body.FullPacket? then seen + 1 else seen, true);
      } else if IsInit(cmd.body) {
        SegmentShownIs(env, Handle(env, ctx1, true, cmd).value.ctx, rest, clean, ordinal, seen, false);
      } else {
        SegmentShownIs(env, ctx1, rest, clean, ordinal, seen, false);
      }
    }
  }

  function SeekFullPacketShown(env: Env, ctx: Context, cmd: Command, target: int): seq<Call>
    requires cmd.body.FullPacket?
  {
    var body := if Ahead(ctx, target) then cmd.body.(packet := None) else cmd.body;
    [OnCmd(See(ctx, InitOnly), ctx.prevTick, cmd)] + BodyShown(env, ctx, false, body)
    + match HandleBody(env, ctx, false, body)
      case Some(r) => [OnTickEnd(See(r.ctx, Everything))]
      case None => []
  }

  lemma SeekFullPacketShownIs(env: Env, ctx: Context, cmd: Command, target: int)
    requires cmd.body.FullPacket? && SeekFullPacket(env, ctx, cmd, target).Some?
    ensures SeekFullPacketShown(env, ctx, cmd, target) == SeekFullPacket(env, ctx, cmd, target).value.calls
  {
    hide HandleFullPacket, BodyShown, See, Ahead;
    BodyShownIs(env, ctx, false, if Ahead(ctx, target) then cmd.body.(packet := None) else cmd.body);
  }

  function SeekShown(env: Env, ctx: Context, cmds: seq<Command>, target: int, synced: bool, last: bool): seq<Call>
    decreases |cmds|
  {
    if cmds == [] || cmds[0].tick > target then []
    else
      var cmd, rest := cmds[0], cmds[1..];
      var ctx1 := Advance(ctx, cmd);
      if synced && cmd.body.FullPacket? then
        SeekFullPacketShown(env, ctx1, cmd, target)
        + match SeekFullPacket(env, ctx1, cmd, target)
          case Some(r) => SeekShown(env, r.ctx, rest, target, synced, !Ahead(ctx1, target))
          case None => []
      else if !synced || last then
        HandleShown(env, ctx1, false, cmd)
        + match Handle(env, ctx1, false, cmd)
          case Some(r) => SeekShown(env, r.ctx, rest, target, synced || cmd.body.SyncTick?, last)
          case None => []
      else SeekShown(env, ctx1, rest, target, synced, last)
  }

  lemma {:induction false} SeekShownIs(env: Env, ctx: Context, cmds: seq<Command>, clean: bool, target: int,
      synced: bool, last: bool)
    requires SeekFrom(env, ctx, cmds, clean, target, synced, last).Some?
    ensures SeekShown(env, ctx, cmds, target, synced, last)
         == SeekFrom(env, ctx, cmds, clean, target, synced, last).value.calls
    decreases |cmds|
  {
    hide Handle, HandleShown, SeekFullPacket, SeekFullPacketShown, Ahead;
    if cmds != [] && cmds[0].tick <= target {
      var cmd, rest := cmds[0], cmds[1..];
      var ctx1 := Advance(ctx, cmd);
      if synced && cmd.body.FullPacket? {
        SeekFullPacketShownIs(env, ctx1, cmd, target);
        SeekShownIs(env, SeekFullPacket(env, ctx1, cmd, target).value.ctx, rest, clean, target, synced,
                    !Ahead(ctx1, target));
      } else if !synced || last {
        HandleShownIs(env, ctx1, false, cmd);
        SeekShownIs(env, Handle(env, ctx1, false, cmd).value.ctx, rest, clean, target, synced || cmd.body.SyncTick?,
                    last);
      } else {
        SeekShownIs(env, ctx1, rest, clean, target, synced, last);
      }
    }
  }

  // ---- traces

  function MessageTrace(env: Env, ctx: Context, skipEntities: bool, m: Message, scope: Scope): Trace
  {
    Trace(MessageCalls(env, ctx, skipEntities, m, scope), ApplyMessage(env, ctx, skipEntities, m))
  }

  function MessagesTrace(env: Env, ctx: Context, skipEntities: bool, ms: seq<Message>, scope: Scope): Trace
  {
    Trace(MessagesShown(env, ctx, skipEntities, ms, scope), EndOf(HandleMessages(env, ctx, skipEntities, ms, scope)))
  }

  function BodyTrace(env: Env, ctx: Context, skipEntities: bool, body: Body): Trace
  {
    Trace(BodyShown(env, ctx, skipEntities, body), EndOf(HandleBody(env, ctx, skipEntities, body)))
  }

  function HandleTrace(env: Env, ctx: Context, skipEntities: bool, cmd: Command): Trace
  {
    Trace(HandleShown(env, ctx, skipEntities, cmd), EndOf(Handle(env, ctx, skipEntities, cmd)))
  }

  function RunTrace(env: Env, ctx: Context, cmds: seq<Command>, clean: bool): Trace
  {
    Trace(RunShown(env, ctx, cmds), if clean then EndOf(Run(env, ctx, cmds)) else None)
  }

  function SegmentTrace(env: Env, ctx: Context, cmds: seq<Command>, clean: bool, ordinal: nat, seen: nat,
      collecting: bool): Trace
  {
    Trace(SegmentShown(env, ctx, cmds, ordinal, seen, collecting),
          EndOf(SegmentFrom(env, ctx, cmds, clean, ordinal, seen, collecting)))
  }

  function SeekTrace(env: Env, ctx: Context, cmds: seq<Command>, clean: bool, target: int, synced: bool,
      last: bool): Trace
  {
    Trace(SeekShown(env, ctx, cmds, target, synced, last),
          EndOf(SeekFrom(env, ctx, cmds, clean, target, synced, last)))
  }
}
