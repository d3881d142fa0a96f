/** What the visitor is shown during a seek, told from the demo alone. */
module SeekRecords {
  import opened Prelude
  import opened Player
  import opened Segments
  import opened Seeking
  import opened TickEnds

  /** Up to the sync tick every command is shown; after it every full packet, and anything else only behind a full
      packet at most `reach` ticks before the target. */
  function Visited(tick: int, cmds: seq<Command>, target: int, reach: int, synced: bool, last: bool): seq<Stamped>
    decreases |cmds|
  {
    if cmds == [] || cmds[0].tick > target then []
    else
      var cmd, rest := cmds[0], cmds[1..];
      var here := Stamped(cmd.tick, tick, cmd);
      if !synced then [here] + Visited(cmd.tick, rest, target, reach, cmd.body.SyncTick?, last)
      else if cmd.body.FullPacket? then
        [here] + Visited(cmd.tick, rest, target, reach, true, target - cmd.tick <= reach)
      else if last then [here] + Visited(cmd.tick, rest, target, reach, true, true)
      else Visited(cmd.tick, rest, target, reach, true, false)
  }

  ghost predicate AllUnannounced(cmds: seq<Command>)
  {
    forall i | 0 <= i < |cmds| :: Unannounced(cmds[i].body)
  }

  /** `reach` is that of the commands still to come. */
  ghost predicate ReachIs(env: Env, ctx: Context, cmds: seq<Command>, synced: bool, base: Option<nat>, kept: int,
      reach: int)
  {
    if synced then Reaches(ctx, reach) && AllUnannounced(cmds)
    else
      && Knows(env, ctx, base, kept) && reach == FullPacketDistance(env, Latest(ThroughSync(cmds), base), kept) + 100
      && AllUnannounced(AfterSync(cmds))
  }

  lemma SeekFullPacketShows(env: Env, ctx: Context, cmd: Command, target: int)
    requires cmd.body.FullPacket? && ctx.tick == cmd.tick && SeekFullPacket(env, ctx, cmd, target).Some?
    ensures var r := SeekFullPacket(env, ctx, cmd, target).value;
      CommandCalls(r.calls) == [Stamped(cmd.tick, ctx.prevTick, cmd)] && r.ctx.tick == ctx.tick
    ensures Unannounced(cmd.body) ==> KeepsIntervals(ctx, SeekFullPacket(env, ctx, cmd, target).value.ctx)
  {
    hide HandleFullPacket, CommandCalls, Ahead;
    var body := if Ahead(ctx, target) then cmd.body.(packet := None) else cmd.body;
    BodyQuiet(env, ctx, false, body);
    var r := HandleFullPacket(env, ctx, false, body.snapshots, body.packet).value;
    var first, last := [OnCmd(See(ctx, InitOnly), ctx.prevTick, cmd)], [OnTickEnd(See(r.ctx, Everything))];
    CommandCallsConcat(first + r.calls, last);
    CommandCallsConcat(first, r.calls);
    NoCommandCalls(r.calls);
    NoCommandCalls(last);
    OneCommand(first);
    if Unannounced(cmd.body) {
      FullPacketKeepsIntervals(env, ctx, body.snapshots, body.packet);
    }
  }

  /** The step from one command to the next. */
  lemma ReachStays(env: Env, ctx: Context, cmds: seq<Command>, synced: bool, base: Option<nat>, kept: int, reach: int,
      later: Context)
    requires cmds != [] && ReachIs(env, ctx, cmds, synced, base, kept, reach)
    requires if synced then KeepsIntervals(ctx, later) else Knows(env, later, LatestInBody(cmds[0].body, base), kept)
    ensures ReachIs(env, later, cmds[1..], synced || cmds[0].body.SyncTick?, LatestInBody(cmds[0].body, base), kept,
                    reach)
  {
    hide LatestInBody, Unannounced;
    if !synced {
      var t := ThroughSync(cmds);
      if cmds[0].body.SyncTick? {
        var now := LatestInBody(cmds[0].body, base);
        assert t == [cmds[0]] && t[1..] == [] && Latest([], now) == now;
      } else {
        assert t[0] == cmds[0] && t[1..] == ThroughSync(cmds[1..]);
      }
    }
  }

  lemma {:induction false} SeekVisits(env: Env, ctx: Context, cmds: seq<Command>, clean: bool, target: int,
      synced: bool, last: bool, base: Option<nat>, kept: int, reach: int)
    requires SeekFrom(env, ctx, cmds, clean, target, synced, last).Some?
    requires ReachIs(env, ctx, cmds, synced, base, kept, reach)
    ensures CommandCalls(SeekFrom(env, ctx, cmds, clean, target, synced, last).value.calls)
         == Visited(ctx.tick, cmds, target, reach, synced, last)
    decreases |cmds|
  {
    hide Handle, SeekFullPacket, CommandCalls, Ahead, Knows, LatestInBody, KeepsIntervals, ReachIs, Unannounced;
    NoCommandCalls([]);
    if cmds != [] && cmds[0].tick <= target {
      var cmd, rest := cmds[0], cmds[1..];
      var a := Advance(ctx, cmd);
      var later := LatestInBody(cmd.body, base);
      AdvanceReach(env, ctx, cmds, synced, base, kept, reach);
      if !synced {
        var r := Handle(env, a, false, cmd).value;
        HandleShowsCommand(env, a, false, cmd);
        HandleKnows(env, a, cmds, base, kept, reach);
        ReachStays(env, a, cmds, synced, base, kept, reach, r.ctx);
        SeekVisits(env, r.ctx, rest, clean, target, cmd.body.SyncTick?, last, later, kept, reach);
        CommandCallsConcat(r.calls, SeekFrom(env, r.ctx, rest, clean, target, cmd.body.SyncTick?, last).value.calls);
      } else if cmd.body.FullPacket? {
        var r := SeekFullPacket(env, a, cmd, target).value;
        SeekFullPacketShows(env, a, cmd, target);
        NowUnannounced(env, a, cmds, base, kept, reach);
        ReachStays(env, a, cmds, synced, base, kept, reach, r.ctx);
        SeekVisits(env, r.ctx, rest, clean, target, true, !Ahead(a, target), later, kept, reach);
        CommandCallsConcat(r.calls, SeekFrom(env, r.ctx, rest, clean, target, true, !Ahead(a, target)).value.calls);
        NotAheadIsNear(a, cmd, target, reach);
      } else if last {
        var r := Handle(env, a, false, cmd).value;
        HandleShowsCommand(env, a, false, cmd);
        NowUnannounced(env, a, cmds, base, kept, reach);
        HandleKeepsIntervals(env, a, cmd);
        ReachStays(env, a, cmds, synced, base, kept, reach, r.ctx);
        SeekVisits(env, r.ctx, rest, clean, target, true, true, later, kept, reach);
        CommandCallsConcat(r.calls, SeekFrom(env, r.ctx, rest, clean, target, true, true).value.calls);
      } else {
        SelfKeeps(a);
        ReachStays(env, a, cmds, synced, base, kept, reach, a);
        SeekVisits(env, a, rest, clean, target, true, false, later, kept, reach);
      }
    }
  }

  lemma SelfKeeps(a: Context)
    ensures KeepsIntervals(a, a)
  {
  }

  lemma AdvanceReach(env: Env, ctx: Context, cmds: seq<Command>, synced: bool, base: Option<nat>, kept: int, reach: int)
    requires cmds != [] && ReachIs(env, ctx, cmds, synced, base, kept, reach)
    ensures ReachIs(env, Advance(ctx, cmds[0]), cmds, synced, base, kept, reach)
  {
  }

  lemma NowUnannounced(env: Env, ctx: Context, cmds: seq<Command>, base: Option<nat>, kept: int, reach: int)
    requires cmds != [] && ReachIs(env, ctx, cmds, true, base, kept, reach)
    ensures Unannounced(cmds[0].body) && Reaches(ctx, reach)
  {
  }

  lemma HandleKnows(env: Env, ctx: Context, cmds: seq<Command>, base: Option<nat>, kept: int, reach: int)
    requires cmds != [] && ReachIs(env, ctx, cmds, false, base, kept, reach)
    requires Handle(env, ctx, false, cmds[0]).Some?
    ensures Knows(env, Handle(env, ctx, false, cmds[0]).value.ctx, LatestInBody(cmds[0].body, base), kept)
  {
    hide Handle;
    HandleAnnounces(env, ctx, cmds[0], base, kept);
  }

  /** For every seek that succeeds over a demo announcing no tick interval after its sync tick: the visitor is shown
      exactly these commands with the ticks of the file, each with its tick ended as the record says. */
  lemma SeekRecord(env: Env, ctx: Context, cmds: seq<Command>, clean: bool, target: int)
    requires Seek(env, ctx, cmds, clean, target).Some? && AllUnannounced(AfterSync(cmds))
    ensures var calls := Seek(env, ctx, cmds, clean, target).value.calls;
      && InBlocks(calls, Phase.Seeking)
      && CommandCalls(calls) == Visited(-1, cmds, target, Reach(env, ctx.fullPacketInterval, cmds), false, false)
  {
    SeekInBlocks(env, ResetContext(ctx), cmds, clean, target, false, false);
    SeekVisits(env, ResetContext(ctx), cmds, clean, target, false, false, None, ctx.fullPacketInterval,
               Reach(env, ctx.fullPacketInterval, cmds));
  }
}
