/** Seeking to a tick ends where handling every command up to that tick ends. */
module Seeking {
  import opened Prelude
  import opened Bits
  import opened FxHash
  import opened FieldPaths
  import opened Serializers
  import opened FlatTrees
  import opened FieldPathCodec
  import opened StringTables
  import opened Entities
  import opened EntitySnapshots
  import opened Snapshots
  import opened Following
  import opened Player

  /** The commands with a tick of at most `target`. */
  function Upto(cmds: seq<Command>, target: int): seq<Command>
  {
    if cmds == [] then []
    else (if cmds[0].tick <= target then [cmds[0]] else []) + Upto(cmds[1..], target)
  }

  ghost predicate Nondecreasing(cmds: seq<Command>)
  {
    forall i, j | 0 <= i < j < |cmds| :: cmds[i].tick <= cmds[j].tick
  }

  lemma {:induction false} UptoNothing(cmds: seq<Command>, target: int)
    requires Nondecreasing(cmds) && cmds != [] && cmds[0].tick > target
    ensures Upto(cmds, target) == []
    decreases |cmds|
  {
    var rest := cmds[1..];
    if rest != [] {
      UptoNothing(rest, target);
    }
  }

  lemma UptoStep(cmds: seq<Command>, target: int)
    requires cmds != [] && cmds[0].tick <= target
    ensures Upto(cmds, target) != [] && Upto(cmds, target)[0] == cmds[0]
        && Upto(cmds, target)[1..] == Upto(cmds[1..], target)
  {
  }

  // ---- what the sequential run must satisfy

  /** A full packet at most `reach` ticks before the target. */
  predicate Near(cmd: Command, target: int, reach: int)
  {
    cmd.body.FullPacket? && target - cmd.tick <= reach
  }

  ghost predicate HasNear(cmds: seq<Command>, target: int, reach: int)
  {
    exists i :: 0 <= i < |cmds| && Near(cmds[i], target, reach)
  }

  /** No message announces a tick interval. */
  predicate NoneAnnounce(ms: seq<Message>)
  {
    forall i | 0 <= i < |ms| :: !ms[i].ServerInfo?
  }

  predicate Unannounced(body: Body)
  {
    match body
    case Packet(ms) => NoneAnnounce(ms)
    case SignonPacket(ms) => NoneAnnounce(ms)
    case FullPacket(_, packet) => packet.Some? ==> NoneAnnounce(packet.value)
    case _ => true
  }

  /** Until the sync tick: the bytes of a cached baseline stay as they are. */
  ghost predicate GoodInit(env: Env, ctx: Context, cmd: Command)
  {
    match cmd.body
    case Packet(ms) => GoodMessages(env, ctx, ms, true)
    case SignonPacket(ms) => GoodMessages(env, ctx, ms, true)
    case FullPacket(_, _) => GoodFullPacket(env, ctx, cmd.body)
    case _ => true
  }

  /** After it: nothing is initialized any more.  `synced` is the container at the sync tick.  Until the
      seek has caught up, a full packet with another ahead restates the string tables; one without is a
      snapshot for one who holds what lived at the sync tick. */
  ghost predicate GoodLater(env: Env, ctx: Context, cmd: Command, target: int, reach: int, synced: Container,
                            caughtUp: bool)
  {
    && !cmd.body.SignonPacket? && Unannounced(cmd.body)
    && (cmd.body.SendTables? ==> ctx.serializers.Some?)
    && (cmd.body.ClassInfo? ==> ctx.classes.Some?)
    && GoodCommand(env, ctx, cmd, true, false)
    && (cmd.body.FullPacket? && !caughtUp ==>
          if !Near(cmd, target, reach) then cmd.body.snapshots.Some? && Restates(ctx.tables, cmd.body.snapshots.value)
          else IsSnapshot(env, ctx, cmd.body, synced))
  }

  /** Along the handling of `cmds`, all up to the target, after the sync tick. */
  ghost predicate GoodAfter(env: Env, ctx: Context, cmds: seq<Command>, target: int, reach: int, synced: Container,
                            caughtUp: bool)
    decreases |cmds|
  {
    cmds != [] ==>
      var cmd, ctx1 := cmds[0], Advance(ctx, cmds[0]);
      && GoodLater(env, ctx1, cmd, target, reach, synced, caughtUp)
      && var r := Handle(env, ctx1, false, cmd);
         r.Some? ==> GoodAfter(env, r.value.ctx, cmds[1..], target, reach, synced,
                               caughtUp || Near(cmd, target, reach))
  }

  ghost predicate GoodSeek(env: Env, ctx: Context, cmds: seq<Command>, target: int, reach: int)
    decreases |cmds|
  {
    cmds != [] ==>
      var cmd, ctx1 := cmds[0], Advance(ctx, cmds[0]);
      && GoodInit(env, ctx1, cmd)
      && var r := Handle(env, ctx1, false, cmd);
         r.Some? ==>
           if cmd.body.SyncTick? then
             GoodAfter(env, r.value.ctx, cmds[1..], target, reach, r.value.ctx.container, false)
           else GoodSeek(env, r.value.ctx, cmds[1..], target, reach)
  }

  /** The context at the first sync tick, and the commands after it. */
  datatype Synced = Synced(ctx: Context, rest: seq<Command>)

  function AtSync(env: Env, ctx: Context, cmds: seq<Command>): Option<Synced>
    decreases |cmds|
  {
    if cmds == [] then None else
    match Handle(env, Advance(ctx, cmds[0]), false, cmds[0])
    case None => None
    case Some(r) =>
      if cmds[0].body.SyncTick? then Some(Synced(r.ctx, cmds[1..])) else AtSync(env, r.ctx, cmds[1..])
  }

  /** The seek takes a full packet for the last one when it is at most `reach` ticks before the target. */
  predicate Reaches(ctx: Context, reach: int)
  {
    ctx.fullPacketInterval + AHEAD_SLACK == reach
  }

  lemma NotAheadIsNear(ctx: Context, cmd: Command, target: int, reach: int)
    requires ctx.tick == cmd.tick && Reaches(ctx, reach)
    ensures cmd.body.FullPacket? ==> (Near(cmd, target, reach) <==> !Ahead(ctx, target))
  {
  }

  /** Nothing follows the sync tick, or a full packet near the target does. */
  ghost predicate Reachable(at: Option<Synced>, target: int, reach: int)
  {
    at.Some? && at.value.rest != [] ==> HasNear(at.value.rest, target, reach)
  }

  ghost predicate SameLive(a: Container, b: Container)
  {
    a.entities == b.entities && a.skipped == b.skipped
  }

  /** The same entities, string tables, baselines, init state and tick. */
  ghost predicate SameState(a: Context, b: Context)
  {
    && SameLive(a.container, b.container)
    && SameItems(a.tables, b.tables) && BaselinesIn(a) == BaselinesIn(b)
    && a.classes == b.classes && a.serializers == b.serializers && a.interval == b.interval
    && a.fullPacketInterval == b.fullPacketInterval && a.tick == b.tick
  }

  lemma InStepSameState(a: Context, b: Context)
    requires InStep(a, b, map[]) && a.fullPacketInterval == b.fullPacketInterval
    ensures SameState(a, b) && SameState(a, Stopped(b))
  {
    AgreeAll(a.container, b.container);
    BaselinesSame(a, b);
    hide CurrentBaselines;
    assert BaselinesIn(Stopped(b)) == BaselinesIn(b);
  }

  /** The seek ends well, in the state of the sequential run. */
  ghost predicate Arrives(a: Option<Out>, b: Option<Out>)
    requires a.Some?
  {
    b.Some? && SameState(a.value.ctx, b.value.ctx)
  }

  ghost predicate Ends(cmds: seq<Command>, clean: bool, target: int)
  {
    clean || exists i :: 0 <= i < |cmds| && cmds[i].tick > target
  }

  lemma EndsLater(cmds: seq<Command>, clean: bool, target: int)
    requires cmds != [] && Ends(cmds, clean, target) && cmds[0].tick <= target
    ensures Ends(cmds[1..], clean, target)
  {
  }

  lemma NearLater(cmds: seq<Command>, target: int, reach: int)
    requires cmds != [] && !Near(cmds[0], target, reach)
    ensures HasNear(cmds[1..], target, reach) <==> HasNear(cmds, target, reach)
  {
    forall i | 0 <= i < |cmds[1..]|
      ensures cmds[1..][i] == cmds[i + 1]
    {
    }
    if HasNear(cmds, target, reach) {
      var i :| 0 <= i < |cmds| && Near(cmds[i], target, reach);
      assert Near(cmds[1..][i - 1], target, reach);
    }
  }

  // ---- the intervals stay

  predicate KeepsIntervals(a: Context, later: Context)
  {
    later.interval == a.interval && later.fullPacketInterval == a.fullPacketInterval
  }

  lemma {:induction false} MessagesKeepIntervals(env: Env, ctx: Context, ms: seq<Message>, scope: Scope)
    requires NoneAnnounce(ms) && HandleMessages(env, ctx, false, ms, scope).Some?
    ensures KeepsIntervals(ctx, HandleMessages(env, ctx, false, ms, scope).value.ctx)
    decreases |ms|
  {
    hide MessageCalls, HandleEntries, ParseUpdate, FindTable, Indexable, BaselinesIn;
    if ms != [] {
      MessagesKeepIntervals(env, ApplyMessage(env, ctx, false, ms[0]).value, ms[1..], scope);
    }
  }

  lemma FullPacketKeepsIntervals(env: Env, ctx: Context, ss: Option<seq<Snapshot>>, packet: Option<seq<Message>>)
    requires packet.Some? ==> NoneAnnounce(packet.value)
    requires HandleFullPacket(env, ctx, false, ss, packet).Some?
    ensures KeepsIntervals(ctx, HandleFullPacket(env, ctx, false, ss, packet).value.ctx)
  {
    hide HandleMessages, FullUpdates, Indexable;
    if packet.Some? {
      MessagesKeepIntervals(env, ApplySnapshots(ctx, ss).value, packet.value, NoEntities);
    }
  }

  lemma HandleKeepsIntervals(env: Env, ctx: Context, cmd: Command)
    requires Unannounced(cmd.body) && Handle(env, ctx, false, cmd).Some?
    ensures KeepsIntervals(ctx, Handle(env, ctx, false, cmd).value.ctx)
  {
    hide HandleMessages, HandleFullPacket, Indexable, See;
    match cmd.body
    case Packet(ms) => MessagesKeepIntervals(env, ctx, ms, Everything);
    case SignonPacket(ms) => MessagesKeepIntervals(env, ctx, ms, Everything);
    case FullPacket(ss, packet) => FullPacketKeepsIntervals(env, ctx, ss, packet);
    case _ =>
  }

  // ---- one command

  lemma InitSoundStep(env: Env, ctx: Context, cmd: Command)
    requires Sound(env, ctx) && GoodInit(env, ctx, cmd) && Handle(env, ctx, false, cmd).Some?
    ensures Sound(env, Handle(env, ctx, false, cmd).value.ctx)
  {
    hide HandleMessages, HandleFullPacket, GoodMessages, GoodFullPacket, HandleSendTables, HandleClassInfo, Sound, See;
    match cmd.body
    case Packet(ms) => MessagesSound(env, ctx, ms, true, Everything);
    case SignonPacket(ms) => MessagesSound(env, ctx, ms, true, Everything);
    case FullPacket(_, _) => FullPacketSound(env, ctx, cmd.body);
    case SendTables(_) => InitSound(env, ctx, cmd);
    case ClassInfo(_) => InitSound(env, ctx, cmd);
    case _ =>
  }

  /** What the run does to its own context at any command after the sync tick. */
  lemma LaterStep(env: Env, a: Context, cmd: Command, target: int, reach: int, synced: Container, caughtUp: bool)
    requires Sound(env, a) && GoodLater(env, a, cmd, target, reach, synced, caughtUp)
    requires Handle(env, a, false, cmd).Some?
    ensures Sound(env, Handle(env, a, false, cmd).value.ctx)
    ensures KeepsIntervals(a, Handle(env, a, false, cmd).value.ctx)
  {
    hide Handle, Sound, GoodCommand, IsSnapshot, Restates;
    HandleSound(env, a, cmd, true, false);
    HandleKeepsIntervals(env, a, cmd);
  }

  /** A command the seek skips leaves it behind the run. */
  lemma SkippedStaysBehind(env: Env, a: Context, b: Context, cmd: Command, target: int, reach: int, synced: Container)
    requires Sound(env, a) && Behind(a, b) && !cmd.body.FullPacket?
    requires GoodLater(env, a, cmd, target, reach, synced, false)
    requires Handle(env, a, false, cmd).Some?
    ensures Behind(Handle(env, a, false, cmd).value.ctx, b)
  {
    hide HandleMessages, GoodMessages, Sound, Behind, TablesBelow, CacheBelow, See;
    match cmd.body
    case Packet(ms) =>
      MessagesGrow(env, a, ms, Everything);
      GrewBehind(a, HandleMessages(env, a, false, ms, Everything).value.ctx, b);
    case _ =>
  }

  /** An intermediate full packet gives the seek its string tables only. */
  lemma AheadStaysBehind(env: Env, a: Context, b: Context, cmd: Command, target: int, reach: int, synced: Container)
    requires Sound(env, a) && Behind(a, b) && cmd.body.FullPacket?
    requires GoodLater(env, a, cmd, target, reach, synced, false)
    requires Ahead(a, target) && Ahead(b, target) && Handle(env, a, false, cmd).Some?
    requires a.tick == cmd.tick && Reaches(a, reach)
    ensures SeekFullPacket(env, b, cmd, target).Some?
    ensures var c := SeekFullPacket(env, b, cmd, target).value.ctx;
      && Behind(Handle(env, a, false, cmd).value.ctx, c)
      && KeepsIntervals(b, c) && c.container == b.container
  {
    hide HandleMessages, GoodMessages, Restates, CacheCurrent, FullUpdates, Indexable, KeepsBytes, See,
        Behind, TablesBelow, SameItems, InStep, UniqueNames;
    var ss, p := cmd.body.snapshots, cmd.body.packet;
    SnapshotsCatchUp(a, b, ss.value);
    var ca, cb := ApplySnapshots(a, ss).value, ApplySnapshots(b, ss).value;
    if p.Some? {
      MessagesGrow(env, ca, p.value, NoEntities);
      GrewBehind(ca, HandleMessages(env, ca, false, p.value, NoEntities).value.ctx, cb);
    }
  }

  lemma SeekFullPacketCatchesUp(env: Env, a: Context, b: Context, cmd: Command, target: int, reach: int,
      synced: Container)
    requires Sound(env, a) && cmd.body.FullPacket?
    requires GoodLater(env, a, cmd, target, reach, synced, false)
    requires Behind(a, b) && KeepsIntervals(a, b) && b.container == synced
    requires !Ahead(a, target) && !Ahead(b, target) && Handle(env, a, false, cmd).Some?
    requires a.tick == cmd.tick && Reaches(a, reach)
    ensures SeekFullPacket(env, b, cmd, target).Some?
    ensures var c := SeekFullPacket(env, b, cmd, target).value.ctx;
      InStep(Handle(env, a, false, cmd).value.ctx, c, map[]) && KeepsIntervals(b, c)
  {
    hide HandleFullPacket, GoodFullPacket, IsSnapshot, Sound, Behind, InStep, See;
    FullPacketCatchesUp(env, a, b, cmd.body);
    FullPacketKeepsIntervals(env, b, cmd.body.snapshots, cmd.body.packet);
  }

  lemma SeekFullPacketInStep(env: Env, a: Context, b: Context, cmd: Command, target: int, reach: int, synced: Container)
    requires Sound(env, a) && InStep(a, b, map[]) && cmd.body.FullPacket?
    requires GoodLater(env, a, cmd, target, reach, synced, true)
    requires !Ahead(b, target) && Handle(env, a, false, cmd).Some?
    ensures SeekFullPacket(env, b, cmd, target).Some?
    ensures var c := SeekFullPacket(env, b, cmd, target).value.ctx;
      InStep(Handle(env, a, false, cmd).value.ctx, c, map[]) && KeepsIntervals(b, c)
  {
    hide HandleFullPacket, GoodFullPacket, IsSnapshot, Sound, InStep, See;
    FullPacketInStep(env, a, b, cmd.body);
    FullPacketKeepsIntervals(env, b, cmd.body.snapshots, cmd.body.packet);
  }

  // ---- the three phases

  /** After the last full packet. */
  lemma {:induction false} SeekInStep(env: Env, a: Context, b: Context, cmds: seq<Command>, clean: bool, target: int,
                                      reach: int, near: int, synced: Container)
    requires Nondecreasing(cmds) && Ends(cmds, clean, target)
    requires Sound(env, a) && InStep(a, b, map[]) && a.fullPacketInterval == b.fullPacketInterval
    requires GoodAfter(env, a, Upto(cmds, target), target, reach, synced, true)
    requires Reaches(a, reach) && target - near <= reach && forall i | 0 <= i < |cmds| :: near <= cmds[i].tick
    requires Run(env, a, Upto(cmds, target)).Some?
    ensures Arrives(Run(env, a, Upto(cmds, target)), SeekFrom(env, b, cmds, clean, target, true, true))
    decreases |cmds|
  {
    hide Handle, GoodLater, Sound, InStep, SeekFullPacket, SameState;
    if cmds == [] {
      InStepSameState(a, b);
    } else if cmds[0].tick > target {
      UptoNothing(cmds, target);
      InStepSameState(a, b);
    } else {
      var cmd, rest := cmds[0], cmds[1..];
      var a1, b1 := Advance(a, cmd), Advance(b, cmd);
      UptoStep(cmds, target);
      EndsLater(cmds, clean, target);
      AdvanceSound(env, a, cmd);
      AdvanceInStep(a, b, cmd);
      LaterStep(env, a1, cmd, target, reach, synced, true);
      StepInStep(env, a1, b1, cmd, target, reach, synced);
      var ra := Handle(env, a1, false, cmd).value;
      var cb := if cmd.body.FullPacket? then SeekFullPacket(env, b1, cmd, target).value
          else Handle(env, b1, false, cmd).value;
      SeekInStep(env, ra.ctx, cb.ctx, rest, clean, target, reach, near, synced);
    }
  }

  lemma StepInStep(env: Env, a: Context, b: Context, cmd: Command, target: int, reach: int, synced: Container)
    requires Sound(env, a) && InStep(a, b, map[]) && a.fullPacketInterval == b.fullPacketInterval
    requires GoodLater(env, a, cmd, target, reach, synced, true) && Handle(env, a, false, cmd).Some?
    requires b.tick == cmd.tick && Reaches(a, reach) && target - cmd.tick <= reach
    ensures !Ahead(b, target)
    ensures var r := if cmd.body.FullPacket? then SeekFullPacket(env, b, cmd, target) else Handle(env, b, false, cmd);
      r.Some? && InStep(Handle(env, a, false, cmd).value.ctx, r.value.ctx, map[]) && KeepsIntervals(b, r.value.ctx)
  {
    hide Handle, Sound, InStep, GoodCommand, SeekFullPacket, IsSnapshot, Restates;
    if cmd.body.FullPacket? {
      SeekFullPacketInStep(env, a, b, cmd, target, reach, synced);
    } else {
      HandleInStep(env, a, b, cmd, false);
      HandleKeepsIntervals(env, b, cmd);
    }
  }

  /** What the seek is, between the sync tick and the last full packet. */
  ghost predicate Lags(a: Context, b: Context, synced: Container)
  {
    Behind(a, b) && KeepsIntervals(a, b) && b.container == synced
  }

  lemma AdvanceLags(a: Context, b: Context, cmd: Command, synced: Container)
    requires Lags(a, b, synced)
    ensures Lags(Advance(a, cmd), Advance(b, cmd), synced)
    ensures forall target: int :: Ahead(Advance(a, cmd), target) == Ahead(Advance(b, cmd), target)
  {
  }

  /** With no full packet near the target the seek keeps what lived at the sync tick; with one it arrives. */
  lemma {:induction false} SeekLags(env: Env, a: Context, b: Context, cmds: seq<Command>, clean: bool, target: int,
                                    reach: int, synced: Container)
    requires Nondecreasing(cmds) && Ends(cmds, clean, target)
    requires Sound(env, a) && Lags(a, b, synced) && Reaches(a, reach)
    requires GoodAfter(env, a, Upto(cmds, target), target, reach, synced, false)
    requires Run(env, a, Upto(cmds, target)).Some?
    ensures SeekFrom(env, b, cmds, clean, target, true, false).Some?
    ensures if HasNear(Upto(cmds, target), target, reach)
      then Arrives(Run(env, a, Upto(cmds, target)), SeekFrom(env, b, cmds, clean, target, true, false))
      else SeekFrom(env, b, cmds, clean, target, true, false).value.ctx.container == synced
    decreases |cmds|
  {
    hide Handle, GoodLater, Sound, InStep, Lags, SeekFullPacket, SameState, HasNear, KeepsIntervals, Ahead;
    if cmds == [] || cmds[0].tick > target {
      if cmds != [] {
        UptoNothing(cmds, target);
      }
      NoneNear(target, reach);
      LagsContainer(a, b, synced);
    } else {
      var cmd, rest := cmds[0], cmds[1..];
      var a1, b1 := Advance(a, cmd), Advance(b, cmd);
      UptoStep(cmds, target);
      EndsLater(cmds, clean, target);
      AdvanceSound(env, a, cmd);
      AdvanceLags(a, b, cmd, synced);
      LaterStep(env, a1, cmd, target, reach, synced, false);
      var ra := Handle(env, a1, false, cmd).value;
      IntervalKept(a1, ra.ctx);
      NotAheadIsNear(a1, cmd, target, reach);
      if cmd.body.FullPacket? && !Ahead(a1, target) {
        IsNear(cmd, target, reach, Upto(cmds, target));
        CatchUpLags(env, a1, b1, cmd, target, reach, synced);
        SeekInStep(env, ra.ctx, SeekFullPacket(env, b1, cmd, target).value.ctx, rest, clean, target, reach, cmd.tick,
                   synced);
      } else {
        NotNear(cmd, target, reach);
        NearLater(Upto(cmds, target), target, reach);
        StillLags(env, a1, b1, cmd, target, reach, synced);
        var cb := if cmd.body.FullPacket? then SeekFullPacket(env, b1, cmd, target).value.ctx else b1;
        SeekLags(env, ra.ctx, cb, rest, clean, target, reach, synced);
      }
    }
  }

  lemma NoneNear(target: int, reach: int)
    ensures !HasNear([], target, reach)
  {
  }

  lemma LagsContainer(a: Context, b: Context, synced: Container)
    requires Lags(a, b, synced)
    ensures b.container == synced
  {
  }

  lemma IntervalKept(a: Context, later: Context)
    requires KeepsIntervals(a, later)
    ensures later.fullPacketInterval == a.fullPacketInterval
  {
  }

  lemma IsNear(cmd: Command, target: int, reach: int, cmds: seq<Command>)
    requires Near(cmd, target, reach) && cmds != [] && cmds[0] == cmd
    ensures HasNear(cmds, target, reach) && target - cmd.tick <= reach
  {
    assert Near(cmds[0], target, reach);
  }

  lemma NotNear(cmd: Command, target: int, reach: int)
    requires cmd.body.FullPacket? ==> !Near(cmd, target, reach)
    ensures !Near(cmd, target, reach)
  {
  }

  lemma CatchUpLags(env: Env, a: Context, b: Context, cmd: Command, target: int, reach: int, synced: Container)
    requires Sound(env, a) && Lags(a, b, synced) && cmd.body.FullPacket?
    requires GoodLater(env, a, cmd, target, reach, synced, false) && Handle(env, a, false, cmd).Some?
    requires !Ahead(a, target) && !Ahead(b, target) && a.tick == cmd.tick && Reaches(a, reach)
    ensures SeekFullPacket(env, b, cmd, target).Some?
    ensures var la, lb := Handle(env, a, false, cmd).value.ctx, SeekFullPacket(env, b, cmd, target).value.ctx;
      InStep(la, lb, map[]) && la.fullPacketInterval == lb.fullPacketInterval
  {
    hide Handle, SeekFullPacket, Sound, Behind, InStep, GoodLater, Ahead;
    SeekFullPacketCatchesUp(env, a, b, cmd, target, reach, synced);
    LaterStep(env, a, cmd, target, reach, synced, false);
  }

  lemma StillLags(env: Env, a: Context, b: Context, cmd: Command, target: int, reach: int, synced: Container)
    requires Sound(env, a) && Lags(a, b, synced)
    requires GoodLater(env, a, cmd, target, reach, synced, false) && Handle(env, a, false, cmd).Some?
    requires cmd.body.FullPacket? ==> Ahead(a, target) && Ahead(b, target)
    requires a.tick == cmd.tick && Reaches(a, reach)
    ensures cmd.body.FullPacket? ==> SeekFullPacket(env, b, cmd, target).Some?
    ensures Lags(Handle(env, a, false, cmd).value.ctx,
                 if cmd.body.FullPacket? then SeekFullPacket(env, b, cmd, target).value.ctx else b, synced)
  {
    hide Handle, SeekFullPacket, Sound, Behind, GoodLater, Ahead;
    LaterStep(env, a, cmd, target, reach, synced, false);
    if cmd.body.FullPacket? {
      AheadStaysBehind(env, a, b, cmd, target, reach, synced);
    } else {
      SkippedStaysBehind(env, a, b, cmd, target, reach, synced);
    }
  }

  lemma SelfLags(a: Context)
    ensures Lags(a, a, a.container)
  {
  }

  predicate ReachesAtSync(at: Option<Synced>, reach: int)
  {
    at.Some? ==> Reaches(at.value.ctx, reach)
  }

  /** The seek against the run: `at` is the sync tick. */
  ghost predicate Outcome(at: Option<Synced>, run: Option<Out>, seek: Option<Out>, target: int,
                          reach: int)
    requires run.Some?
  {
    && seek.Some?
    && (if Reachable(at, target, reach) then SameState(run.value.ctx, seek.value.ctx)
        else SameLive(seek.value.ctx.container, at.value.ctx.container))
  }

  /** Up to the sync tick the seek is the run. */
  lemma {:induction false} SeekSynced(env: Env, a: Context, cmds: seq<Command>, clean: bool, target: int, reach: int)
    requires Nondecreasing(cmds) && Ends(cmds, clean, target)
    requires Sound(env, a) && GoodSeek(env, a, Upto(cmds, target), target, reach)
    requires ReachesAtSync(AtSync(env, a, Upto(cmds, target)), reach)
    requires Run(env, a, Upto(cmds, target)).Some?
    ensures Outcome(AtSync(env, a, Upto(cmds, target)), Run(env, a, Upto(cmds, target)),
                    SeekFrom(env, a, cmds, clean, target, false, false), target, reach)
    decreases |cmds|
  {
    hide Handle, GoodInit, GoodAfter, Sound, SeekFullPacket, SameState, HasNear;
    if cmds == [] {
      SelfSameState(a);
    } else if cmds[0].tick > target {
      UptoNothing(cmds, target);
      SelfSameState(a);
    } else {
      var cmd, rest := cmds[0], cmds[1..];
      var a1 := Advance(a, cmd);
      UptoStep(cmds, target);
      EndsLater(cmds, clean, target);
      AdvanceSound(env, a, cmd);
      InitSoundStep(env, a1, cmd);
      var ra := Handle(env, a1, false, cmd).value;
      if !cmd.body.SyncTick? {
        SeekSynced(env, ra.ctx, rest, clean, target, reach);
      } else if Upto(rest, target) == [] {
        SeekNothing(env, ra.ctx, rest, clean, target);
      } else {
        SelfLags(ra.ctx);
        SeekLags(env, ra.ctx, ra.ctx, rest, clean, target, reach, ra.ctx.container);
      }
    }
  }

  /** Nothing is left up to the target. */
  lemma SeekNothing(env: Env, a: Context, cmds: seq<Command>, clean: bool, target: int)
    requires Ends(cmds, clean, target) && Upto(cmds, target) == []
    ensures Arrives(Run(env, a, Upto(cmds, target)), SeekFrom(env, a, cmds, clean, target, true, false))
  {
    hide Handle, SameState;
    SelfSameState(a);
  }

  lemma SelfSameState(a: Context)
    ensures SameState(a, a) && SameState(a, Stopped(a))
  {
    hide CurrentBaselines;
  }

  // ---- the demo alone

  /** The commands up to the first sync tick, and those after it. */
  function ThroughSync(cmds: seq<Command>): seq<Command>
  {
    if cmds == [] then [] else if cmds[0].body.SyncTick? then [cmds[0]] else [cmds[0]] + ThroughSync(cmds[1..])
  }

  function AfterSync(cmds: seq<Command>): seq<Command>
  {
    if cmds == [] then [] else if cmds[0].body.SyncTick? then cmds[1..] else AfterSync(cmds[1..])
  }

  /** The tick interval announced last, `base` before them. */
  function LatestIn(ms: seq<Message>, base: Option<nat>): Option<nat>
    decreases |ms|
  {
    if ms == [] then base
    else LatestIn(ms[1..], if ms[0].ServerInfo? && ms[0].interval.Some? then ms[0].interval else base)
  }

  function LatestInBody(body: Body, base: Option<nat>): Option<nat>
  {
    match body
    case Packet(ms) => LatestIn(ms, base)
    case SignonPacket(ms) => LatestIn(ms, base)
    case FullPacket(_, Some(ms)) => LatestIn(ms, base)
    case _ => base
  }

  function Latest(cmds: seq<Command>, base: Option<nat>): Option<nat>
    decreases |cmds|
  {
    if cmds == [] then base else Latest(cmds[1..], LatestInBody(cmds[0].body, base))
  }

  /** How far from a full packet the target may be: 1800 ticks at the default tick interval, and 100 more.
      `kept` is the full packet interval known from before, for a demo that announces no tick interval. */
  function FullPacketDistance(env: Env, latest: Option<nat>, kept: int): int
  {
    match latest
    case Some(interval) => 1800 * env.ratio(interval)
    case None => kept
  }

  function Reach(env: Env, kept: int, cmds: seq<Command>): int
  {
    FullPacketDistance(env, Latest(ThroughSync(cmds), None), kept) + 100
  }

  ghost predicate Knows(env: Env, ctx: Context, latest: Option<nat>, kept: int)
  {
    ctx.fullPacketInterval == FullPacketDistance(env, latest, kept)
  }

  lemma {:induction false} MessagesAnnounce(env: Env, ctx: Context, ms: seq<Message>, scope: Scope,
      base: Option<nat>, kept: int)
    requires Knows(env, ctx, base, kept) && HandleMessages(env, ctx, false, ms, scope).Some?
    ensures Knows(env, HandleMessages(env, ctx, false, ms, scope).value.ctx, LatestIn(ms, base), kept)
    decreases |ms|
  {
    hide MessageCalls, HandleEntries, ParseUpdate, FindTable, Indexable, BaselinesIn;
    if ms != [] {
      MessagesAnnounce(env, ApplyMessage(env, ctx, false, ms[0]).value, ms[1..], scope,
                       if ms[0].ServerInfo? && ms[0].interval.Some? then ms[0].interval else base, kept);
    }
  }

  lemma HandleAnnounces(env: Env, ctx: Context, cmd: Command, base: Option<nat>, kept: int)
    requires Knows(env, ctx, base, kept) && Handle(env, ctx, false, cmd).Some?
    ensures Knows(env, Handle(env, ctx, false, cmd).value.ctx, LatestInBody(cmd.body, base), kept)
  {
    hide HandleMessages, Indexable, FullUpdates, See;
    match cmd.body
    case Packet(ms) => MessagesAnnounce(env, ctx, ms, Everything, base, kept);
    case SignonPacket(ms) => MessagesAnnounce(env, ctx, ms, Everything, base, kept);
    case FullPacket(ss, Some(ms)) => MessagesAnnounce(env, ApplySnapshots(ctx, ss).value, ms, NoEntities, base, kept);
    case _ =>
  }

  /** The sync tick of the run is that of the demo. */
  lemma {:induction false} SyncOfDemo(env: Env, ctx: Context, cmds: seq<Command>, base: Option<nat>, kept: int)
    requires Knows(env, ctx, base, kept) && Run(env, ctx, cmds).Some?
    ensures var at := AtSync(env, ctx, cmds);
      && Run(env, ctx, ThroughSync(cmds)).Some?
      && (at.None? ==> AfterSync(cmds) == [])
      && (at.Some? ==>
            && at.value.rest == AfterSync(cmds)
            && Run(env, ctx, ThroughSync(cmds)).value.ctx == at.value.ctx
            && Knows(env, at.value.ctx, Latest(ThroughSync(cmds), base), kept))
    decreases |cmds|
  {
    hide Handle, Knows, LatestInBody;
    if cmds != [] {
      var a := Advance(ctx, cmds[0]);
      var r := Handle(env, a, false, cmds[0]).value;
      assert Knows(env, a, base, kept) by { AdvanceKnows(env, ctx, cmds[0], base, kept); }
      HandleAnnounces(env, a, cmds[0], base, kept);
      if cmds[0].body.SyncTick? {
        assert [cmds[0]][1..] == [];
        assert Run(env, r.ctx, []) == Some(Out(r.ctx, []));
      } else {
        SyncOfDemo(env, r.ctx, cmds[1..], LatestInBody(cmds[0].body, base), kept);
        assert ThroughSync(cmds)[0] == cmds[0] && ThroughSync(cmds)[1..] == ThroughSync(cmds[1..]);
      }
    }
  }

  lemma AdvanceKnows(env: Env, ctx: Context, cmd: Command, base: Option<nat>, kept: int)
    requires Knows(env, ctx, base, kept)
    ensures Knows(env, Advance(ctx, cmd), base, kept)
  {
  }

  // ---- the results

  /** What a seek asks of the run over the commands up to the target. */
  ghost predicate Seekable(env: Env, ctx: Context, cmds: seq<Command>, clean: bool, target: int)
  {
    var upto := Upto(cmds, target);
    && Nondecreasing(cmds) && Ends(cmds, clean, target) && Run(env, ResetContext(ctx), upto).Some?
    && GoodSeek(env, ResetContext(ctx), upto, target, Reach(env, ctx.fullPacketInterval, upto))
  }

  /** Nothing follows the sync tick up to the target, or a full packet near it does. */
  ghost predicate Reached(env: Env, ctx: Context, cmds: seq<Command>, target: int)
  {
    var after := AfterSync(Upto(cmds, target));
    after == [] || HasNear(after, target, Reach(env, ctx.fullPacketInterval, Upto(cmds, target)))
  }

  /** Where a seek ends, told from the demo. */
  lemma SeekEnds(env: Env, ctx: Context, cmds: seq<Command>, clean: bool, target: int)
    requires Seekable(env, ctx, cmds, clean, target)
    ensures Seek(env, ctx, cmds, clean, target).Some?
    ensures var run, sought := Run(env, ResetContext(ctx), Upto(cmds, target)), Seek(env, ctx, cmds, clean, target);
      var synced := Run(env, ResetContext(ctx), ThroughSync(Upto(cmds, target)));
      && synced.Some?
      && if Reached(env, ctx, cmds, target) then SameState(run.value.ctx, sought.value.ctx)
         else SameLive(sought.value.ctx.container, synced.value.ctx.container)
  {
    hide Run, SeekFrom, GoodSeek, SameState, AtSync, AfterSync, HasNear, Nondecreasing, Ends, SameLive;
    var a, upto := ResetContext(ctx), Upto(cmds, target);
    var kept := ctx.fullPacketInterval;
    assert Sound(env, a) && Knows(env, a, None, kept);
    SyncOfDemo(env, a, upto, None, kept);
    SeekSynced(env, a, cmds, clean, target, Reach(env, kept, upto));
  }

  /** `run_to_tick(target)` ends with the entities, string tables, baselines and tick of handling, in
      order, every command with a tick of at most `target`. */
  lemma SeekEqualsPrefix(env: Env, ctx: Context, cmds: seq<Command>, clean: bool, target: int)
    requires Seekable(env, ctx, cmds, clean, target) && Reached(env, ctx, cmds, target)
    ensures Seek(env, ctx, cmds, clean, target).Some?
    ensures SameState(Run(env, ResetContext(ctx), Upto(cmds, target)).value.ctx,
                      Seek(env, ctx, cmds, clean, target).value.ctx)
  {
    hide Run, Seek, Seekable, SameState;
    SeekEnds(env, ctx, cmds, clean, target);
  }

  /** With an announced tick interval, in numbers: a full packet after the sync tick at most 1800 times the ratio
      and 100 ticks before the target makes the seek arrive; without one, and with something after the sync tick,
      it ends with the entities of the sync tick. */
  lemma SeekByAnnounced(env: Env, ctx: Context, cmds: seq<Command>, clean: bool, target: int, interval: nat)
    requires Seekable(env, ctx, cmds, clean, target)
    requires Latest(ThroughSync(Upto(cmds, target)), None) == Some(interval)
    ensures Seek(env, ctx, cmds, clean, target).Some?
    ensures var after, sought := AfterSync(Upto(cmds, target)), Seek(env, ctx, cmds, clean, target).value.ctx;
      if after == []
         || exists i :: 0 <= i < |after| && after[i].body.FullPacket?
                        && after[i].tick >= target - (1800 * env.ratio(interval) + 100)
      then SameState(Run(env, ResetContext(ctx), Upto(cmds, target)).value.ctx, sought)
      else
        var synced := Run(env, ResetContext(ctx), ThroughSync(Upto(cmds, target)));
        synced.Some? && SameLive(sought.container, synced.value.ctx.container)
  {
    hide Run, Seek, Seekable, SameState, SameLive, AfterSync, Upto;
    SeekEnds(env, ctx, cmds, clean, target);
    var after, reach := AfterSync(Upto(cmds, target)), 1800 * env.ratio(interval) + 100;
    assert forall i | 0 <= i < |after| ::
      Near(after[i], target, reach) <==> after[i].body.FullPacket? && after[i].tick >= target - reach;
  }

  /** Exactly when the entities are those of the run: a full packet near the target follows the sync tick,
      or nothing does, or the run ends with what lived at the sync tick. */
  lemma SeekArrivesIff(env: Env, ctx: Context, cmds: seq<Command>, clean: bool, target: int)
    requires Seekable(env, ctx, cmds, clean, target)
    ensures Seek(env, ctx, cmds, clean, target).Some?
    ensures var run := Run(env, ResetContext(ctx), Upto(cmds, target)).value.ctx.container;
      var sought := Seek(env, ctx, cmds, clean, target).value.ctx.container;
      var synced := Run(env, ResetContext(ctx), ThroughSync(Upto(cmds, target)));
      && synced.Some?
      && (SameLive(run, sought) <==> Reached(env, ctx, cmds, target) || SameLive(run, synced.value.ctx.container))
  {
    hide Run, Seek, Seekable, Reached, SameItems, BaselinesIn;
    SeekEnds(env, ctx, cmds, clean, target);
  }

  // ---- a demo without a full packet

  /** One entity entry: index 0, create, class 0, serial and unknown 0, no field. */
  function CreateBits(env: Env): BitString
  {
    EncUbitvar(0) + (OfNat(2, 2) + (OfNat(0, SERIAL_BITS) + (EncGroups(0) + OpCode(env.tree, FieldPathEncodeFinish))))
  }

  function CreateDemo(env: Env, h: Word, ser: Serializer): seq<Command>
  {
    [Command(-1, ClassInfo(Classes(0, [h]))), Command(-1, SendTables(Some(map[h := ser]))), Command(-1, SyncTick),
     Command(1, Packet([PacketEntities(1, CreateBits(env))]))]
  }

  lemma EntryHeadIsRead(rest: BitString)
    ensures ReadEntryHead(-1, EncUbitvar(0) + (OfNat(2, 2) + rest)) == Ok(EntryHead(0, Create), rest)
  {
    hide ReadUbitvar, EncUbitvar, ReadUbit, OfNat;
    var two := 2;
    SmallPowers();
    UbitvarRoundTrip(0, OfNat(2, two) + rest);
    UbitRoundTrip(2, two, rest);
  }

  lemma HeadIsRead(schema: Schema, ser: Serializer, rest: BitString)
    requires schema.classBits == 0 && |schema.classes| == 1
    requires schema.classes[0] in schema.serializers && schema.serializers[schema.classes[0]] == ser
    ensures ReadHead(schema, OfNat(0, SERIAL_BITS) + (EncGroups(0) + rest)) == Ok(Head(0, ser), rest)
  {
    hide ReadUbit, OfNat, ReadUvarint32, EncGroups;
    var b := EncGroups(0) + rest;
    NoBits(OfNat(0, SERIAL_BITS) + b);
    UbitRoundTrip(0, SERIAL_BITS, b);
    Uvarint32RoundTrip(0, rest);
  }

  lemma NoFieldsAreSkipped(schema: Schema, ser: Serializer)
    requires Code(schema.tree, FieldPathEncodeFinish).Some?
    ensures SkipEntity(schema, ser, OpCode(schema.tree, FieldPathEncodeFinish)) == Ok((), [])
  {
    hide Walk, Code;
    var code := OpCode(schema.tree, FieldPathEncodeFinish);
    assert code + [] == code;
    CodeRoundTrip(schema.tree, FieldPathEncodeFinish, []);
    PathsFinish(schema.tree, START, schema.room, code, []);
  }

  lemma CreateIsRead(env: Env, h: Word, ser: Serializer, baselines: Baselines, interval: nat)
    requires !env.track(ser.nameHash) && Code(env.tree, FieldPathEncodeFinish).Some?
    ensures HandleEntries(1, Schema(env.tree, env.room, 0, [h], map[h := ser]), env.track, baselines, interval, EMPTY,
                          -1, CreateBits(env))
         == Ok(Stepped(EMPTY.(skipped := map[0 := ser]), 0, []), [])
  {
    hide ReadEntryHead, ReadHead, SkipEntity, EncUbitvar, OfNat, EncGroups, OpCode;
    var schema := Schema(env.tree, env.room, 0, [h], map[h := ser]);
    var code := OpCode(env.tree, FieldPathEncodeFinish);
    var head := OfNat(0, SERIAL_BITS) + (EncGroups(0) + code);
    EntryHeadIsRead(head);
    HeadIsRead(schema, ser, code);
    NoFieldsAreSkipped(schema, ser);
    var c := EMPTY.(skipped := map[0 := ser]);
    assert EMPTY.skipped[0 := ser] == map[0 := ser];
    var none: seq<EntityEvent> := [];
    assert none + none == none;
    assert HandleDelta(schema, env.track, baselines, interval, EMPTY, 0, Create, head) == Ok(Stepped(c, 0, []), []);
    assert HandleEntries(0, schema, env.track, baselines, interval, c, 0, []) == Ok(Stepped(c, 0, []), []);
  }

  lemma SmallPowers()
    ensures Pow2(2) == 4 && Pow2(0) == 1
  {
  }

  lemma NoBits(b: BitString)
    ensures ReadUbit(0, b) == Ok(0, b)
  {
  }

  /** The contexts of the run over the demo: at the sync tick, and after the packet. */
  function SyncContext(h: Word, ser: Serializer): Context
  {
    NEW_CONTEXT.(classes := Some(Classes(0, [h])), serializers := Some(map[h := ser]))
  }

  lemma DemoSteps(env: Env, h: Word, ser: Serializer)
    requires !env.track(ser.nameHash) && Code(env.tree, FieldPathEncodeFinish).Some?
    ensures var d, c := CreateDemo(env, h, ser), SyncContext(h, ser);
      && (var r := Handle(env, Advance(NEW_CONTEXT, d[0]), false, d[0]);
          r.Some? && r.value.ctx == NEW_CONTEXT.(classes := c.classes))
      && (var r := Handle(env, Advance(NEW_CONTEXT.(classes := c.classes), d[1]), false, d[1]);
          r.Some? && r.value.ctx == c)
      && (var r := Handle(env, Advance(c, d[2]), false, d[2]); r.Some? && r.value.ctx == c)
      && (var r := Handle(env, Advance(c, d[3]), false, d[3]);
          r.Some? && r.value.ctx.container == EMPTY.(skipped := map[0 := ser]))
  {
    hide See, HandleEntries, EntityCalls, CreateBits, Code;
    var d, c := CreateDemo(env, h, ser), Advance(SyncContext(h, ser), CreateDemo(env, h, ser)[3]);
    CreateIsRead(env, h, ser, BaselinesIn(c), c.interval);
    var ms := [PacketEntities(1, CreateBits(env))];
    var later := c.(container := EMPTY.(skipped := map[0 := ser]));
    assert d[3].body == Packet(ms) && ms[1..] == [] && ms[0] == PacketEntities(1, CreateBits(env));
    assert ApplyMessage(env, c, false, ms[0]) == Some(later);
    assert HandleMessages(env, later, false, [], Everything) == Some(Out(later, []));
  }

  /** The run over the demo knows the entity; the seek to its last tick does not. */
  lemma DemoRuns(env: Env, h: Word, ser: Serializer)
    requires !env.track(ser.nameHash) && Code(env.tree, FieldPathEncodeFinish).Some?
    ensures var d := CreateDemo(env, h, ser);
      var run, sought := Run(env, NEW_CONTEXT, d), Seek(env, NEW_CONTEXT, d, true, 1);
      && Upto(d, 1) == d && run.Some? && sought.Some?
      && run.value.ctx.container.skipped == map[0 := ser] && sought.value.ctx.container.skipped == map[]
  {
    hide Handle, Then, Code, CreateBits;
    DemoSteps(env, h, ser);
    var d, c := CreateDemo(env, h, ser), SyncContext(h, ser);
    var d1, d2, d3 := d[1..], d[2..], d[3..];
    assert d1[1..] == d2 && d2[1..] == d3 && d3[1..] == [] && d1[0] == d[1] && d2[0] == d[2] && d3[0] == d[3];
    var r0 := Handle(env, Advance(NEW_CONTEXT, d[0]), false, d[0]).value;
    var r1 := Handle(env, Advance(r0.ctx, d[1]), false, d[1]).value;
    var r2 := Handle(env, Advance(c, d[2]), false, d[2]).value;
    var r3 := Handle(env, Advance(c, d[3]), false, d[3]).value;
    assert Run(env, r3.ctx, []) == Some(Out(r3.ctx, []));
    ThenContext(r3.calls, Run(env, r3.ctx, []));
    ThenContext(r2.calls, Run(env, c, d3));
    ThenContext(r1.calls, Run(env, c, d2));
    ThenContext(r0.calls, Run(env, r0.ctx, d1));
    var s3 := Advance(c, d[3]);
    assert SeekFrom(env, s3, [], true, 1, true, false) == Some(Out(s3, []));
    assert SeekFrom(env, c, d3, true, 1, true, false) == Some(Out(s3, []));
    ThenContext(r2.calls, SeekFrom(env, c, d3, true, 1, true, false));
    ThenContext(r1.calls, SeekFrom(env, c, d2, true, 1, false, false));
    ThenContext(r0.calls, SeekFrom(env, r0.ctx, d1, true, 1, false, false));
    assert ResetContext(NEW_CONTEXT) == NEW_CONTEXT;
    AllUpto(env, h, ser);
  }

  /** Nothing else is wrong with the demo: only a full packet near the target is missing. */
  lemma DemoIsGood(env: Env, h: Word, ser: Serializer)
    requires !env.track(ser.nameHash) && Code(env.tree, FieldPathEncodeFinish).Some?
    ensures var d, c := CreateDemo(env, h, ser), SyncContext(h, ser);
      && Nondecreasing(d) && Ends(d, true, 1) && GoodSeek(env, NEW_CONTEXT, d, 1, 100)
      && Latest(ThroughSync(d), None) == None && AfterSync(d) == d[3..] && !d[3].body.FullPacket?
  {
    hide Handle, Code, CreateBits, GoodMessages;
    DemoSteps(env, h, ser);
    var d, c := CreateDemo(env, h, ser), SyncContext(h, ser);
    var d1, d2, d3 := d[1..], d[2..], d[3..];
    assert d1[1..] == d2 && d2[1..] == d3 && d3[1..] == [] && d1[0] == d[1] && d2[0] == d[2] && d3[0] == d[3];
    var r0 := Handle(env, Advance(NEW_CONTEXT, d[0]), false, d[0]).value;
    var r3 := Handle(env, Advance(c, d[3]), false, d[3]).value;
    PacketIsGood(env, h, ser);
    assert GoodAfter(env, r3.ctx, [], 1, 100, EMPTY, false);
    assert GoodAfter(env, c, d3, 1, 100, EMPTY, false);
    assert GoodSeek(env, c, d2, 1, 100);
    assert GoodSeek(env, r0.ctx, d1, 1, 100);
    assert AfterSync(d1) == AfterSync(d2) == d3;
    DemoAnnouncesNothing(d);
  }

  lemma DemoAnnouncesNothing(d: seq<Command>)
    requires |d| >= 3 && d[0].body.ClassInfo? && d[1].body.SendTables? && d[2].body.SyncTick?
    ensures Latest(ThroughSync(d), None) == None
  {
    var t := ThroughSync(d);
    assert ThroughSync(d[2..]) == [d[2]] && d[1..][1..] == d[2..];
    assert ThroughSync(d[1..]) == [d[1], d[2]];
    assert t == [d[0], d[1], d[2]] && t[1..] == [d[1], d[2]] && t[1..][1..] == [d[2]] && [d[2]][1..] == [];
    assert Latest([d[2]], None) == None;
    assert Latest(t[1..], None) == None;
  }

  lemma PacketIsGood(env: Env, h: Word, ser: Serializer)
    requires !env.track(ser.nameHash) && Code(env.tree, FieldPathEncodeFinish).Some?
    ensures var d := CreateDemo(env, h, ser);
      GoodLater(env, Advance(SyncContext(h, ser), d[3]), d[3], 1, 100, EMPTY, false)
  {
    hide HandleEntries, CreateBits, Code, BaselinesIn, Indexable;
    var d := CreateDemo(env, h, ser);
    var ms := [PacketEntities(1, CreateBits(env))];
    var c := Advance(SyncContext(h, ser), d[3]);
    assert ms[1..] == [] && d[3].body == Packet(ms) && ms[0].PacketEntities?;
    var r := ApplyMessage(env, c, false, ms[0]);
    assert GoodMessage(env, c, ms[0], false);
    if r.Some? {
      assert c.container.baselines == map[] && KeepsBytes(c, r.value);
      assert GoodMessages(env, r.value, [], false);
    }
    assert GoodMessages(env, c, ms, false);
    assert NoneAnnounce(ms);
  }

  lemma ThenContext(calls: seq<Call>, o: Option<Out>)
    ensures o.Some? ==> Then(calls, o).Some? && Then(calls, o).value.ctx == o.value.ctx
  {
  }

  lemma AllUpto(env: Env, h: Word, ser: Serializer)
    ensures Upto(CreateDemo(env, h, ser), 1) == CreateDemo(env, h, ser)
  {
    hide CreateBits;
    var d := CreateDemo(env, h, ser);
    var d1, d2, d3 := d[1..], d[2..], d[3..];
    assert d1[1..] == d2 && d2[1..] == d3 && d3[1..] == [];
    assert Upto(d3, 1) == d3;
    assert Upto(d2, 1) == d2;
    assert Upto(d1, 1) == d1;
  }

  /** A demo that meets every hypothesis but for a full packet near the target: the run over it knows the entity
      that the packet creates, the seek to its last tick does not. */
  lemma SeekMissesCreate(env: Env, h: Word, ser: Serializer)
    requires !env.track(ser.nameHash) && Code(env.tree, FieldPathEncodeFinish).Some?
    ensures var d := CreateDemo(env, h, ser);
      var run, sought := Run(env, NEW_CONTEXT, d), Seek(env, NEW_CONTEXT, d, true, 1);
      && Upto(d, 1) == d && Seekable(env, NEW_CONTEXT, d, true, 1) && !Reached(env, NEW_CONTEXT, d, 1)
      && run.Some? && run.value.ctx.container.skipped == map[0 := ser]
      && sought.Some? && sought.value.ctx.container.skipped == map[]
  {
    hide Nondecreasing, Ends, Upto, GoodSeek, AfterSync, ThroughSync, Run, Seek, CreateDemo;
    DemoIsGood(env, h, ser);
    DemoRuns(env, h, ser);
    var d := CreateDemo(env, h, ser);
    assert ResetContext(NEW_CONTEXT) == NEW_CONTEXT && Reach(env, 0, d) == 100;
    assert |d| == 4 && |AfterSync(d)| == 1 && AfterSync(d)[0] == d[3] by { DemoSize(env, h, ser); }
  }

  lemma DemoSize(env: Env, h: Word, ser: Serializer)
    ensures var d := CreateDemo(env, h, ser); |d| == 4 && |d[3..]| == 1 && d[3..][0] == d[3]
  {
  }
}
