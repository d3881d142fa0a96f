/** Parsing a demo segment by segment reproduces the sequential parse. */
module Segments {
  import opened Prelude
  import opened Bits
  import opened StringTables
  import opened Entities
  import opened EntitySnapshots
  import opened Snapshots
  import opened Following
  import opened Player

  function FullPackets(cmds: seq<Command>): nat
  {
    if cmds == [] then 0 else (if cmds[0].body.FullPacket? then 1 else 0) + FullPackets(cmds[1..])
  }

  // ---- which commands a segment collects: no hypothesis

  /** A command with the ticks in force when it is handled. */
  datatype Stamped = Stamped(tick: int, prevTick: int, cmd: Command)

  /** The commands in file order with the ticks of the sequential run. */
  function StampAll(tick: int, cmds: seq<Command>): seq<Stamped>
    decreases |cmds|
  {
    if cmds == [] then [] else [Stamped(cmds[0].tick, tick, cmds[0])] + StampAll(cmds[0].tick, cmds[1..])
  }

  /** The commands the loop of `run_full_packet` handles while collecting. */
  function CollectFrom(tick: int, cmds: seq<Command>, ordinal: nat, seen: nat, collecting: bool): seq<Stamped>
    decreases |cmds|
  {
    if cmds == [] then []
    else
      var cmd, rest := cmds[0], cmds[1..];
      var here := Stamped(cmd.tick, tick, cmd);
      if cmd.body.FullPacket? then
        if seen < ordinal then CollectFrom(cmd.tick, rest, ordinal, seen + 1, collecting)
        else if seen == ordinal then [here] + CollectFrom(cmd.tick, rest, ordinal, seen + 1, true)
        else []
      else if collecting then [here] + CollectFrom(cmd.tick, rest, ordinal, seen, true)
      else CollectFrom(cmd.tick, rest, ordinal, seen, false)
  }

  /** Segments `k` to `n - 1` one after the other, each from the start of the demo. */
  function Collected(cmds: seq<Command>, k: nat, n: nat): seq<Stamped>
    decreases n - k
  {
    if k >= n then [] else CollectFrom(-1, cmds, k, 0, k == 0) + Collected(cmds, k + 1, n)
  }

  /** Segments `k` to `n - 1` that have not begun collecting. */
  function LaterCollected(tick: int, cmds: seq<Command>, seen: nat, k: nat, n: nat): seq<Stamped>
    decreases n - k
  {
    if k >= n then [] else CollectFrom(tick, cmds, k, seen, false) + LaterCollected(tick, cmds, seen, k + 1, n)
  }

  lemma {:induction false} LaterSkips(tick: int, cmds: seq<Command>, seen: nat, k: nat, n: nat)
    requires cmds != [] && (if cmds[0].body.FullPacket? then k > seen else k >= seen)
    ensures LaterCollected(tick, cmds, seen, k, n)
         == LaterCollected(cmds[0].tick, cmds[1..], if cmds[0].body.FullPacket? then seen + 1 else seen, k, n)
    decreases n - k
  {
    if k < n {
      LaterSkips(tick, cmds, seen, k + 1, n);
    }
  }

  lemma {:induction false} LaterEmpty(tick: int, seen: nat, k: nat, n: nat)
    ensures LaterCollected(tick, [], seen, k, n) == []
    decreases n - k
  {
    if k < n {
      LaterEmpty(tick, seen, k + 1, n);
    }
  }

  /** With segment `ordinal` collecting and the later ones to come, together they collect the rest. */
  lemma {:induction false} CollectRest(tick: int, cmds: seq<Command>, ordinal: nat, seen: nat, n: nat)
    requires ordinal == (if seen == 0 then 0 else seen - 1) && n == seen + FullPackets(cmds)
    ensures CollectFrom(tick, cmds, ordinal, seen, true) + LaterCollected(tick, cmds, seen, ordinal + 1, n)
        == StampAll(tick, cmds)
    decreases |cmds|
  {
    if cmds == [] {
      LaterEmpty(tick, seen, ordinal + 1, n);
    } else {
      var cmd, rest := cmds[0], cmds[1..];
      var here := [Stamped(cmd.tick, tick, cmd)];
      var now := if cmd.body.FullPacket? then seen else ordinal;
      var later := if cmd.body.FullPacket? then seen + 1 else seen;
      CollectRest(cmd.tick, rest, now, later, n);
      LaterSkips(tick, cmds, seen, now + 1, n);
      PrefixFirst(here, CollectFrom(cmd.tick, rest, now, later, true),
          LaterCollected(cmd.tick, rest, later, now + 1, n));
      hide LaterCollected;
      if cmd.body.FullPacket? && seen > 0 {
        LaterStarts(tick, cmds, seen, n);
      }
    }
  }

  lemma PrefixFirst(a: seq<Stamped>, b: seq<Stamped>, c: seq<Stamped>)
    ensures (a + b) + c == a + (b + c)
  {
  }

  lemma LaterStarts(tick: int, cmds: seq<Command>, seen: nat, n: nat)
    requires cmds != [] && cmds[0].body.FullPacket? && seen < n
    ensures [] + LaterCollected(tick, cmds, seen, seen, n)
         == ([Stamped(cmds[0].tick, tick, cmds[0])] + CollectFrom(cmds[0].tick, cmds[1..], seen, seen + 1, true))
            + LaterCollected(tick, cmds, seen, seen + 1, n)
  {
  }

  lemma {:induction false} CollectedLater(cmds: seq<Command>, k: nat, n: nat)
    requires k > 0
    ensures Collected(cmds, k, n) == LaterCollected(-1, cmds, 0, k, n)
    decreases n - k
  {
    if k < n {
      CollectedLater(cmds, k + 1, n);
    }
  }

  /** For every demo with a full packet: the commands collected by the segments, concatenated, are all
      commands in file order, each with the ticks of the sequential run. */
  lemma SegmentsPartition(cmds: seq<Command>)
    requires FullPackets(cmds) >= 1
    ensures Collected(cmds, 0, FullPackets(cmds)) == StampAll(-1, cmds)
  {
    CollectRest(-1, cmds, 0, 0, FullPackets(cmds));
    CollectedLater(cmds, 1, FullPackets(cmds));
  }

  /** The commands among the visitor's calls. */
  function CommandCalls(calls: seq<Call>): seq<Stamped>
  {
    if calls == [] then []
    else
      var here := if calls[0].OnCmd? then [Stamped(calls[0].sight.tick, calls[0].prevTick, calls[0].cmd)] else [];
      here + CommandCalls(calls[1..])
  }

  lemma {:induction false} CommandCallsConcat(a: seq<Call>, b: seq<Call>)
    ensures CommandCalls(a + b) == CommandCalls(a) + CommandCalls(b)
  {
    var ab := a + b;
    if a == [] {
      assert ab == b;
    } else {
      assert ab[0] == a[0] && ab[1..] == a[1..] + b;
      CommandCallsConcat(a[1..], b);
    }
  }

  ghost predicate NoCommands(calls: seq<Call>)
  {
    forall i | 0 <= i < |calls| :: !calls[i].OnCmd?
  }

  /** Only what is shown of the messages of a command. */
  ghost predicate Inside(calls: seq<Call>)
  {
    forall i | 0 <= i < |calls| :: calls[i].OnPacket? || calls[i].OnEntity?
  }

  lemma {:induction false} NoCommandCalls(calls: seq<Call>)
    requires NoCommands(calls)
    ensures CommandCalls(calls) == []
  {
    if calls != [] {
      NoCommandCalls(calls[1..]);
    }
  }

  ghost predicate Quiet(ctx: Context, o: Option<Out>)
  {
    o.Some? ==> o.value.ctx.tick == ctx.tick && o.value.ctx.prevTick == ctx.prevTick && Inside(o.value.calls)
  }

  lemma MessageQuiet(env: Env, ctx: Context, skipEntities: bool, m: Message, scope: Scope)
    ensures var r := ApplyMessage(env, ctx, skipEntities, m);
      r.Some? ==> r.value.tick == ctx.tick && r.value.prevTick == ctx.prevTick
    ensures Inside(MessageCalls(env, ctx, skipEntities, m, scope))
  {
    hide HandleEntries, ParseUpdate, Indexable, CurrentBaselines, EntityCalls, See;
    if m.PacketEntities? && ctx.classes.Some? && ctx.serializers.Some? {
      EntityCallsQuiet(env, ctx, scope, m.numEntries, -1, m.data);
    }
  }

  lemma {:induction false} EntityCallsQuiet(env: Env, ctx: Context, scope: Scope, n: nat, prev: int, b: BitString)
    requires ctx.classes.Some? && ctx.serializers.Some?
    ensures Inside(EntityCalls(env, ctx, scope, n, prev, b))
    decreases n
  {
    hide HandleDelta, ReadEntryHead, BaselinesIn, See;
    if n > 0 && ReadEntryHead(prev, b).Ok? {
      var h, b1 := ReadEntryHead(prev, b).value, ReadEntryHead(prev, b).rest;
      match HandleDelta(SchemaOf(env, ctx), env.track, BaselinesIn(ctx), ctx.interval, ctx.container, h.index,
                        h.delta, b1)
      case Ok(s, b2) => EntityCallsQuiet(env, ctx.(container := s.container), scope, n - 1, s.index, b2);
      case Fail =>
    }
  }

  lemma {:induction false} MessagesQuiet(env: Env, ctx: Context, skipEntities: bool, ms: seq<Message>, scope: Scope)
    ensures Quiet(ctx, HandleMessages(env, ctx, skipEntities, ms, scope))
    decreases |ms|
  {
    hide ApplyMessage, MessageCalls;
    if ms != [] {
      MessageQuiet(env, ctx, skipEntities, ms[0], scope);
      var r := ApplyMessage(env, ctx, skipEntities, ms[0]);
      if r.Some? {
        MessagesQuiet(env, r.value, skipEntities, ms[1..], scope);
      }
    }
  }

  lemma BodyQuiet(env: Env, ctx: Context, skipEntities: bool, body: Body)
    ensures Quiet(ctx, HandleBody(env, ctx, skipEntities, body))
  {
    hide HandleMessages, Indexable, FullUpdates, See;
    match body
    case Packet(ms) => MessagesQuiet(env, ctx, skipEntities, ms, Everything);
    case SignonPacket(ms) => MessagesQuiet(env, ctx, skipEntities, ms, Everything);
    case FullPacket(ss, p) =>
      if p.Some? && ApplySnapshots(ctx, ss).Some? {
        MessagesQuiet(env, ApplySnapshots(ctx, ss).value, skipEntities, p.value, NoEntities);
      }
    case _ =>
  }

  /** Handling a command makes one command call, with the ticks in force. */
  lemma HandleShowsCommand(env: Env, ctx: Context, skipEntities: bool, cmd: Command)
    requires ctx.tick == cmd.tick && Handle(env, ctx, skipEntities, cmd).Some?
    ensures var r := Handle(env, ctx, skipEntities, cmd).value;
      CommandCalls(r.calls) == [Stamped(cmd.tick, ctx.prevTick, cmd)] && r.ctx.tick == ctx.tick
  {
    hide HandleBody, CommandCalls;
    BodyQuiet(env, ctx, skipEntities, cmd.body);
    var r := HandleBody(env, ctx, skipEntities, cmd.body).value;
    var first, last := [OnCmd(See(ctx, CommandScope(cmd)), ctx.prevTick, cmd)], TickEnd(r.ctx);
    CommandCallsConcat(first + r.calls, last);
    CommandCallsConcat(first, r.calls);
    NoCommandCalls(r.calls);
    NoCommandCalls(last);
    OneCommand(first);
  }

  lemma OneCommand(calls: seq<Call>)
    requires |calls| == 1 && calls[0].OnCmd?
    ensures CommandCalls(calls) == [Stamped(calls[0].sight.tick, calls[0].prevTick, calls[0].cmd)]
  {
    assert calls[1..] == [];
  }

  /** A segment that runs through shows the visitor exactly the commands it collects. */
  lemma {:induction false} SegmentShowsCollected(env: Env, ctx: Context, cmds: seq<Command>, clean: bool,
      ordinal: nat, seen: nat, collecting: bool)
    requires SegmentFrom(env, ctx, cmds, clean, ordinal, seen, collecting).Some?
    ensures CommandCalls(SegmentFrom(env, ctx, cmds, clean, ordinal, seen, collecting).value.calls)
         == CollectFrom(ctx.tick, cmds, ordinal, seen, collecting)
    decreases |cmds|
  {
    hide Handle, CommandCalls;
    if cmds == [] {
      NoCommandCalls([]);
    } else {
      var cmd, rest := cmds[0], cmds[1..];
      var ctx1 := Advance(ctx, cmd);
      if cmd.body.FullPacket? && seen > ordinal {
        NoCommandCalls([]);
      } else if cmd.body.FullPacket? && seen < ordinal {
        SegmentShowsCollected(env, ctx1, rest, clean, ordinal, seen + 1, collecting);
      } else if cmd.body.FullPacket? || collecting {
        var later := if cmd.body.FullPacket? then seen + 1 else seen;
        HandleShowsCommand(env, ctx1, false, cmd);
        var r := Handle(env, ctx1, false, cmd).value;
        SegmentShowsCollected(env, r.ctx, rest, clean, ordinal, later, true);
        CommandCallsConcat(r.calls, SegmentFrom(env, r.ctx, rest, clean, ordinal, later, true).value.calls);
      } else if IsInit(cmd.body) {
        HandleShowsCommand(env, ctx1, true, cmd);
        SegmentShowsCollected(env, Handle(env, ctx1, true, cmd).value.ctx, rest, clean, ordinal, seen, false);
      } else {
        SegmentShowsCollected(env, ctx1, rest, clean, ordinal, seen, false);
      }
    }
  }

  // ---- what the segments show

  /** Along the sequential run every command is as `GoodCommand` asks; every full packet but the first
      must be a snapshot. */
  ghost predicate Good(env: Env, ctx: Context, cmds: seq<Command>, started: bool, entered: bool)
    decreases |cmds|
  {
    cmds != [] ==>
      var ctx1 := Advance(ctx, cmds[0]);
      && GoodCommand(env, ctx1, cmds[0], started, entered)
      && var r := Handle(env, ctx1, false, cmds[0]);
         r.Some? ==> Good(env, r.value.ctx, cmds[1..], started || Starts(cmds[0]), entered || cmds[0].body.FullPacket?)
  }

  /** At every full packet but the first, the tick interval in force is the one that the init commands
      set: `base` is the one they have set so far. */
  ghost predicate IntervalsInForce(env: Env, ctx: Context, cmds: seq<Command>, entered: bool, base: nat)
    decreases |cmds|
  {
    cmds != [] ==>
      var cmd := cmds[0];
      && (entered && cmd.body.FullPacket? ==> ctx.interval == base)
      && var r := Handle(env, Advance(ctx, cmd), false, cmd);
         r.Some? ==> IntervalsInForce(env, r.value.ctx, cmds[1..], entered || cmd.body.FullPacket?,
                                      if cmd.body.SignonPacket? then r.value.ctx.interval else base)
  }

  function Joined(a: Option<seq<Call>>, b: Option<seq<Call>>): Option<seq<Call>>
  {
    if a.Some? && b.Some? then Some(a.value + b.value) else None
  }

  lemma JoinedCancel(x: seq<Call>, y: Option<seq<Call>>, z: Option<seq<Call>>)
    ensures Joined(Some(x), y) == Joined(Some(x), z) <==> y == z
  {
    if y.Some? && z.Some? && x + y.value == x + z.value {
      assert y.value == (x + y.value)[|x|..] && z.value == (x + z.value)[|x|..];
    }
  }

  function CallsOf(o: Option<Out>): Option<seq<Call>>
  {
    if o.Some? then Some(o.value.calls) else None
  }

  /** The visitor's records of segments `k` to `n - 1`, each parsed on its own, concatenated. */
  function SegmentCalls(env: Env, ctx: Context, cmds: seq<Command>, clean: bool, k: nat, n: nat): Option<seq<Call>>
    decreases n - k
  {
    if k >= n then Some([])
    else Joined(CallsOf(Segment(env, ctx, cmds, clean, k)), SegmentCalls(env, ctx, cmds, clean, k + 1, n))
  }

  function LaterCalls(env: Env, b: Context, cmds: seq<Command>, clean: bool, seen: nat, k: nat,
      n: nat): Option<seq<Call>>
    decreases n - k
  {
    if k >= n then Some([])
    else Joined(CallsOf(SegmentFrom(env, b, cmds, clean, k, seen, false)),
        LaterCalls(env, b, cmds, clean, seen, k + 1, n))
  }

  lemma {:induction false} LaterWarmUp(env: Env, b: Context, cmds: seq<Command>, clean: bool, seen: nat, k: nat, n: nat)
    requires cmds != [] && (if cmds[0].body.FullPacket? then k > seen else k >= seen)
    requires WarmUp(env, b, cmds[0]).Some?
    ensures LaterCalls(env, b, cmds, clean, seen, k, n)
         == LaterCalls(env, WarmUp(env, b, cmds[0]).value, cmds[1..], clean,
                       if cmds[0].body.FullPacket? then seen + 1 else seen, k, n)
    decreases n - k
  {
    hide Handle;
    if k < n {
      LaterWarmUp(env, b, cmds, clean, seen, k + 1, n);
    }
  }

  lemma {:induction false} LaterNothing(env: Env, b: Context, seen: nat, k: nat, n: nat)
    ensures LaterCalls(env, b, [], true, seen, k, n) == Some([])
    decreases n - k
  {
    if k < n {
      LaterNothing(env, b, seen, k + 1, n);
      JoinedNothing(Some([]));
    }
  }

  lemma InStepSelf(a: Context)
    ensures InStep(a, a, map[])
  {
  }

  lemma JoinedAssoc(a: seq<Call>, b: Option<seq<Call>>, c: Option<seq<Call>>)
    ensures Joined(Joined(Some(a), b), c) == Joined(Some(a), Joined(b, c))
  {
    if b.Some? && c.Some? {
      assert (a + b.value) + c.value == a + (b.value + c.value);
    }
  }

  lemma ThenCalls(calls: seq<Call>, o: Option<Out>)
    ensures CallsOf(Then(calls, o)) == Joined(Some(calls), CallsOf(o))
  {
  }

  lemma JoinedNothing(a: Option<seq<Call>>)
    ensures Joined(Some([]), a) == a
  {
    if a.Some? {
      assert [] + a.value == a.value;
    }
  }

  lemma FirstCall(env: Env, ctx: Context, cmd: Command)
    requires Handle(env, ctx, false, cmd).Some?
    ensures var calls := Handle(env, ctx, false, cmd).value.calls;
      calls != [] && calls[0] == OnCmd(See(ctx, CommandScope(cmd)), ctx.prevTick, cmd)
  {
    hide HandleBody;
  }

  /** A full packet entered with another tick interval than the run's shows as much. */
  lemma OtherIntervalShows(env: Env, a: Context, b: Context, cmd: Command, x: Option<seq<Call>>, y: Option<seq<Call>>)
    requires a.interval != b.interval && Handle(env, a, false, cmd).Some? && Handle(env, b, false, cmd).Some?
    ensures var p, q := Handle(env, a, false, cmd).value.calls, Handle(env, b, false, cmd).value.calls;
      x.Some? ==> Joined(Some(p), x) != Joined(Some(q), y)
  {
    hide Handle;
    FirstCall(env, a, cmd);
    FirstCall(env, b, cmd);
    var p, q := Handle(env, a, false, cmd).value.calls, Handle(env, b, false, cmd).value.calls;
    if x.Some? && y.Some? {
      assert (p + x.value)[0] == p[0] && (q + y.value)[0] == q[0];
      assert p[0].sight.interval != q[0].sight.interval;
    }
  }

  /** Segment `seen - 1` collecting in step with the run, the later ones still warming up: together they
      show what the run shows exactly when each later one starts with the tick interval of the run. */
  lemma {:induction false} SegmentsFollow(env: Env, a: Context, s: Context, b: Context, cmds: seq<Command>, seen: nat,
                                          n: nat)
    requires seen >= 1 && n == seen + FullPackets(cmds)
    requires Sound(env, a) && InStep(a, s, map[]) && Warm(a, b, true) && Good(env, a, cmds, true, true)
    requires Run(env, a, cmds).Some?
    ensures IntervalsInForce(env, a, cmds, true, b.interval) <==>
      Joined(CallsOf(SegmentFrom(env, s, cmds, true, seen - 1, seen, true)),
             LaterCalls(env, b, cmds, true, seen, seen, n)) == CallsOf(Run(env, a, cmds))
    decreases |cmds|
  {
    hide Handle, GoodCommand, Sound, InStep, Warm, WarmUp, Joined;
    if cmds == [] {
      LaterNothing(env, b, seen, seen, n);
      JoinedNothing(Some([]));
    } else {
      var cmd, rest := cmds[0], cmds[1..];
      var a1, s1 := Advance(a, cmd), Advance(s, cmd);
      AdvanceSound(env, a, cmd);
      WarmFollows(env, a, b, cmd, true, true);
      HandleSound(env, a1, cmd, true, true);
      var ra := Handle(env, a1, false, cmd).value;
      var b1 := WarmUp(env, b, cmd).value;
      ThenCalls(ra.calls, Run(env, ra.ctx, rest));
      if cmd.body.FullPacket? {
        JoinedNothing(LaterCalls(env, b, cmds, true, seen, seen, n));
        var later := LaterCalls(env, b, cmds, true, seen, seen + 1, n);
        if a.interval == b.interval {
          WarmBehind(a, b, cmd);
          HandleCatchesUp(env, a1, Advance(b, cmd), cmd, true);
          var rb := Handle(env, Advance(b, cmd), false, cmd).value;
          SegmentsFollow(env, ra.ctx, rb.ctx, b1, rest, seen + 1, n);
          LaterWarmUp(env, b, cmds, true, seen, seen + 1, n);
          var now := SegmentFrom(env, rb.ctx, rest, true, seen, seen + 1, true);
          ThenCalls(rb.calls, now);
          JoinedAssoc(rb.calls, CallsOf(now), later);
          JoinedCancel(rb.calls, Joined(CallsOf(now), later), CallsOf(Run(env, ra.ctx, rest)));
        } else {
          OtherSegment(env, b, cmds, seen, later);
          if Handle(env, Advance(b, cmd), false, cmd).Some? {
            var rb := Handle(env, Advance(b, cmd), false, cmd).value;
            var now := SegmentFrom(env, rb.ctx, rest, true, seen, seen + 1, true);
            OtherIntervalShows(env, a1, Advance(b, cmd), cmd, CallsOf(Run(env, ra.ctx, rest)),
                               Joined(CallsOf(now), later));
          }
        }
      } else {
        AdvanceInStep(a, s, cmd);
        HandleInStep(env, a1, s1, cmd, true);
        var rs := Handle(env, s1, false, cmd).value;
        SegmentsFollow(env, ra.ctx, rs.ctx, b1, rest, seen, n);
        LaterWarmUp(env, b, cmds, true, seen, seen, n);
        var now := SegmentFrom(env, rs.ctx, rest, true, seen - 1, seen, true);
        var later := LaterCalls(env, b, cmds, true, seen, seen, n);
        ThenCalls(rs.calls, now);
        JoinedAssoc(rs.calls, CallsOf(now), later);
        JoinedCancel(rs.calls, Joined(CallsOf(now), later), CallsOf(Run(env, ra.ctx, rest)));
      }
    }
  }

  /** The segment that a full packet begins. */
  lemma OtherSegment(env: Env, b: Context, cmds: seq<Command>, seen: nat, later: Option<seq<Call>>)
    requires cmds != [] && cmds[0].body.FullPacket?
    ensures var r := Handle(env, Advance(b, cmds[0]), false, cmds[0]);
      var segment := SegmentFrom(env, b, cmds, true, seen, seen, false);
      if r.None? then Joined(CallsOf(segment), later) == None
      else Joined(CallsOf(segment), later) == Joined(Some(r.value.calls),
             Joined(CallsOf(SegmentFrom(env, r.value.ctx, cmds[1..], true, seen, seen + 1, true)), later))
  {
    hide Handle;
    var r := Handle(env, Advance(b, cmds[0]), false, cmds[0]);
    if r.Some? {
      var now := SegmentFrom(env, r.value.ctx, cmds[1..], true, seen, seen + 1, true);
      ThenCalls(r.value.calls, now);
      JoinedAssoc(r.value.calls, CallsOf(now), later);
    }
  }

  lemma WarmBehind(a: Context, b: Context, cmd: Command)
    requires Warm(a, b, true)
    ensures Behind(Advance(a, cmd), Advance(b, cmd)) && Live(b.container) == {}
  {
    hide TablesBelow, CacheBelow, Live;
  }

  /** Before the first full packet: segment 0 is the sequential run itself. */
  lemma {:induction false} FirstSegmentFollows(env: Env, a: Context, b: Context, cmds: seq<Command>, started: bool,
                                               n: nat)
    requires n == FullPackets(cmds)
    requires Sound(env, a) && Warm(a, b, started) && Good(env, a, cmds, started, false)
    requires Run(env, a, cmds).Some?
    ensures IntervalsInForce(env, a, cmds, false, b.interval) <==>
      Joined(CallsOf(SegmentFrom(env, a, cmds, true, 0, 0, true)), LaterCalls(env, b, cmds, true, 0, 1, n))
        == CallsOf(Run(env, a, cmds))
    decreases |cmds|
  {
    hide Handle, GoodCommand, Sound, InStep, Warm, WarmUp, Joined;
    if cmds == [] {
      LaterNothing(env, b, 0, 1, n);
      JoinedNothing(Some([]));
    } else {
      var cmd, rest := cmds[0], cmds[1..];
      var a1 := Advance(a, cmd);
      AdvanceSound(env, a, cmd);
      WarmFollows(env, a, b, cmd, started, false);
      HandleSound(env, a1, cmd, started, false);
      var ra := Handle(env, a1, false, cmd).value;
      var b1 := WarmUp(env, b, cmd).value;
      ThenCalls(ra.calls, Run(env, ra.ctx, rest));
      LaterWarmUp(env, b, cmds, true, 0, 1, n);
      var seen := if cmd.body.FullPacket? then 1 else 0;
      if cmd.body.FullPacket? {
        InStepSelf(ra.ctx);
        SegmentsFollow(env, ra.ctx, ra.ctx, b1, rest, 1, n);
      } else {
        FirstSegmentFollows(env, ra.ctx, b1, rest, started || Starts(cmd), n);
      }
      var now, later := SegmentFrom(env, ra.ctx, rest, true, 0, seen, true), LaterCalls(env, b, cmds, true, 0, 1, n);
      ThenCalls(ra.calls, now);
      JoinedAssoc(ra.calls, CallsOf(now), later);
      JoinedCancel(ra.calls, Joined(CallsOf(now), later), CallsOf(Run(env, ra.ctx, rest)));
    }
  }

  lemma {:induction false} SegmentsLater(env: Env, ctx: Context, cmds: seq<Command>, k: nat, n: nat)
    requires k > 0
    ensures SegmentCalls(env, ctx, cmds, true, k, n) == LaterCalls(env, ResetContext(ctx), cmds, true, 0, k, n)
    decreases n - k
  {
    hide SegmentFrom;
    if k < n {
      SegmentsLater(env, ctx, cmds, k + 1, n);
    }
  }

  lemma FreshIsSound(env: Env, ctx: Context)
    ensures var c := ResetContext(ctx); Sound(env, c) && Warm(c, c, false)
  {
  }

  /** The segments, each parsed on its own and concatenated, show the visitor exactly what one
      sequential parse shows it, if and only if at every full packet after the first the tick interval
      is the one that the init commands set. */
  lemma SegmentsReproduceRun(env: Env, ctx: Context, cmds: seq<Command>)
    requires FullPackets(cmds) >= 1
    requires Good(env, ResetContext(ctx), cmds, false, false)
    requires Run(env, ResetContext(ctx), cmds).Some?
    ensures IntervalsInForce(env, ResetContext(ctx), cmds, false, ctx.interval) <==>
      SegmentCalls(env, ctx, cmds, true, 0, FullPackets(cmds)) == CallsOf(Run(env, ResetContext(ctx), cmds))
  {
    hide Good, Run, SegmentFrom, Warm, Sound, LaterCalls, IntervalsInForce;
    var n := FullPackets(cmds);
    FreshIsSound(env, ctx);
    FirstSegmentFollows(env, ResetContext(ctx), ResetContext(ctx), cmds, false, n);
    SegmentsLater(env, ctx, cmds, 1, n);
  }

  // ---- why init messages must stay where the warm-up sees them

  function FullAt(tick: int): Command
  {
    Command(tick, FullPacket(Some([]), Some([])))
  }

  function InfoAt2(interval: nat): Command
  {
    Command(2, Packet([ServerInfo(Some(interval))]))
  }

  /** The class infos, then a tick interval announced by an ordinary packet between two full packets. */
  function LateInfo(interval: nat): seq<Command>
  {
    [Command(-1, ClassInfo(Classes(0, []))), FullAt(1), InfoAt2(interval), FullAt(3)]
  }

  /** Before any table or entity. */
  predicate Bare(ctx: Context)
  {
    ctx.tables == [] && ctx.container == EMPTY
  }

  lemma InfoClass(env: Env, ctx: Context)
    requires Bare(ctx) && ctx.classes.None?
    ensures var cmd := LateInfo(0)[0];
      var r := Handle(env, ctx, false, cmd);
      r.Some? && r.value.ctx == ctx.(classes := Some(Classes(0, []))) && GoodCommand(env, ctx, cmd, false, false)
  {
    hide See;
  }

  lemma EmptyFullPacket(env: Env, ctx: Context, tick: int, started: bool, entered: bool)
    requires Bare(ctx) && ctx.classes.Some?
    ensures var r := Handle(env, ctx, false, FullAt(tick));
      r.Some? && r.value.ctx == ctx && GoodCommand(env, ctx, FullAt(tick), started, entered)
  {
    hide See;
    assert FullUpdates(ctx.tables, []) == ctx.tables && Live(ctx.container) == {};
    assert HandleMessages(env, ctx, false, [], NoEntities) == Some(Out(ctx, []));
    assert PendingAfterMessages(env, ctx, [], map[]) == Some(map[]);
  }

  lemma InfoPacket(env: Env, ctx: Context, interval: nat)
    requires Bare(ctx)
    ensures var r := Handle(env, ctx, false, InfoAt2(interval));
      && r.Some? && r.value.ctx == ctx.(interval := interval,
                                        fullPacketInterval := FULL_PACKET_INTERVAL * env.ratio(interval))
      && GoodCommand(env, ctx, InfoAt2(interval), true, true)
  {
    hide See;
    var ms := [ServerInfo(Some(interval))];
    var c := ctx.(interval := interval, fullPacketInterval := FULL_PACKET_INTERVAL * env.ratio(interval));
    assert ms[1..] == [] && ms[0] == ServerInfo(Some(interval));
    assert ApplyMessage(env, ctx, false, ms[0]) == Some(c);
    assert HandleMessages(env, c, false, [], Everything) == Some(Out(c, []));
    assert HandleMessages(env, ctx, false, ms, Everything).value.ctx == c;
    assert GoodMessages(env, c, [], false);
  }

  /** A demo that meets every hypothesis, for any two tick intervals, the one in force at the start and the
      one that an ordinary packet announces: the later full packet finds the second, its segment the first. */
  lemma InitInPacketBreaksSegments(env: Env, before: nat, interval: nat)
    requires before != interval
    ensures var ctx, cmds := NEW_CONTEXT.(interval := before), LateInfo(interval);
      && FullPackets(cmds) == 2 && Good(env, ResetContext(ctx), cmds, false, false)
      && Run(env, ResetContext(ctx), cmds).Some?
      && SegmentCalls(env, ctx, cmds, true, 0, 2) != CallsOf(Run(env, ResetContext(ctx), cmds))
  {
    hide Handle, GoodCommand, Run, Good, IntervalsInForce, Segment;
    var ctx, cmds := NEW_CONTEXT.(interval := before), LateInfo(interval);
    LateInfoIsGood(env, before, interval);
    SegmentsReproduceRun(env, ctx, cmds);
  }

  lemma LateInfoIsGood(env: Env, before: nat, interval: nat)
    requires before != interval
    ensures var ctx, cmds := NEW_CONTEXT.(interval := before), LateInfo(interval);
      && ResetContext(ctx) == ctx && FullPackets(cmds) == 2 && Good(env, ctx, cmds, false, false)
      && Run(env, ctx, cmds).Some? && !IntervalsInForce(env, ctx, cmds, false, before)
  {
    hide Handle, GoodCommand, Then;
    var c0, d0 := NEW_CONTEXT.(interval := before), LateInfo(interval);
    var d1, d2, d3 := d0[1..], d0[2..], d0[3..];
    assert d1[1..] == d2 && d2[1..] == d3 && d3[1..] == [];
    assert d1[0] == FullAt(1) && d2[0] == InfoAt2(interval) && d3[0] == FullAt(3);
    InfoClass(env, Advance(c0, d0[0]));
    var c1 := Handle(env, Advance(c0, d0[0]), false, d0[0]).value.ctx;
    EmptyFullPacket(env, Advance(c1, d1[0]), 1, false, false);
    var c2 := Handle(env, Advance(c1, d1[0]), false, d1[0]).value.ctx;
    InfoPacket(env, Advance(c2, d2[0]), interval);
    var c3 := Handle(env, Advance(c2, d2[0]), false, d2[0]).value.ctx;
    EmptyFullPacket(env, Advance(c3, d3[0]), 3, true, true);
    var c4 := Handle(env, Advance(c3, d3[0]), false, d3[0]).value.ctx;
    assert FullPackets(d3) == 1 && FullPackets(d2) == 1 && FullPackets(d1) == 2;
    assert Good(env, c4, [], true, true);
    assert Good(env, c3, d3, true, true);
    assert Good(env, c2, d2, true, true);
    assert Good(env, c1, d1, false, false);
    assert !IntervalsInForce(env, c3, d3, true, before);
    assert !IntervalsInForce(env, c2, d2, true, before);
    assert !IntervalsInForce(env, c1, d1, false, before);
    assert Run(env, c4, []) == Some(Out(c4, []));
    RunGoesOn(Handle(env, Advance(c3, d3[0]), false, d3[0]).value.calls, Run(env, c4, []));
    RunGoesOn(Handle(env, Advance(c2, d2[0]), false, d2[0]).value.calls, Run(env, c3, d3));
    RunGoesOn(Handle(env, Advance(c1, d1[0]), false, d1[0]).value.calls, Run(env, c2, d2));
    RunGoesOn(Handle(env, Advance(c0, d0[0]), false, d0[0]).value.calls, Run(env, c1, d1));
  }

  lemma RunGoesOn(calls: seq<Call>, o: Option<Out>)
    ensures Then(calls, o).Some? == o.Some?
  {
  }
}
