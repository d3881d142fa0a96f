/** What the visitor sees: which messages it is shown, with which context, and that a shown entity is as the
    visitor finds it. */
module Sights {
  import opened Bits
  import opened StringTables
  import opened Entities
  import opened Player

  // ---- every message is shown once, in order, at its tick

  datatype Heard = Heard(tick: int, msg: Message)

  function HeardOf(tick: int, ms: seq<Message>): seq<Heard>
  {
    if ms == [] then [] else [Heard(tick, ms[0])] + HeardOf(tick, ms[1..])
  }

  function HeardIn(cmd: Command): seq<Heard>
  {
    match cmd.body
    case Packet(ms) => HeardOf(cmd.tick, ms)
    case SignonPacket(ms) => HeardOf(cmd.tick, ms)
    case FullPacket(_, Some(ms)) => HeardOf(cmd.tick, ms)
    case _ => []
  }

  function HeardInAll(cmds: seq<Command>): seq<Heard>
  {
    if cmds == [] then [] else HeardIn(cmds[0]) + HeardInAll(cmds[1..])
  }

  /** The `on_packet` calls of a record. */
  function PacketCalls(calls: seq<Call>): seq<Heard>
  {
    if calls == [] then []
    else (if calls[0].OnPacket? then [Heard(calls[0].sight.tick, calls[0].msg)] else []) + PacketCalls(calls[1..])
  }

  lemma {:induction false} PacketCallsJoin(a: seq<Call>, b: seq<Call>)
    ensures PacketCalls(a + b) == PacketCalls(a) + PacketCalls(b)
    decreases |a|
  {
    if a == [] {
      assert a + b == b;
    } else {
      assert (a + b)[0] == a[0] && (a + b)[1..] == a[1..] + b;
      PacketCallsJoin(a[1..], b);
    }
  }

  // ---- a shown entity

  /** Every entity is kept under its own index. */
  ghost predicate Keyed(c: Container)
  {
    forall i | i in c.entities :: c.entities[i].index == i
  }

  /** Of a created or updated entity the visitor finds what it is shown, one that is gone it does not find. */
  ghost predicate Effective(call: Call)
  {
    call.OnEntity? && call.sight.entities.Some? ==>
      var found, e := call.sight.entities.value, call.event.entity;
      if call.event.delta.Create? || call.event.delta.Update? then e.index in found && found[e.index] == e
      else e.index !in found
  }

  ghost predicate AllEffective(calls: seq<Call>)
  {
    forall i | 0 <= i < |calls| :: Effective(calls[i])
  }

  lemma DeltaIsEffective(env: Env, ctx: Context, scope: Scope, index: int, delta: Delta, b: BitString)
    requires ctx.classes.Some? && ctx.serializers.Some? && Keyed(ctx.container)
    ensures var r := HandleDelta(SchemaOf(env, ctx), env.track, BaselinesIn(ctx), ctx.interval, ctx.container, index,
                                 delta, b);
      r.Ok? ==> Keyed(r.value.container)
                && AllEffective(Shown(ctx.(container := r.value.container), scope, r.value.events))
  {
    hide ParseEntity, SkipEntity, ReadHead, BaselinesIn, Cached, ViewsOf;
    var r := HandleDelta(SchemaOf(env, ctx), env.track, BaselinesIn(ctx), ctx.interval, ctx.container, index, delta, b);
    if r.Ok? {
      var later := ctx.(container := r.value.container);
      var calls := Shown(later, scope, r.value.events);
      forall i | 0 <= i < |calls|
        ensures Effective(calls[i])
      {
        assert calls[i] == OnEntity(See(later, scope), r.value.events[i]);
      }
    }
  }

  lemma {:induction false} EntityCallsEffective(env: Env, ctx: Context, scope: Scope, n: nat, prev: int, b: BitString)
    requires ctx.classes.Some? && ctx.serializers.Some? && Keyed(ctx.container)
    ensures var calls := EntityCalls(env, ctx, scope, n, prev, b); AllEffective(calls) && PacketCalls(calls) == []
    ensures var r := HandleEntries(n, SchemaOf(env, ctx), env.track, BaselinesIn(ctx), ctx.interval, ctx.container,
                                   prev, b);
      r.Ok? ==> Keyed(r.value.container)
    decreases n
  {
    hide HandleDelta, ReadEntryHead, BaselinesIn, See, Shown, Keyed, Effective;
    if n > 0 && ReadEntryHead(prev, b).Ok? {
      var h, b1 := ReadEntryHead(prev, b).value, ReadEntryHead(prev, b).rest;
      DeltaIsEffective(env, ctx, scope, h.index, h.delta, b1);
      match HandleDelta(SchemaOf(env, ctx), env.track, BaselinesIn(ctx), ctx.interval, ctx.container, h.index,
                        h.delta, b1)
      case Ok(s, b2) =>
        var later := ctx.(container := s.container);
        SameBaselines(ctx, s.container);
        EntityCallsEffective(env, later, scope, n - 1, s.index, b2);
        NoPackets(later, scope, s.events);
        PacketCallsJoin(Shown(later, scope, s.events), EntityCalls(env, later, scope, n - 1, s.index, b2));
      case Fail =>
    }
  }

  lemma SameBaselines(ctx: Context, c: Container)
    ensures BaselinesIn(ctx.(container := c)) == BaselinesIn(ctx)
  {
  }

  lemma {:induction false} NoPackets(ctx: Context, scope: Scope, events: seq<EntityEvent>)
    ensures PacketCalls(Shown(ctx, scope, events)) == []
    decreases |events|
  {
    if events != [] {
      assert Shown(ctx, scope, events)[1..] == Shown(ctx, scope, events[1..]);
      NoPackets(ctx, scope, events[1..]);
    }
  }

  /** Having handled messages: the entities are under their index, the calls are effective, and the messages were
      shown. */
  ghost predicate Showed(tick: int, heard: seq<Heard>, later: Context, calls: seq<Call>)
  {
    later.tick == tick && Keyed(later.container) && AllEffective(calls) && PacketCalls(calls) == heard
  }

  lemma MessageShows(env: Env, ctx: Context, m: Message, scope: Scope)
    requires Keyed(ctx.container) && ApplyMessage(env, ctx, false, m).Some?
    ensures Showed(ctx.tick, [Heard(ctx.tick, m)], ApplyMessage(env, ctx, false, m).value,
                   MessageCalls(env, ctx, false, m, scope))
  {
    hide EntityCalls, HandleEntries, ParseUpdate, Indexable, BaselinesIn, ViewsOf, Keyed;
    var first := [OnPacket(See(ctx, scope), m)];
    assert PacketCalls(first) == [Heard(ctx.tick, m)] by {
      assert first[1..] == [];
    }
    if m.PacketEntities? && ctx.classes.Some? && ctx.serializers.Some? {
      var calls := EntityCalls(env, ctx, scope, m.numEntries, -1, m.data);
      EntityCallsEffective(env, ctx, scope, m.numEntries, -1, m.data);
      PacketCallsJoin(first, calls);
    } else {
      assert first + [] == first;
    }
  }

  lemma ShowedBoth(tick: int, x: seq<Heard>, b: Context, xs: seq<Call>, y: seq<Heard>, c: Context, ys: seq<Call>)
    requires Showed(tick, x, b, xs) && Showed(tick, y, c, ys)
    ensures Showed(tick, x + y, c, xs + ys)
  {
    hide Effective, Keyed, PacketCalls;
    PacketCallsJoin(xs, ys);
  }

  lemma {:induction false} MessagesShow(env: Env, ctx: Context, ms: seq<Message>, scope: Scope)
    requires Keyed(ctx.container) && HandleMessages(env, ctx, false, ms, scope).Some?
    ensures var r := HandleMessages(env, ctx, false, ms, scope).value;
      Showed(ctx.tick, HeardOf(ctx.tick, ms), r.ctx, r.calls)
    decreases |ms|
  {
    hide ApplyMessage, MessageCalls, Keyed, Effective;
    if ms != [] {
      var next := ApplyMessage(env, ctx, false, ms[0]).value;
      var calls := MessageCalls(env, ctx, false, ms[0], scope);
      MessageShows(env, ctx, ms[0], scope);
      MessagesShow(env, next, ms[1..], scope);
      var r := HandleMessages(env, next, false, ms[1..], scope).value;
      ShowedBoth(ctx.tick, [Heard(ctx.tick, ms[0])], next, calls, HeardOf(ctx.tick, ms[1..]), r.ctx, r.calls);
    }
  }

  lemma BodyShows(env: Env, ctx: Context, cmd: Command)
    requires ctx.tick == cmd.tick && Keyed(ctx.container) && HandleBody(env, ctx, false, cmd.body).Some?
    ensures var r := HandleBody(env, ctx, false, cmd.body).value; Showed(cmd.tick, HeardIn(cmd), r.ctx, r.calls)
  {
    hide HandleMessages, Indexable, FullUpdates, See, Keyed, Effective;
    match cmd.body {
      case Packet(ms) => MessagesShow(env, ctx, ms, Everything);
      case SignonPacket(ms) => MessagesShow(env, ctx, ms, Everything);
      case FullPacket(ss, Some(ms)) => MessagesShow(env, ApplySnapshots(ctx, ss).value, ms, NoEntities);
      case _ =>
    }
  }

  lemma NothingShown(call: Call)
    requires call.OnCmd? || call.OnTickEnd?
    ensures AllEffective([call]) && PacketCalls([call]) == []
  {
    assert [call][1..] == [];
  }

  lemma TickEndShows(ctx: Context)
    ensures AllEffective(TickEnd(ctx)) && PacketCalls(TickEnd(ctx)) == []
  {
    hide Effective, PacketCalls, See;
    if TickEnd(ctx) == [] {
      assert PacketCalls([]) == [] by { NothingHeard(); }
    } else {
      NothingShown(TickEnd(ctx)[0]);
    }
  }

  lemma NothingHeard()
    ensures PacketCalls([]) == []
  {
  }

  lemma HandleShows(env: Env, ctx: Context, cmd: Command)
    requires ctx.tick == cmd.tick && Keyed(ctx.container) && Handle(env, ctx, false, cmd).Some?
    ensures var r := Handle(env, ctx, false, cmd).value; Showed(cmd.tick, HeardIn(cmd), r.ctx, r.calls)
  {
    hide HandleBody, HeardIn, See, Keyed, Effective, PacketCalls, TickEnd;
    BodyShows(env, ctx, cmd);
    var r := HandleBody(env, ctx, false, cmd.body).value;
    var first, last := [OnCmd(See(ctx, CommandScope(cmd)), ctx.prevTick, cmd)], TickEnd(r.ctx);
    NothingShown(first[0]);
    TickEndShows(r.ctx);
    PacketCallsJoin(first + r.calls, last);
    PacketCallsJoin(first, r.calls);
  }

  /** A run that gets through shows every message of every packet once, in order and at the tick of its command;
      whatever entity it shows, the visitor finds it as shown, or finds it gone. */
  lemma {:induction false} RunShows(env: Env, ctx: Context, cmds: seq<Command>)
    requires Keyed(ctx.container) && Run(env, ctx, cmds).Some?
    ensures var r := Run(env, ctx, cmds).value;
      PacketCalls(r.calls) == HeardInAll(cmds) && AllEffective(r.calls) && Keyed(r.ctx.container)
    decreases |cmds|
  {
    hide Handle, Keyed, Effective, HeardIn;
    if cmds != [] {
      var a := Advance(ctx, cmds[0]);
      var r := Handle(env, a, false, cmds[0]).value;
      HandleShows(env, a, cmds[0]);
      RunShows(env, r.ctx, cmds[1..]);
      PacketCallsJoin(r.calls, Run(env, r.ctx, cmds[1..]).value.calls);
    }
  }

  // ---- a call sees what came before it

  lemma {:induction false} MessagesSplit(env: Env, ctx: Context, ms: seq<Message>, j: nat, scope: Scope)
    requires j <= |ms| && HandleMessages(env, ctx, false, ms, scope).Some?
    ensures var before := HandleMessages(env, ctx, false, ms[..j], scope);
      && before.Some?
      && var rest := HandleMessages(env, before.value.ctx, false, ms[j..], scope);
         rest.Some? && HandleMessages(env, ctx, false, ms, scope).value
                       == Out(rest.value.ctx, before.value.calls + rest.value.calls)
    decreases j
  {
    hide ApplyMessage, MessageCalls;
    if j == 0 {
      assert ms[..0] == [] && ms[0..] == ms;
      var calls := HandleMessages(env, ctx, false, ms, scope).value.calls;
      assert [] + calls == calls;
    } else {
      var next := ApplyMessage(env, ctx, false, ms[0]).value;
      assert ms[..j][0] == ms[0] && ms[..j][1..] == ms[1..][..j - 1] && ms[j..] == ms[1..][j - 1..];
      MessagesSplit(env, next, ms[1..], j - 1, scope);
    }
  }

  /** `on_packet` of a message sees the context as the messages before it left it. */
  lemma MessageSeesBefore(env: Env, ctx: Context, ms: seq<Message>, j: nat, scope: Scope)
    requires j < |ms| && HandleMessages(env, ctx, false, ms, scope).Some?
    ensures var before := HandleMessages(env, ctx, false, ms[..j], scope);
      && before.Some?
      && before.value.calls + [OnPacket(See(before.value.ctx, scope), ms[j])]
         <= HandleMessages(env, ctx, false, ms, scope).value.calls
  {
    hide ApplyMessage, See, EntityCalls;
    MessagesSplit(env, ctx, ms, j, scope);
    var before := HandleMessages(env, ctx, false, ms[..j], scope).value;
    var m, now := ms[j], MessageCalls(env, before.ctx, false, ms[j], scope);
    assert ms[j..][0] == m && !m.Unframed? by { NotUnframed(env, before.ctx, ms[j..], scope); }
    var later := HandleMessages(env, ApplyMessage(env, before.ctx, false, m).value, false, ms[j..][1..], scope).value;
    assert HandleMessages(env, ctx, false, ms, scope).value.calls == before.calls + (now + later.calls);
    assert now[..1] == [OnPacket(See(before.ctx, scope), m)];
    Front(before.calls, now, later.calls);
  }

  lemma NotUnframed(env: Env, ctx: Context, ms: seq<Message>, scope: Scope)
    requires ms != [] && HandleMessages(env, ctx, false, ms, scope).Some?
    ensures !ms[0].Unframed?
  {
  }

  lemma Front(a: seq<Call>, b: seq<Call>, c: seq<Call>)
    requires b != []
    ensures a + b[..1] <= a + (b + c)
  {
  }

  lemma {:induction false} RunSplit(env: Env, ctx: Context, cmds: seq<Command>, i: nat)
    requires i < |cmds| && Run(env, ctx, cmds).Some?
    ensures var before := Run(env, ctx, cmds[..i]);
      && before.Some?
      && var now := Handle(env, Advance(before.value.ctx, cmds[i]), false, cmds[i]);
         now.Some? && before.value.calls + now.value.calls <= Run(env, ctx, cmds).value.calls
    decreases i
  {
    hide Handle;
    var r := Handle(env, Advance(ctx, cmds[0]), false, cmds[0]).value;
    if i == 0 {
      assert cmds[..0] == [];
      assert [] + r.calls == r.calls;
    } else {
      assert cmds[..i][0] == cmds[0] && cmds[..i][1..] == cmds[1..][..i - 1];
      RunSplit(env, r.ctx, cmds[1..], i - 1);
      var before := Run(env, r.ctx, cmds[1..][..i - 1]).value;
      var now := Handle(env, Advance(before.ctx, cmds[i]), false, cmds[i]).value;
      var all := Run(env, r.ctx, cmds[1..]).value.calls;
      assert (r.calls + before.calls) + now.calls == r.calls + (before.calls + now.calls);
      Longer(r.calls, before.calls + now.calls, all);
    }
  }

  lemma Longer(a: seq<Call>, b: seq<Call>, c: seq<Call>)
    requires b <= c
    ensures a + b <= a + c
  {
  }

  /** The calls of the run over the commands before the `i`th, its `on_cmd`, the calls for its messages before the
      `j`th, and `on_packet` of that one come first in the record: each sees what was handled by then, no less and
      no more. */
  lemma RunSeesBefore(env: Env, ctx: Context, cmds: seq<Command>, i: nat, ms: seq<Message>, j: nat)
    requires i < |cmds| && (cmds[i].body == Packet(ms) || cmds[i].body == SignonPacket(ms)) && j < |ms|
    requires Run(env, ctx, cmds).Some?
    ensures var before := Run(env, ctx, cmds[..i]);
      && before.Some?
      && var at := Advance(before.value.ctx, cmds[i]);
         var part := HandleMessages(env, at, false, ms[..j], Everything);
         && part.Some?
         && before.value.calls
            + ([OnCmd(See(at, Everything), before.value.ctx.tick, cmds[i])]
               + (part.value.calls + [OnPacket(See(part.value.ctx, Everything), ms[j])]))
            <= Run(env, ctx, cmds).value.calls
  {
    hide Run, HandleMessages, See;
    RunSplit(env, ctx, cmds, i);
    var before := Run(env, ctx, cmds[..i]).value;
    var at := Advance(before.ctx, cmds[i]);
    var first := [OnCmd(See(at, Everything), before.ctx.tick, cmds[i])];
    MessageSeesBefore(env, at, ms, j, Everything);
    var part := HandleMessages(env, at, false, ms[..j], Everything).value;
    var shown := part.calls + [OnPacket(See(part.ctx, Everything), ms[j])];
    var all := HandleMessages(env, at, false, ms, Everything).value;
    var now := Handle(env, at, false, cmds[i]).value.calls;
    assert now == first + all.calls + TickEnd(all.ctx);
    Within(first, shown, all.calls, TickEnd(all.ctx));
    Longer(before.calls, first + shown, now);
  }

  lemma Within(a: seq<Call>, b: seq<Call>, c: seq<Call>, d: seq<Call>)
    requires b <= c
    ensures a + b <= a + c + d
  {
  }
}
