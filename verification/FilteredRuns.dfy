/** The player with a filter shows what the player without one shows, less the entities that are not
    tracked. */
module FilteredRuns {
  import opened Prelude
  import opened Bits
  import opened FxHash
  import opened Entities
  import opened EntityFilter
  import opened StringTables
  import opened Player

  /** The same player with a visitor that tracks everything. */
  function Unfiltered(env: Env): Env
  {
    env.(track := TRACK_ALL)
  }

  // ---- what the filter leaves of a record

  function TrackedOnly(track: Word -> bool, entities: map<int, EntityData>): map<int, EntityData>
  {
    map i | i in entities && Tracked(track, entities[i]) :: entities[i]
  }

  function FilterSight(track: Word -> bool, s: Sight): Sight
  {
    s.(entities := if s.entities.Some? then Some(TrackedOnly(track, s.entities.value)) else None)
  }

  /** The calls less those for untracked entities, each with the tracked entities only. */
  function FilterCalls(track: Word -> bool, calls: seq<Call>): seq<Call>
  {
    if calls == [] then []
    else FilterCall(track, calls[0]) + FilterCalls(track, calls[1..])
  }

  function FilterCall(track: Word -> bool, call: Call): seq<Call>
  {
    match call
    case OnCmd(s, prevTick, cmd) => [OnCmd(FilterSight(track, s), prevTick, cmd)]
    case OnPacket(s, msg) => [OnPacket(FilterSight(track, s), msg)]
    case OnEntity(s, event) => if Tracked(track, event.entity) then [OnEntity(FilterSight(track, s), event)] else []
    case OnTickEnd(s) => [OnTickEnd(FilterSight(track, s))]
  }

  lemma {:induction false} FilterCallsConcat(track: Word -> bool, a: seq<Call>, b: seq<Call>)
    ensures FilterCalls(track, a + b) == FilterCalls(track, a) + FilterCalls(track, b)
    decreases |a|
  {
    hide FilterCall;
    var ab := a + b;
    if a == [] {
      assert ab == b;
    } else {
      assert ab[0] == a[0] && ab[1..] == a[1..] + b;
      FilterCallsConcat(track, a[1..], b);
    }
  }

  lemma FilterOne(track: Word -> bool, call: Call)
    ensures FilterCalls(track, [call]) == FilterCall(track, call)
  {
    hide FilterCall;
    assert [call][1..] == [] && FilterCall(track, call) + [] == FilterCall(track, call);
  }

  // ---- the two runs side by side

  /** `f` is `u` with the filter applied to its entities. */
  ghost predicate Filters(env: Env, u: Context, f: Context)
  {
    && f == u.(container := f.container) && Projection(env.track, u.container, f.container)
    && (u.container.baselines != map[] ==>
          u.classes.Some? && u.serializers.Some? && Classed(SchemaOf(env, u), u.container))
  }

  lemma ProjectedEntities(track: Word -> bool, u: Container, f: Container)
    requires Projection(track, u, f)
    ensures TrackedOnly(track, u.entities) == f.entities
  {
    var only := TrackedOnly(track, u.entities);
    assert forall i :: i in only <==> i in f.entities;
    assert forall i | i in only :: only[i] == f.entities[i];
  }

  lemma SeeFiltered(env: Env, u: Context, f: Context, scope: Scope)
    requires Filters(env, u, f)
    ensures FilterSight(env.track, See(u, scope)) == See(f, scope)
  {
    hide Projection, Classed, BaselinesIn;
    ProjectedEntities(env.track, u.container, f.container);
  }

  /** A message about entities as the unfiltered run meets it. */
  datatype Met = Met(ctx: Context, count: nat, data: BitString)

  ghost predicate NeverSwitch(env: Env, mets: seq<Met>)
  {
    forall i | 0 <= i < |mets| && mets[i].ctx.classes.Some? && mets[i].ctx.serializers.Some? ::
      var c := mets[i].ctx;
      NoSwitches(mets[i].count, SchemaOf(env, c), env.track, BaselinesIn(c), c.interval, c.container, -1, mets[i].data)
  }

  ghost predicate AlwaysBased(env: Env, mets: seq<Met>)
  {
    forall i | 0 <= i < |mets| && mets[i].ctx.classes.Some? && mets[i].ctx.serializers.Some? ::
      var c := mets[i].ctx;
      AllBased(mets[i].count, SchemaOf(env, c), env.track, BaselinesIn(c), c.interval, c.container, -1, mets[i].data)
  }

  function MetIn(env: Env, ctx: Context, ms: seq<Message>): seq<Met>
    decreases |ms|
  {
    if ms == [] then []
    else
      (if ms[0].PacketEntities? then [Met(ctx, ms[0].numEntries, ms[0].data)] else [])
      + match ApplyMessage(env, ctx, false, ms[0])
        case Some(c) => MetIn(env, c, ms[1..])
        case None => []
  }

  function MetInBody(env: Env, ctx: Context, body: Body): seq<Met>
  {
    match body
    case Packet(ms) => MetIn(env, ctx, ms)
    case SignonPacket(ms) => MetIn(env, ctx, ms)
    case FullPacket(ss, Some(ms)) =>
      (match ApplySnapshots(ctx, ss) case Some(c) => MetIn(env, c, ms) case None => [])
    case _ => []
  }

  /** All messages about entities that a run comes to. */
  function MetInRun(env: Env, ctx: Context, cmds: seq<Command>): seq<Met>
    decreases |cmds|
  {
    if cmds == [] then []
    else
      MetInBody(env, Advance(ctx, cmds[0]), cmds[0].body)
      + match Handle(env, Advance(ctx, cmds[0]), false, cmds[0])
        case Some(r) => MetInRun(env, r.ctx, cmds[1..])
        case None => []
  }

  lemma MetConcat(env: Env, a: seq<Met>, b: seq<Met>)
    ensures NeverSwitch(env, a + b) <==> NeverSwitch(env, a) && NeverSwitch(env, b)
    ensures AlwaysBased(env, a + b) <==> AlwaysBased(env, a) && AlwaysBased(env, b)
  {
    hide NoSwitches, AllBased, BaselinesIn, SchemaOf;
    forall i | 0 <= i < |a|
      ensures (a + b)[i] == a[i]
    {
    }
    forall i | 0 <= i < |b|
      ensures (a + b)[|a| + i] == b[i]
    {
    }
  }

  // ---- entities

  lemma {:induction false} ShownFiltered(env: Env, u: Context, f: Context, scope: Scope, events: seq<EntityEvent>)
    requires Filters(env, u, f)
    ensures FilterCalls(env.track, Shown(u, scope, events)) == Shown(f, scope, FilterEvents(env.track, events))
    decreases |events|
  {
    hide See, Filters, FilterSight;
    if events != [] {
      SeeFiltered(env, u, f, scope);
      ShownFiltered(env, u, f, scope, events[1..]);
      assert Shown(u, scope, events)[1..] == Shown(u, scope, events[1..]);
      var rest := FilterEvents(env.track, events[1..]);
      assert Shown(f, scope, [events[0]] + rest) == [OnEntity(See(f, scope), events[0])] + Shown(f, scope, rest);
      assert [] + rest == rest;
    }
  }

  lemma {:induction false} EntityCallsFiltered(env: Env, u: Context, f: Context, scope: Scope, n: nat, prev: int,
                                               b: BitString)
    requires Filters(env, u, f) && u.classes.Some? && u.serializers.Some?
    requires NoSwitches(n, SchemaOf(env, u), env.track, BaselinesIn(u), u.interval, u.container, prev, b)
    requires HandleEntries(n, SchemaOf(env, u), TRACK_ALL, BaselinesIn(u), u.interval, u.container, prev, b).Ok?
    ensures FilterCalls(env.track, EntityCalls(Unfiltered(env), u, scope, n, prev, b))
         == EntityCalls(env, f, scope, n, prev, b)
    decreases n
  {
    hide HandleDelta, ReadEntryHead, Projection, Classed, NoSwitch, See, Shown, CurrentBaselines, FilterCalls;
    if n > 0 {
      var schema := SchemaOf(env, u);
      var h, b1 := ReadEntryHead(prev, b).value, ReadEntryHead(prev, b).rest;
      FiltersClassed(env, u, f);
      DeltaProjects(schema, env.track, BaselinesIn(u), u.interval, u.container, f.container, h.index, h.delta, b1);
      var su := HandleDelta(schema, TRACK_ALL, BaselinesIn(u), u.interval, u.container, h.index, h.delta, b1);
      var sf := HandleDelta(schema, env.track, BaselinesIn(u), u.interval, f.container, h.index, h.delta, b1);
      var u1, f1 := u.(container := su.value.container), f.(container := sf.value.container);
      ShownFiltered(env, u1, f1, scope, su.value.events);
      EntityCallsFiltered(env, u1, f1, scope, n - 1, su.value.index, su.rest);
      FilterCallsConcat(env.track, Shown(u1, scope, su.value.events),
                        EntityCalls(Unfiltered(env), u1, scope, n - 1, su.value.index, su.rest));
    } else {
      assert FilterCalls(env.track, []) == [] by { FilterNothing(env.track); }
    }
  }

  lemma FilterNothing(track: Word -> bool)
    ensures FilterCalls(track, []) == []
  {
  }

  lemma FiltersClassed(env: Env, u: Context, f: Context)
    requires Filters(env, u, f) && u.classes.Some? && u.serializers.Some?
    ensures Projection(env.track, u.container, f.container) && Classed(SchemaOf(env, u), u.container)
    ensures SchemaOf(Unfiltered(env), u) == SchemaOf(env, f) == SchemaOf(env, u) && BaselinesIn(f) == BaselinesIn(u)
  {
  }

  // ---- messages

  /** A message does the same to both contexts, but for the filter. */
  ghost predicate Same(env: Env, ru: Option<Context>, rf: Option<Context>)
  {
    ru.Some? ==> rf.Some? && Filters(env, ru.value, rf.value)
  }

  lemma MessageFiltered(env: Env, u: Context, f: Context, m: Message, scope: Scope)
    requires Filters(env, u, f) && NeverSwitch(env, MetIn(Unfiltered(env), u, [m]))
    ensures var ru, rf := ApplyMessage(Unfiltered(env), u, false, m), ApplyMessage(env, f, false, m);
      && (ru.Some? <==> rf.Some? && AlwaysBased(env, MetIn(Unfiltered(env), u, [m])))
      && Same(env, ru, rf)
      && (ru.Some? ==>
            FilterCalls(env.track, MessageCalls(Unfiltered(env), u, false, m, scope))
            == MessageCalls(env, f, false, m, scope))
  {
    hide See, FilterCalls, HandleEntries, EntityCalls, ParseUpdate, FindTable, BaselinesIndexable, CurrentBaselines;
    hide Projection, Classed, NoSwitches, AllBased, FilterSight;
    SeeFiltered(env, u, f, scope);
    var first := OnPacket(See(u, scope), m);
    FilterOne(env.track, first);
    MetAlone(env, u, m);
    if m.PacketEntities? && u.classes.Some? && u.serializers.Some? {
      FiltersClassed(env, u, f);
      var mets := MetIn(Unfiltered(env), u, [m]);
      assert mets[0] == Met(u, m.numEntries, m.data);
      EntriesProject(m.numEntries, SchemaOf(env, u), env.track, BaselinesIn(u), u.interval, u.container, f.container,
                     -1, m.data);
      if HandlePacketEntities(Unfiltered(env), u, m.numEntries, m.data).Some? {
        EntityCallsFiltered(env, u, f, scope, m.numEntries, -1, m.data);
        FilterCallsConcat(env.track, [first], EntityCalls(Unfiltered(env), u, scope, m.numEntries, -1, m.data));
      }
    } else {
      assert [first] + [] == [first];
      assert [OnPacket(See(f, scope), m)] + [] == [OnPacket(See(f, scope), m)];
    }
  }

  lemma MetAlone(env: Env, u: Context, m: Message)
    ensures MetIn(Unfiltered(env), u, [m]) == if m.PacketEntities? then [Met(u, m.numEntries, m.data)] else []
  {
    hide ApplyMessage;
    assert [m][1..] == [];
  }

  lemma MetNext(env: Env, u: Context, ms: seq<Message>)
    requires ms != []
    ensures var r, one := ApplyMessage(env, u, false, ms[0]), MetIn(env, u, [ms[0]]);
      MetIn(env, u, ms) == if r.Some? then one + MetIn(env, r.value, ms[1..]) else one
  {
    hide ApplyMessage;
    var first := if ms[0].PacketEntities? then [Met(u, ms[0].numEntries, ms[0].data)] else [];
    assert [ms[0]][1..] == [] && first + [] == first;
  }

  lemma {:induction false} MessagesFiltered(env: Env, u: Context, f: Context, ms: seq<Message>, scope: Scope)
    requires Filters(env, u, f) && NeverSwitch(env, MetIn(Unfiltered(env), u, ms))
    ensures var ru := HandleMessages(Unfiltered(env), u, false, ms, scope);
      var rf := HandleMessages(env, f, false, ms, scope);
      && (ru.Some? <==> rf.Some? && AlwaysBased(env, MetIn(Unfiltered(env), u, ms)))
      && (ru.Some? ==> Filters(env, ru.value.ctx, rf.value.ctx)
                       && FilterCalls(env.track, ru.value.calls) == rf.value.calls)
    decreases |ms|
  {
    hide ApplyMessage, MessageCalls, Filters, NeverSwitch, AlwaysBased, MetIn, FilterCalls;
    if ms == [] {
      NothingMet(env, u);
      FilterNothing(env.track);
    } else {
      var e := Unfiltered(env);
      MetNext(e, u, ms);
      var ru, rf := ApplyMessage(e, u, false, ms[0]), ApplyMessage(env, f, false, ms[0]);
      if ru.Some? {
        MetConcat(env, MetIn(e, u, [ms[0]]), MetIn(e, ru.value, ms[1..]));
        MessageFiltered(env, u, f, ms[0], scope);
        MessagesFiltered(env, ru.value, rf.value, ms[1..], scope);
        var more := HandleMessages(e, ru.value, false, ms[1..], scope);
        if more.Some? {
          FilterCallsConcat(env.track, MessageCalls(e, u, false, ms[0], scope), more.value.calls);
        }
      } else {
        MessageFiltered(env, u, f, ms[0], scope);
      }
    }
  }

  lemma NothingMet(env: Env, u: Context)
    ensures MetIn(Unfiltered(env), u, []) == [] && AlwaysBased(env, [])
  {
  }

  // ---- commands and runs

  lemma InitFiltered(env: Env, u: Context, f: Context, body: Body)
    requires Filters(env, u, f) && (body.SendTables? || body.ClassInfo?)
    ensures var ru, rf := HandleBody(Unfiltered(env), u, false, body), HandleBody(env, f, false, body);
      && (ru.Some? <==> rf.Some?)
      && (ru.Some? ==> Filters(env, ru.value.ctx, rf.value.ctx) && ru.value.calls == rf.value.calls == [])
  {
    hide BaselinesIndexable, Projection, Classed;
  }

  lemma SnapshotsFiltered(env: Env, u: Context, f: Context, ss: Option<seq<Snapshot>>)
    requires Filters(env, u, f)
    ensures ApplySnapshots(u, ss).Some? <==> ApplySnapshots(f, ss).Some?
    ensures ApplySnapshots(u, ss).Some? ==> Filters(env, ApplySnapshots(u, ss).value, ApplySnapshots(f, ss).value)
  {
    hide FullUpdates, BaselinesIndexable, Projection, Classed;
  }

  lemma BodyFiltered(env: Env, u: Context, f: Context, body: Body)
    requires Filters(env, u, f) && NeverSwitch(env, MetInBody(Unfiltered(env), u, body))
    ensures var ru, rf := HandleBody(Unfiltered(env), u, false, body), HandleBody(env, f, false, body);
      && (ru.Some? <==> rf.Some? && AlwaysBased(env, MetInBody(Unfiltered(env), u, body)))
      && (ru.Some? ==> Filters(env, ru.value.ctx, rf.value.ctx)
                       && FilterCalls(env.track, ru.value.calls) == rf.value.calls)
  {
    hide HandleMessages, HandleSendTables, HandleClassInfo, ApplySnapshots, Filters, NeverSwitch, MetIn, FilterCalls;
    hide AlwaysBased;
    FilterNothing(env.track);
    NothingMet(env, u);
    match body
    case Packet(ms) => MessagesFiltered(env, u, f, ms, Everything);
    case SignonPacket(ms) => MessagesFiltered(env, u, f, ms, Everything);
    case SendTables(_) => InitFiltered(env, u, f, body);
    case ClassInfo(_) => InitFiltered(env, u, f, body);
    case FullPacket(ss, packet) =>
      SnapshotsFiltered(env, u, f, ss);
      if packet.Some? && ApplySnapshots(u, ss).Some? {
        MessagesFiltered(env, ApplySnapshots(u, ss).value, ApplySnapshots(f, ss).value, packet.value, NoEntities);
      }
    case _ =>
  }

  lemma HandleFiltered(env: Env, u: Context, f: Context, cmd: Command)
    requires Filters(env, u, f) && NeverSwitch(env, MetInBody(Unfiltered(env), u, cmd.body))
    ensures var ru, rf := Handle(Unfiltered(env), u, false, cmd), Handle(env, f, false, cmd);
      && (ru.Some? <==> rf.Some? && AlwaysBased(env, MetInBody(Unfiltered(env), u, cmd.body)))
      && (ru.Some? ==> Filters(env, ru.value.ctx, rf.value.ctx)
                       && FilterCalls(env.track, ru.value.calls) == rf.value.calls)
  {
    hide HandleBody, NeverSwitch, AlwaysBased, MetInBody, FilterCalls, See, FilterSight, Projection, Classed;
    BodyFiltered(env, u, f, cmd.body);
    SeeFiltered(env, u, f, CommandScope(cmd));
    var ru, rf := HandleBody(Unfiltered(env), u, false, cmd.body), HandleBody(env, f, false, cmd.body);
    if ru.Some? {
      var first, last := OnCmd(See(u, CommandScope(cmd)), u.prevTick, cmd), TickEnd(ru.value.ctx);
      FilterOne(env.track, first);
      FilterCallsConcat(env.track, [first] + ru.value.calls, last);
      FilterCallsConcat(env.track, [first], ru.value.calls);
      SeeFiltered(env, ru.value.ctx, rf.value.ctx, Everything);
      FilterOne(env.track, OnTickEnd(See(ru.value.ctx, Everything)));
      FilterNothing(env.track);
    }
  }

  lemma {:induction false} RunFiltered(env: Env, u: Context, f: Context, cmds: seq<Command>)
    requires Filters(env, u, f) && NeverSwitch(env, MetInRun(Unfiltered(env), u, cmds))
    ensures var ru, rf := Run(Unfiltered(env), u, cmds), Run(env, f, cmds);
      && (ru.Some? <==> rf.Some? && AlwaysBased(env, MetInRun(Unfiltered(env), u, cmds)))
      && (ru.Some? ==> Filters(env, ru.value.ctx, rf.value.ctx)
                       && FilterCalls(env.track, ru.value.calls) == rf.value.calls)
    decreases |cmds|
  {
    hide Handle, Filters, NeverSwitch, AlwaysBased, MetInBody, FilterCalls;
    if cmds == [] {
      NothingMet(env, u);
      FilterNothing(env.track);
    } else {
      var e, u1, f1 := Unfiltered(env), Advance(u, cmds[0]), Advance(f, cmds[0]);
      AdvanceFilters(env, u, f, cmds[0]);
      var ru, rf := Handle(e, u1, false, cmds[0]), Handle(env, f1, false, cmds[0]);
      var here := MetInBody(e, u1, cmds[0].body);
      assert here + [] == here;
      if ru.Some? {
        MetConcat(env, here, MetInRun(e, ru.value.ctx, cmds[1..]));
        HandleFiltered(env, u1, f1, cmds[0]);
        RunFiltered(env, ru.value.ctx, rf.value.ctx, cmds[1..]);
        var more := Run(e, ru.value.ctx, cmds[1..]);
        if more.Some? {
          FilterCallsConcat(env.track, ru.value.calls, more.value.calls);
        }
      } else {
        HandleFiltered(env, u1, f1, cmds[0]);
      }
    }
  }

  lemma AdvanceFilters(env: Env, u: Context, f: Context, cmd: Command)
    requires Filters(env, u, f)
    ensures Filters(env, Advance(u, cmd), Advance(f, cmd))
  {
    hide Projection, Classed;
  }

  /** Over a whole demo from any state of the parser, for any filter under which no create switches: the player
      with the filter gets through if the one without does, and the other way round exactly if every untracked
      create had a baseline that parses.  Then the visitor is shown the same calls in the same order, less those
      for untracked entities, each with the same context but for the untracked entities. */
  lemma FilteredRun(env: Env, ctx: Context, cmds: seq<Command>)
    requires NeverSwitch(env, MetInRun(Unfiltered(env), ResetContext(ctx), cmds))
    ensures var all, filtered := Run(Unfiltered(env), ResetContext(ctx), cmds), Run(env, ResetContext(ctx), cmds);
      && (all.Some? <==>
            filtered.Some? && AlwaysBased(env, MetInRun(Unfiltered(env), ResetContext(ctx), cmds)))
      && (all.Some? ==>
            && filtered.value.calls == FilterCalls(env.track, all.value.calls)
            && filtered.value.ctx == all.value.ctx.(container := filtered.value.ctx.container)
            && Projection(env.track, all.value.ctx.container, filtered.value.ctx.container))
  {
    hide NeverSwitch, AlwaysBased, MetInRun, Run, FilterCalls;
    RunFiltered(env, ResetContext(ctx), ResetContext(ctx), cmds);
  }
}
