/** A run that skips untracked entities is the projection of the run that tracks everything. */
module EntityFilter {
  import opened Prelude
  import opened Bits
  import opened FxHash
  import opened Entities

  const TRACK_ALL: Word -> bool := (_: Word) => true

  predicate Tracked(track: Word -> bool, e: EntityData)
  {
    track(e.serializer.nameHash)
  }

  /** No index is both materialized and skipped. */
  predicate Disjoint(c: Container)
  {
    forall i | i in c.entities :: i !in c.skipped
  }

  /** `f` holds the tracked entities of `u`, and for each untracked one its serializer. */
  ghost predicate Projection(track: Word -> bool, u: Container, f: Container)
  {
    && u.skipped == map[]
    && (forall i :: i in f.entities <==> i in u.entities && Tracked(track, u.entities[i]))
    && (forall i :: i in f.entities ==> f.entities[i] == u.entities[i])
    && (forall i :: i in f.skipped <==> i in u.entities && !Tracked(track, u.entities[i]))
    && (forall i :: i in f.skipped ==> f.skipped[i] == u.entities[i].serializer)
    && (forall k :: k in f.baselines <==> k in u.baselines && Tracked(track, u.baselines[k]))
    && (forall k :: k in f.baselines ==> f.baselines[k] == u.baselines[k])
  }

  lemma ProjectionDisjoint(track: Word -> bool, u: Container, f: Container)
    requires Projection(track, u, f)
    ensures Disjoint(f)
  {
  }

  /** The cached baseline of a class has the serializer of the class. */
  ghost predicate Classed(schema: Schema, c: Container)
  {
    forall k | k in c.baselines ::
      0 <= k < |schema.classes| && schema.classes[k] in schema.serializers
      && c.baselines[k].serializer == schema.serializers[schema.classes[k]]
  }

  function FilterEvents(track: Word -> bool, events: seq<EntityEvent>): seq<EntityEvent>
  {
    if events == [] then []
    else (if Tracked(track, events[0].entity) then [events[0]] else []) + FilterEvents(track, events[1..])
  }

  lemma {:induction false} FilterConcat(track: Word -> bool, a: seq<EntityEvent>, b: seq<EntityEvent>)
    ensures FilterEvents(track, a + b) == FilterEvents(track, a) + FilterEvents(track, b)
  {
    hide Tracked;
    var ab := a + b;
    if a == [] {
      assert ab == b;
    } else {
      assert ab[0] == a[0] && ab[1..] == a[1..] + b;
      FilterConcat(track, a[1..], b);
      var head := if Tracked(track, a[0].entity) then [a[0]] else [];
      assert head + (FilterEvents(track, a[1..]) + FilterEvents(track, b))
          == (head + FilterEvents(track, a[1..])) + FilterEvents(track, b);
    }
  }

  /** A create at an occupied index does not change whether the index is tracked. */
  ghost predicate NoSwitch(schema: Schema, track: Word -> bool, u: Container, index: int, delta: Delta, b: BitString)
  {
    delta.Create? && index in u.entities && ReadHead(schema, b).Ok? ==>
      track(ReadHead(schema, b).value.serializer.nameHash) == Tracked(track, u.entities[index])
  }

  /** A create of an untracked class finds a cached baseline entity or a baseline that parses: the run that
      tracks everything needs one, the filtered run does not look. */
  ghost predicate Based(schema: Schema, track: Word -> bool, baselines: Baselines, interval: nat, u: Container,
                        index: int, delta: Delta, b: BitString)
  {
    delta.Create? && ReadHead(schema, b).Ok? && !track(ReadHead(schema, b).value.serializer.nameHash) ==>
      Cached(schema, baselines, interval, u, index, ReadHead(schema, b).value).Some?
  }

  lemma CreateProjects(schema: Schema, track: Word -> bool, baselines: Baselines, interval: nat, u: Container,
                       f: Container, index: int, b: BitString)
    requires Projection(track, u, f) && Classed(schema, u)
    requires NoSwitch(schema, track, u, index, Create, b)
    ensures var ru, rf := HandleCreate(schema, TRACK_ALL, baselines, interval, u, index, b),
                          HandleCreate(schema, track, baselines, interval, f, index, b);
      && (ru.Ok? <==> rf.Ok? && Based(schema, track, baselines, interval, u, index, Create, b))
      && (ru.Ok? ==>
            && rf.rest == ru.rest
            && Projection(track, ru.value.container, rf.value.container) && Classed(schema, ru.value.container)
            && ru.value.tracked && index in ru.value.container.entities
            && rf.value.tracked == Tracked(track, ru.value.container.entities[index]))
  {
    hide ReadHead, ParseEntity, SkipEntity, FreshBaseline, Projection;
    if ReadHead(schema, b).Ok? {
      var head, b1 := ReadHead(schema, b).value, ReadHead(schema, b).rest;
      HeadClassed(schema, b);
      SameCached(track, schema, baselines, interval, u, f, index, head);
      if Cached(schema, baselines, interval, u, index, head).Some? {
        var base := Cached(schema, baselines, interval, u, index, head).value;
        assert base.serializer == head.serializer;
        SkipEntityAgrees(schema, head.serializer, base.fields, interval, b1);
        if HandleCreate(schema, TRACK_ALL, baselines, interval, u, index, b).Ok? {
          var e := EntityData(index, ParseEntity(schema, base.serializer, base.fields, interval, b1).value,
              base.serializer);
          if track(head.serializer.nameHash) {
            PutTracked(track, u, f, index, e, head.classId, base);
          } else {
            PutSkipped(track, u, f, index, e, head.classId, base);
          }
        }
      }
    }
  }

  /** For a tracked class both runs have the same cached baseline entity. */
  lemma SameCached(track: Word -> bool, schema: Schema, baselines: Baselines, interval: nat, u: Container,
                   f: Container, index: int, head: Head)
    requires Projection(track, u, f)
    requires head.classId in u.baselines ==> u.baselines[head.classId].serializer == head.serializer
    ensures track(head.serializer.nameHash) ==>
      Cached(schema, baselines, interval, f, index, head) == Cached(schema, baselines, interval, u, index, head)
  {
    hide FreshBaseline;
  }

  lemma PutTracked(track: Word -> bool, u: Container, f: Container, i: int, e: EntityData, k: int, base: EntityData)
    requires Projection(track, u, f) && Tracked(track, e) && Tracked(track, base)
    requires i in u.entities ==> Tracked(track, u.entities[i])
    requires k in u.baselines ==> u.baselines[k] == base
    ensures Projection(track, Container(u.entities[i := e], u.baselines[k := base], u.skipped),
                       Container(f.entities[i := e], f.baselines[k := base], f.skipped))
  {
  }

  lemma PutSkipped(track: Word -> bool, u: Container, f: Container, i: int, e: EntityData, k: int, base: EntityData)
    requires Projection(track, u, f) && !Tracked(track, e) && !Tracked(track, base)
    requires i in u.entities ==> !Tracked(track, u.entities[i])
    requires k in u.baselines ==> u.baselines[k] == base
    ensures Projection(track, Container(u.entities[i := e], u.baselines[k := base], u.skipped),
                       f.(skipped := f.skipped[i := e.serializer]))
  {
  }

  lemma SeenProjects(track: Word -> bool, u: Container, f: Container, i: int, delta: Delta)
    requires Projection(track, u, f)
    ensures Seen(delta, f.entities, i) == FilterEvents(track, Seen(delta, u.entities, i))
  {
  }

  lemma RemovedProjects(schema: Schema, track: Word -> bool, u: Container, f: Container, i: int)
    requires Projection(track, u, f) && Classed(schema, u)
    ensures Projection(track, Removed(u, i), Removed(f, i)) && Classed(schema, Removed(u, i))
  {
  }

  lemma HeadClassed(schema: Schema, b: BitString)
    ensures ReadHead(schema, b).Ok? ==>
      var head := ReadHead(schema, b).value;
      && head.classId < |schema.classes| && schema.classes[head.classId] in schema.serializers
      && head.serializer == schema.serializers[schema.classes[head.classId]]
  {
  }

  lemma UpdateKeepsCache(schema: Schema, interval: nat, u: Container, index: int, b: BitString)
    requires Classed(schema, u) && HandleUpdate(schema, interval, u, index, b).Ok?
    ensures Classed(schema, HandleUpdate(schema, interval, u, index, b).value)
    ensures HandleUpdate(schema, interval, u, index, b).value.baselines == u.baselines
  {
    hide ParseEntity, SkipEntity;
  }

  lemma UpdateProjects(schema: Schema, track: Word -> bool, interval: nat, u: Container, f: Container, index: int,
      b: BitString)
    requires Projection(track, u, f) && Classed(schema, u)
    ensures var ru, rf := HandleUpdate(schema, interval, u, index, b), HandleUpdate(schema, interval, f, index, b);
      && (ru.Ok? <==> rf.Ok?)
      && (ru.Ok? ==> rf.rest == ru.rest && Projection(track, ru.value, rf.value) && Classed(schema, ru.value))
  {
    hide ParseEntity, SkipEntity, Classed, Projection;
    HeldProjects(track, u, f, index);
    if index in u.entities {
      var e := u.entities[index];
      SkipEntityAgrees(schema, e.serializer, e.fields, interval, b);
      if HandleUpdate(schema, interval, u, index, b).Ok? {
        UpdateKeepsCache(schema, interval, u, index, b);
        PutUpdated(track, u, f, index, HandleUpdate(schema, interval, u, index, b).value.entities[index]);
      }
    }
  }

  lemma HeldProjects(track: Word -> bool, u: Container, f: Container, index: int)
    requires Projection(track, u, f)
    ensures index !in u.skipped
    ensures index in f.entities <==> index in u.entities && Tracked(track, u.entities[index])
    ensures index in f.entities ==> f.entities[index] == u.entities[index]
    ensures index in f.skipped <==> index in u.entities && !Tracked(track, u.entities[index])
    ensures index in f.skipped ==> f.skipped[index] == u.entities[index].serializer
  {
  }

  lemma PutUpdated(track: Word -> bool, u: Container, f: Container, i: int, e: EntityData)
    requires Projection(track, u, f) && i in u.entities && e.serializer == u.entities[i].serializer
    ensures Projection(track, u.(entities := u.entities[i := e]),
                       if Tracked(track, e) then f.(entities := f.entities[i := e]) else f)
  {
  }

  lemma DeltaProjects(schema: Schema, track: Word -> bool, baselines: Baselines, interval: nat, u: Container,
                      f: Container, index: int, delta: Delta, b: BitString)
    requires Projection(track, u, f) && Classed(schema, u)
    requires NoSwitch(schema, track, u, index, delta, b)
    ensures var ru, rf := HandleDelta(schema, TRACK_ALL, baselines, interval, u, index, delta, b),
                          HandleDelta(schema, track, baselines, interval, f, index, delta, b);
      && (ru.Ok? <==> rf.Ok? && Based(schema, track, baselines, interval, u, index, delta, b))
      && (ru.Ok? ==> Projects(schema, track, ru, rf))
  {
    hide HandleCreate, HandleUpdate, ReadHead, Cached;
    match delta
    case Create =>
      CreateProjects(schema, track, baselines, interval, u, f, index, b);
      var ru := HandleCreate(schema, TRACK_ALL, baselines, interval, u, index, b);
      var rf := HandleCreate(schema, track, baselines, interval, f, index, b);
      if ru.Ok? {
        SeenProjects(track, ru.value.container, rf.value.container, index, Create);
      }
    case Update =>
      UpdateProjects(schema, track, interval, u, f, index, b);
      var ru, rf := HandleUpdate(schema, interval, u, index, b), HandleUpdate(schema, interval, f, index, b);
      if ru.Ok? {
        SeenProjects(track, ru.value, rf.value, index, Update);
      }
    case Leave => RemovedProjects(schema, track, u, f, index); SeenProjects(track, u, f, index, Leave);
    case Delete => RemovedProjects(schema, track, u, f, index); SeenProjects(track, u, f, index, Delete);
  }

  /** The filtered step stops at the same bit, with the projected state and the tracked events. */
  ghost predicate Projects(schema: Schema, track: Word -> bool, ru: Read<Stepped>, rf: Read<Stepped>)
    requires ru.Ok?
  {
    && rf.Ok? && rf.rest == ru.rest && rf.value.index == ru.value.index
    && Projection(track, ru.value.container, rf.value.container) && Classed(schema, ru.value.container)
    && rf.value.events == FilterEvents(track, ru.value.events)
  }

  /** No create of the unfiltered run switches. */
  ghost predicate NoSwitches(n: nat, schema: Schema, track: Word -> bool, baselines: Baselines, interval: nat,
                             u: Container, prev: int, b: BitString)
    decreases n
  {
    n > 0 && ReadEntryHead(prev, b).Ok? ==>
      var h, b1 := ReadEntryHead(prev, b).value, ReadEntryHead(prev, b).rest;
      && NoSwitch(schema, track, u, h.index, h.delta, b1)
      && var r := HandleDelta(schema, TRACK_ALL, baselines, interval, u, h.index, h.delta, b1);
         r.Ok? ==> NoSwitches(n - 1, schema, track, baselines, interval, r.value.container, r.value.index, r.rest)
  }

  /** Every untracked create of the unfiltered run is based. */
  ghost predicate AllBased(n: nat, schema: Schema, track: Word -> bool, baselines: Baselines, interval: nat,
                           u: Container, prev: int, b: BitString)
    decreases n
  {
    n > 0 && ReadEntryHead(prev, b).Ok? ==>
      var h, b1 := ReadEntryHead(prev, b).value, ReadEntryHead(prev, b).rest;
      && Based(schema, track, baselines, interval, u, h.index, h.delta, b1)
      && var r := HandleDelta(schema, TRACK_ALL, baselines, interval, u, h.index, h.delta, b1);
         r.Ok? ==> AllBased(n - 1, schema, track, baselines, interval, r.value.container, r.value.index, r.rest)
  }

  lemma {:induction false} EntriesProject(n: nat, schema: Schema, track: Word -> bool, baselines: Baselines,
      interval: nat, u: Container, f: Container, prev: int, b: BitString)
    requires Projection(track, u, f) && Classed(schema, u)
    requires NoSwitches(n, schema, track, baselines, interval, u, prev, b)
    ensures var ru, rf := HandleEntries(n, schema, TRACK_ALL, baselines, interval, u, prev, b),
                          HandleEntries(n, schema, track, baselines, interval, f, prev, b);
      && (ru.Ok? <==> rf.Ok? && AllBased(n, schema, track, baselines, interval, u, prev, b))
      && (ru.Ok? ==> Projects(schema, track, ru, rf))
    decreases n
  {
    hide HandleDelta, ReadEntryHead, Projection, Classed, Based, NoSwitch;
    if n > 0 && ReadEntryHead(prev, b).Ok? {
      var h, b1 := ReadEntryHead(prev, b).value, ReadEntryHead(prev, b).rest;
      DeltaProjects(schema, track, baselines, interval, u, f, h.index, h.delta, b1);
      var su := HandleDelta(schema, TRACK_ALL, baselines, interval, u, h.index, h.delta, b1);
      var sf := HandleDelta(schema, track, baselines, interval, f, h.index, h.delta, b1);
      if su.Ok? {
        EntriesProject(n - 1, schema, track, baselines, interval, su.value.container, sf.value.container,
            su.value.index, su.rest);
        var tu := HandleEntries(n - 1, schema, TRACK_ALL, baselines, interval, su.value.container, su.value.index,
            su.rest);
        if tu.Ok? {
          FilterConcat(track, su.value.events, tu.value.events);
        }
      }
    }
  }

  // ---- whole runs

  /** A packet-entities message with the baselines and the tick interval in force. */
  datatype PacketMsg = PacketMsg(baselines: Baselines, interval: nat, count: nat, data: BitString)

  datatype Ran = Ran(container: Container, events: seq<EntityEvent>)

  function RunPackets(schema: Schema, track: Word -> bool, c: Container, msgs: seq<PacketMsg>): Option<Ran>
    decreases |msgs|
  {
    if msgs == [] then Some(Ran(c, [])) else
    match HandleEntries(msgs[0].count, schema, track, msgs[0].baselines, msgs[0].interval, c, -1, msgs[0].data)
    case Fail => None
    case Ok(s, _) =>
      match RunPackets(schema, track, s.container, msgs[1..])
      case None => None
      case Some(r) => Some(Ran(r.container, s.events + r.events))
  }

  ghost predicate NeverSwitches(schema: Schema, track: Word -> bool, u: Container, msgs: seq<PacketMsg>)
    decreases |msgs|
  {
    msgs != [] ==>
      var m := msgs[0];
      && NoSwitches(m.count, schema, track, m.baselines, m.interval, u, -1, m.data)
      && var r := HandleEntries(m.count, schema, TRACK_ALL, m.baselines, m.interval, u, -1, m.data);
         r.Ok? ==> NeverSwitches(schema, track, r.value.container, msgs[1..])
  }

  /** Every untracked create of the unfiltered run is based. */
  ghost predicate AlwaysBased(schema: Schema, track: Word -> bool, u: Container, msgs: seq<PacketMsg>)
    decreases |msgs|
  {
    msgs != [] ==>
      var m := msgs[0];
      && AllBased(m.count, schema, track, m.baselines, m.interval, u, -1, m.data)
      && var r := HandleEntries(m.count, schema, TRACK_ALL, m.baselines, m.interval, u, -1, m.data);
         r.Ok? ==> AlwaysBased(schema, track, r.value.container, msgs[1..])
  }

  lemma {:induction false} RunProjects(schema: Schema, track: Word -> bool, u: Container, f: Container,
      msgs: seq<PacketMsg>)
    requires Projection(track, u, f) && Classed(schema, u)
    requires NeverSwitches(schema, track, u, msgs)
    ensures var ru, rf := RunPackets(schema, TRACK_ALL, u, msgs), RunPackets(schema, track, f, msgs);
      && (ru.Some? <==> rf.Some? && AlwaysBased(schema, track, u, msgs))
      && (ru.Some? ==>
            && Projection(track, ru.value.container, rf.value.container) && Disjoint(rf.value.container)
            && rf.value.events == FilterEvents(track, ru.value.events))
    decreases |msgs|
  {
    if msgs != [] {
      hide HandleEntries, NoSwitches, AllBased, Projection, Classed, Disjoint;
      var m := msgs[0];
      EntriesProject(m.count, schema, track, m.baselines, m.interval, u, f, -1, m.data);
      var su := HandleEntries(m.count, schema, TRACK_ALL, m.baselines, m.interval, u, -1, m.data);
      var sf := HandleEntries(m.count, schema, track, m.baselines, m.interval, f, -1, m.data);
      if su.Ok? {
        RunProjects(schema, track, su.value.container, sf.value.container, msgs[1..]);
        var tu := RunPackets(schema, TRACK_ALL, su.value.container, msgs[1..]);
        if tu.Some? {
          FilterConcat(track, su.value.events, tu.value.events);
        }
      }
    } else {
      ProjectionDisjoint(track, u, f);
    }
  }

  /** From an empty container, whatever the filter: the filtered run is the projection.  It succeeds where the
      unfiltered one does, and the other way round exactly if every untracked create had a baseline that parses. */
  lemma FilteredRunIsProjection(schema: Schema, track: Word -> bool, msgs: seq<PacketMsg>)
    requires NeverSwitches(schema, track, EMPTY, msgs)
    ensures var ru, rf := RunPackets(schema, TRACK_ALL, EMPTY, msgs), RunPackets(schema, track, EMPTY, msgs);
      && (ru.Some? <==> rf.Some? && AlwaysBased(schema, track, EMPTY, msgs))
      && (ru.Some? ==>
            && Projection(track, ru.value.container, rf.value.container) && Disjoint(rf.value.container)
            && rf.value.events == FilterEvents(track, ru.value.events))
  {
    RunProjects(schema, track, EMPTY, EMPTY, msgs);
  }

  /** Why switching must be excluded: a create keeps the two maps disjoint exactly when the index is
      not held by the other map. */
  lemma {:induction false} CreateKeepsDisjointIff(schema: Schema, track: Word -> bool, baselines: Baselines,
      interval: nat, c: Container, index: int, b: BitString)
    requires Disjoint(c)
    ensures match HandleCreate(schema, track, baselines, interval, c, index, b)
            case Ok(r, _) =>
              Disjoint(r.container) <==> index !in (if r.tracked then c.skipped.Keys else c.entities.Keys)
            case Fail => true
  {
    hide ReadHead, ParseEntity, SkipEntity, FreshBaseline;
    match HandleCreate(schema, track, baselines, interval, c, index, b)
    case Ok(r, _) =>
      assert index in if r.tracked then r.container.entities.Keys else r.container.skipped.Keys;
      assert Disjoint(r.container) ==> !(index in r.container.entities.Keys && index in r.container.skipped.Keys);
    case Fail =>
  }
}
