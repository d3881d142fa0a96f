/** Two containers handling the same entries: one that has followed the whole run, and one that may be
    out of date at the indices still pending.  Once every pending index was created they agree. */
module EntitySnapshots {
  import opened Prelude
  import opened Bits
  import opened FxHash
  import opened Serializers
  import opened Entities
  import EntityFilter
  import opened EntityBaselines

  function Live(c: Container): set<int>
  {
    c.entities.Keys + c.skipped.Keys
  }

  ghost predicate AgreeAt(a: Container, b: Container, i: int)
  {
    && (i in a.entities <==> i in b.entities) && (i in a.entities ==> a.entities[i] == b.entities[i])
    && (i in a.skipped <==> i in b.skipped) && (i in a.skipped ==> a.skipped[i] == b.skipped[i])
  }

  /** Whether the container that may be out of date still holds an entity at an index, or has it as skipped. */
  datatype Held = Held(tracked: bool, skipped: bool)

  type Pending = map<int, Held>

  /** The indices at which `b` is out of date. */
  ghost function Outdated(a: Container, b: Container): Pending
  {
    map i | i in Live(a) + Live(b) && !AgreeAt(a, b, i) :: Held(i in b.entities, i in b.skipped)
  }

  /** Outside `pending` both hold the same; at a pending index `b` holds no more than is said there. */
  ghost predicate Agree(a: Container, b: Container, pending: Pending)
  {
    && (forall i :: i !in pending ==> AgreeAt(a, b, i))
    && (forall i | i in pending :: (i in b.entities ==> pending[i].tracked) && (i in b.skipped ==> pending[i].skipped))
  }

  lemma OutdatedAgree(a: Container, b: Container)
    ensures Agree(a, b, Outdated(a, b))
  {
    forall i | i !in Outdated(a, b)
      ensures AgreeAt(a, b, i)
    {
      if i !in Live(a) + Live(b) {
        assert i !in a.entities.Keys && i !in a.skipped.Keys && i !in b.entities.Keys && i !in b.skipped.Keys;
      }
    }
  }

  lemma AgreeAll(a: Container, b: Container)
    requires Agree(a, b, map[])
    ensures a.entities == b.entities && a.skipped == b.skipped
  {
    forall i: int
      ensures (i in a.entities.Keys <==> i in b.entities.Keys) && (i in a.skipped.Keys <==> i in b.skipped.Keys)
      ensures i in a.entities ==> i in b.entities && a.entities[i] == b.entities[i]
      ensures i in a.skipped ==> i in b.skipped && a.skipped[i] == b.skipped[i]
    {
      assert AgreeAt(a, b, i);
    }
    assert a.entities.Keys == b.entities.Keys && a.skipped.Keys == b.skipped.Keys;
  }

  /** What `b` has cached, `a` has cached with the same fields. */
  ghost predicate CacheBelow(b: Container, a: Container)
  {
    forall k | k in b.baselines ::
      k in a.baselines && b.baselines[k].fields == a.baselines[k].fields
          && b.baselines[k].serializer == a.baselines[k].serializer
  }

  /** A pending index is only created, and in neither container does the create switch whether it is tracked. */
  ghost predicate CreatesPending(schema: Schema, track: Word -> bool, c: Container, index: int, delta: Delta,
      b: BitString, pending: Pending)
  {
    index in pending ==>
      && delta.Create?
      && (ReadHead(schema, b).Ok? ==>
            var tracked := track(ReadHead(schema, b).value.serializer.nameHash);
            && index !in (if tracked then c.skipped.Keys else c.entities.Keys)
            && !(if tracked then pending[index].skipped else pending[index].tracked))
  }

  /** The indices still pending after some entries; none if one is touched otherwise. */
  ghost function PendingAfter(n: nat, schema: Schema, track: Word -> bool, baselines: Baselines, interval: nat,
      c: Container, prev: int, b: BitString, pending: Pending): Option<Pending>
    decreases n
  {
    if n == 0 then Some(pending) else
    match ReadEntryHead(prev, b)
    case Fail => None
    case Ok(h, b1) =>
      if !CreatesPending(schema, track, c, h.index, h.delta, b1, pending) then None else
      match HandleDelta(schema, track, baselines, interval, c, h.index, h.delta, b1)
      case Fail => None
      case Ok(s, b2) =>
        PendingAfter(n - 1, schema, track, baselines, interval, s.container, s.index, b2, pending - {h.index})
  }

  /** What one step or several do to `b`, given what they do to `a`. */
  ghost predicate Follows(schema: Schema, baselines: Baselines, interval: nat, ra: Read<Stepped>, rb: Read<Stepped>,
      pending: Pending)
    requires ra.Ok?
  {
    && rb.Ok? && rb.rest == ra.rest && rb.value.index == ra.value.index && rb.value.events == ra.value.events
    && Agree(ra.value.container, rb.value.container, pending)
    && CacheBelow(rb.value.container, ra.value.container)
    && Coherent(schema, baselines, interval, ra.value.container)
  }

  lemma SameBase(schema: Schema, baselines: Baselines, interval: nat, a: Container, b: Container, index: int,
      head: Head)
    requires Coherent(schema, baselines, interval, a) && CacheBelow(b, a)
    requires head.classId < |schema.classes| && schema.classes[head.classId] in schema.serializers
    requires head.serializer == schema.serializers[schema.classes[head.classId]]
    requires Cached(schema, baselines, interval, a, index, head).Some?
    ensures Cached(schema, baselines, interval, b, index, head).Some?
    ensures var x, y := Cached(schema, baselines, interval, a, index, head).value,
        Cached(schema, baselines, interval, b, index, head).value;
      x.fields == y.fields && x.serializer == y.serializer == head.serializer
  {
  }

  lemma CreateAgrees(schema: Schema, track: Word -> bool, baselines: Baselines, interval: nat, a: Container,
      b: Container, index: int, bits: BitString, pending: Pending)
    requires Coherent(schema, baselines, interval, a) && CacheBelow(b, a) && Agree(a, b, pending)
    requires CreatesPending(schema, track, a, index, Create, bits, pending)
    requires HandleCreate(schema, track, baselines, interval, a, index, bits).Ok?
    ensures var ra, rb := HandleCreate(schema, track, baselines, interval, a, index, bits),
                          HandleCreate(schema, track, baselines, interval, b, index, bits);
      && rb.Ok? && rb.rest == ra.rest && rb.value.tracked == ra.value.tracked
      && Agree(ra.value.container, rb.value.container, pending - {index})
      && CacheBelow(rb.value.container, ra.value.container)
  {
    hide ReadHead, ParseEntity, SkipEntity, FreshBaseline, Cached, Agree, CacheBelow;
    EntityFilter.HeadClassed(schema, bits);
    var head, b1 := ReadHead(schema, bits).value, ReadHead(schema, bits).rest;
    if track(head.serializer.nameHash) {
      SameBase(schema, baselines, interval, a, b, index, head);
      CachedStays(schema, baselines, interval, a, index, head);
      CachedStays(schema, baselines, interval, b, index, head);
      var x, y := Cached(schema, baselines, interval, a, index, head).value,
          Cached(schema, baselines, interval, b, index, head).value;
      var e := EntityData(index, ParseEntity(schema, x.serializer, x.fields, interval, b1).value, x.serializer);
      PutEntity(a, b, index, e, head.classId, x, y, pending);
    } else {
      PutSkipped(a, b, index, head.serializer, pending);
    }
  }

  lemma PutEntity(a: Container, b: Container, i: int, e: EntityData, k: int, x: EntityData, y: EntityData,
      pending: Pending)
    requires Agree(a, b, pending) && CacheBelow(b, a) && (i in pending ==> i !in a.skipped && !pending[i].skipped)
    requires k in a.baselines ==> a.baselines[k] == x
    requires k in b.baselines ==> b.baselines[k] == y
    requires x.fields == y.fields && x.serializer == y.serializer
    ensures var ca, cb := Container(a.entities[i := e], a.baselines[k := x], a.skipped),
                          Container(b.entities[i := e], b.baselines[k := y], b.skipped);
      Agree(ca, cb, pending - {i}) && CacheBelow(cb, ca)
  {
  }

  lemma PutSkipped(a: Container, b: Container, i: int, s: Serializer, pending: Pending)
    requires Agree(a, b, pending) && CacheBelow(b, a) && (i in pending ==> i !in a.entities && !pending[i].tracked)
    ensures var ca, cb := a.(skipped := a.skipped[i := s]), b.(skipped := b.skipped[i := s]);
      Agree(ca, cb, pending - {i}) && CacheBelow(cb, ca)
  {
  }

  lemma CachedStays(schema: Schema, baselines: Baselines, interval: nat, c: Container, index: int, head: Head)
    ensures head.classId in c.baselines ==>
      Cached(schema, baselines, interval, c, index, head) == Some(c.baselines[head.classId])
  {
  }

  lemma UpdateAgrees(schema: Schema, interval: nat, a: Container, b: Container, index: int, bits: BitString,
      pending: Pending)
    requires CacheBelow(b, a) && Agree(a, b, pending) && index !in pending
    requires HandleUpdate(schema, interval, a, index, bits).Ok?
    ensures var ra, rb := HandleUpdate(schema, interval, a, index, bits),
        HandleUpdate(schema, interval, b, index, bits);
      && rb.Ok? && rb.rest == ra.rest && Agree(ra.value, rb.value, pending) && CacheBelow(rb.value, ra.value)
  {
    hide ParseEntity, SkipEntity;
    assert AgreeAt(a, b, index);
    var ca, cb := HandleUpdate(schema, interval, a, index, bits).value,
        HandleUpdate(schema, interval, b, index, bits).value;
    forall i | i !in pending
      ensures AgreeAt(ca, cb, i)
    {
      assert AgreeAt(a, b, i);
    }
  }

  lemma RemovedAgrees(a: Container, b: Container, index: int, pending: Pending)
    requires CacheBelow(b, a) && Agree(a, b, pending) && index !in pending
    ensures Agree(Removed(a, index), Removed(b, index), pending) && CacheBelow(Removed(b, index), Removed(a, index))
  {
  }

  lemma SeenAgrees(a: Container, b: Container, index: int, delta: Delta, pending: Pending)
    requires Agree(a, b, pending) && index !in pending
    ensures Seen(delta, a.entities, index) == Seen(delta, b.entities, index)
  {
    assert AgreeAt(a, b, index);
  }

  /** One entry. */
  lemma DeltaAgrees(schema: Schema, track: Word -> bool, baselines: Baselines, interval: nat, a: Container,
      b: Container, index: int, delta: Delta, bits: BitString, pending: Pending)
    requires Coherent(schema, baselines, interval, a) && CacheBelow(b, a) && Agree(a, b, pending)
    requires CreatesPending(schema, track, a, index, delta, bits, pending)
    requires HandleDelta(schema, track, baselines, interval, a, index, delta, bits).Ok?
    ensures Follows(schema, baselines, interval, HandleDelta(schema, track, baselines, interval, a, index, delta, bits),
                    HandleDelta(schema, track, baselines, interval, b, index, delta, bits), pending - {index})
  {
    hide HandleCreate, HandleUpdate, Agree, CacheBelow, Coherent, CreatesPending, Seen;
    DeltaCoherent(schema, track, baselines, interval, a, index, delta, bits);
    var left := pending - {index};
    match delta
    case Create =>
      CreateAgrees(schema, track, baselines, interval, a, b, index, bits, pending);
      var ca := HandleCreate(schema, track, baselines, interval, a, index, bits).value.container;
      var cb := HandleCreate(schema, track, baselines, interval, b, index, bits).value.container;
      SeenAgrees(ca, cb, index, delta, left);
    case Update =>
      NotPending(schema, track, a, index, delta, bits, pending);
      UpdateAgrees(schema, interval, a, b, index, bits, pending);
      var ca, cb := HandleUpdate(schema, interval, a, index, bits).value,
          HandleUpdate(schema, interval, b, index, bits).value;
      SeenAgrees(ca, cb, index, delta, pending);
    case Leave =>
      NotPending(schema, track, a, index, delta, bits, pending);
      RemovedAgrees(a, b, index, pending);
      SeenAgrees(a, b, index, delta, pending);
    case Delete =>
      NotPending(schema, track, a, index, delta, bits, pending);
      RemovedAgrees(a, b, index, pending);
      SeenAgrees(a, b, index, delta, pending);
  }

  lemma NotPending(schema: Schema, track: Word -> bool, c: Container, index: int, delta: Delta, bits: BitString,
      pending: Pending)
    requires CreatesPending(schema, track, c, index, delta, bits, pending) && !delta.Create?
    ensures index !in pending && pending - {index} == pending
  {
  }

  lemma DeltaCoherent(schema: Schema, track: Word -> bool, baselines: Baselines, interval: nat, c: Container,
                      index: int, delta: Delta, bits: BitString)
    requires Coherent(schema, baselines, interval, c)
    requires HandleDelta(schema, track, baselines, interval, c, index, delta, bits).Ok?
    ensures Coherent(schema, baselines, interval, HandleDelta(schema, track, baselines, interval, c, index, delta,
        bits).value.container)
  {
    hide HandleDelta, DeltaAfresh, Coherent;
    DeltaRefines(schema, track, baselines, interval, c, index, delta, bits);
  }

  /** Any number of entries of one message. */
  lemma {:induction false} EntriesAgree(n: nat, schema: Schema, track: Word -> bool, baselines: Baselines,
      interval: nat, a: Container, b: Container, prev: int, bits: BitString, pending: Pending)
    requires Coherent(schema, baselines, interval, a) && CacheBelow(b, a) && Agree(a, b, pending)
    requires PendingAfter(n, schema, track, baselines, interval, a, prev, bits, pending).Some?
    requires HandleEntries(n, schema, track, baselines, interval, a, prev, bits).Ok?
    ensures Follows(schema, baselines, interval, HandleEntries(n, schema, track, baselines, interval, a, prev, bits),
                    HandleEntries(n, schema, track, baselines, interval, b, prev, bits),
                    PendingAfter(n, schema, track, baselines, interval, a, prev, bits, pending).value)
    decreases n
  {
    hide HandleDelta, ReadEntryHead, Agree, CacheBelow, Coherent, CreatesPending;
    if n > 0 {
      var h, b1 := ReadEntryHead(prev, bits).value, ReadEntryHead(prev, bits).rest;
      DeltaAgrees(schema, track, baselines, interval, a, b, h.index, h.delta, b1, pending);
      var sa := HandleDelta(schema, track, baselines, interval, a, h.index, h.delta, b1);
      var sb := HandleDelta(schema, track, baselines, interval, b, h.index, h.delta, b1);
      EntriesAgree(n - 1, schema, track, baselines, interval, sa.value.container, sb.value.container, sa.value.index,
                   sa.rest, pending - {h.index});
    }
  }

  /** With nothing pending there is nothing to ask. */
  lemma {:induction false} NothingPending(n: nat, schema: Schema, track: Word -> bool, baselines: Baselines,
      interval: nat, c: Container, prev: int, bits: BitString)
    requires HandleEntries(n, schema, track, baselines, interval, c, prev, bits).Ok?
    ensures PendingAfter(n, schema, track, baselines, interval, c, prev, bits, map[]) == Some(map[])
    decreases n
  {
    hide HandleDelta, ReadEntryHead;
    if n > 0 {
      var h, b1 := ReadEntryHead(prev, bits).value, ReadEntryHead(prev, bits).rest;
      var s := HandleDelta(schema, track, baselines, interval, c, h.index, h.delta, b1);
      var none: Pending := map[];
      assert none - {h.index} == none;
      NothingPending(n - 1, schema, track, baselines, interval, s.value.container, s.value.index, s.rest);
    }
  }

  /** A cached baseline is never overwritten or dropped. */
  lemma {:induction false} CacheGrows(n: nat, schema: Schema, track: Word -> bool, baselines: Baselines, interval: nat,
                                      c: Container, prev: int, bits: BitString)
    requires HandleEntries(n, schema, track, baselines, interval, c, prev, bits).Ok?
    ensures CacheBelow(c, HandleEntries(n, schema, track, baselines, interval, c, prev, bits).value.container)
    decreases n
  {
    hide HandleDelta, ReadEntryHead;
    if n > 0 {
      var h, b1 := ReadEntryHead(prev, bits).value, ReadEntryHead(prev, bits).rest;
      var s := HandleDelta(schema, track, baselines, interval, c, h.index, h.delta, b1);
      DeltaGrows(schema, track, baselines, interval, c, h.index, h.delta, b1);
      CacheGrows(n - 1, schema, track, baselines, interval, s.value.container, s.value.index, s.rest);
    }
  }

  lemma DeltaGrows(schema: Schema, track: Word -> bool, baselines: Baselines, interval: nat, c: Container,
                   index: int, delta: Delta, bits: BitString)
    requires HandleDelta(schema, track, baselines, interval, c, index, delta, bits).Ok?
    ensures CacheBelow(c, HandleDelta(schema, track, baselines, interval, c, index, delta, bits).value.container)
  {
    hide ReadHead, ParseEntity, SkipEntity, FreshBaseline;
  }
}
