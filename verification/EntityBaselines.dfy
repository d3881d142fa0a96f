/** The baseline cache: creating from the cached entity is creating from the baseline parsed afresh. */
module EntityBaselines {
  import opened Prelude
  import opened Bits
  import opened FxHash
  import opened Entities
  import opened EntityFilter
  import opened FieldPaths
  import opened FlatTrees
  import opened FieldPathCodec

  /** What `HandleCreate` would do without a cache. */
  function CreateAfresh(schema: Schema, track: Word -> bool, baselines: Baselines, interval: nat,
                        entities: map<int, EntityData>, index: int, b: BitString): Read<map<int, EntityData>>
  {
    var (head, b1) :- ReadHead(schema, b);
    if !track(head.serializer.nameHash) then
      var (_, b2) :- SkipEntity(schema, head.serializer, b1);
      Ok(entities, b2)
    else
      var (base, _) :- FreshBaseline(schema, baselines, interval, head);
      var (fields, b2) :- ParseEntity(schema, head.serializer, base, interval, b1);
      Ok(entities[index := EntityData(index, fields, head.serializer)], b2)
  }

  /** Every cached baseline is what parsing the current baseline bytes gives. */
  ghost predicate Coherent(schema: Schema, baselines: Baselines, interval: nat, c: Container)
  {
    && Classed(schema, c)
    && forall k | k in c.baselines ::
         k >= 0 && FreshValue(schema, baselines, interval, Head(k, c.baselines[k].serializer))
             == Some(c.baselines[k].fields)
  }

  function FreshValue(schema: Schema, baselines: Baselines, interval: nat, head: Head): Option<Fields>
  {
    match FreshBaseline(schema, baselines, interval, head)
    case Ok(fields, _) => Some(fields)
    case Fail => None
  }

  lemma {:induction false} CreateRefines(schema: Schema, track: Word -> bool, baselines: Baselines, interval: nat,
      c: Container, index: int, b: BitString)
    requires Coherent(schema, baselines, interval, c)
    ensures match HandleCreate(schema, track, baselines, interval, c, index, b)
            case Ok(r, rest) =>
              && CreateAfresh(schema, track, baselines, interval, c.entities, index, b)
                  == Ok(r.container.entities, rest)
              && Coherent(schema, baselines, interval, r.container)
            case Fail => CreateAfresh(schema, track, baselines, interval, c.entities, index, b) == Fail
  {
    hide ReadHead, ParseEntity, SkipEntity, FreshBaseline;
    HeadClassed(schema, b);
    match ReadHead(schema, b)
    case Ok(head, b1) =>
      if head.classId in c.baselines {
        assert FreshValue(schema, baselines, interval, Head(head.classId, c.baselines[head.classId].serializer))
            == Some(c.baselines[head.classId].fields);
      }
    case Fail =>
  }

  /** The tick interval and the bytes of every class in the cache are those of the last message. */
  ghost predicate SameBytes(c: Container, m: PacketMsg, next: PacketMsg)
  {
    && (c.baselines != map[] ==> next.interval == m.interval)
    && forall k | k in c.baselines :: ById(next.baselines, k) == ById(m.baselines, k)
  }

  lemma SameBytesCoherent(schema: Schema, c: Container, m: PacketMsg, next: PacketMsg)
    requires Coherent(schema, m.baselines, m.interval, c) && SameBytes(c, m, next)
    ensures Coherent(schema, next.baselines, next.interval, c)
  {
  }

  /** Entries handled without a cache. */
  function DeltaAfresh(schema: Schema, track: Word -> bool, baselines: Baselines, interval: nat, c: Container,
                       index: int, delta: Delta, b: BitString): Read<Stepped>
  {
    if delta.Create? then
      var (r, b1) :- HandleCreate(schema, track, baselines, interval, c.(baselines := map[]), index, b);
      var c1 := r.container.(baselines := map[]);
      Ok(Stepped(c1, index, if r.tracked then Seen(delta, c1.entities, index) else []), b1)
    else
      HandleDelta(schema, track, baselines, interval, c, index, delta, b)
  }

  function EntriesAfresh(n: nat, schema: Schema, track: Word -> bool, baselines: Baselines, interval: nat,
                         c: Container, prev: int, b: BitString): Read<Stepped>
    decreases n
  {
    if n == 0 then Ok(Stepped(c, prev, []), b) else
    var (h, b1) :- ReadEntryHead(prev, b);
    var (s, b2) :- DeltaAfresh(schema, track, baselines, interval, c, h.index, h.delta, b1);
    var (t, b3) :- EntriesAfresh(n - 1, schema, track, baselines, interval, s.container, s.index, b2);
    Ok(Stepped(t.container, t.index, s.events + t.events), b3)
  }

  /** The state of a cached run without its cache. */
  function Uncached(c: Container): Container
  {
    c.(baselines := map[])
  }

  ghost predicate RefinesAfresh(schema: Schema, baselines: Baselines, interval: nat, cached: Read<Stepped>,
      afresh: Read<Stepped>)
  {
    match cached
    case Ok(s, rest) =>
      && afresh == Ok(Stepped(Uncached(s.container), s.index, s.events), rest)
      && Coherent(schema, baselines, interval, s.container)
    case Fail => afresh == Fail
  }

  lemma EmptyCacheCreates(schema: Schema, track: Word -> bool, baselines: Baselines, interval: nat, c: Container,
                          index: int, b: BitString)
    requires Coherent(schema, baselines, interval, c)
    ensures match HandleCreate(schema, track, baselines, interval, c, index, b)
            case Ok(r, rest) =>
              var e := HandleCreate(schema, track, baselines, interval, Uncached(c), index, b);
              e.Ok? && e.rest == rest && e.value.tracked == r.tracked
              && Uncached(e.value.container) == Uncached(r.container)
            case Fail => HandleCreate(schema, track, baselines, interval, Uncached(c), index, b) == Fail
  {
    hide ReadHead, ParseEntity, SkipEntity, FreshBaseline;
    HeadClassed(schema, b);
    match ReadHead(schema, b)
    case Ok(head, b1) =>
      if head.classId in c.baselines {
        assert FreshValue(schema, baselines, interval, Head(head.classId, c.baselines[head.classId].serializer))
            == Some(c.baselines[head.classId].fields);
      }
    case Fail =>
  }

  lemma DeltaRefines(schema: Schema, track: Word -> bool, baselines: Baselines, interval: nat, c: Container,
                     index: int, delta: Delta, b: BitString)
    requires Coherent(schema, baselines, interval, c)
    ensures RefinesAfresh(schema, baselines, interval,
              HandleDelta(schema, track, baselines, interval, c, index, delta, b),
              DeltaAfresh(schema, track, baselines, interval, Uncached(c), index, delta, b))
  {
    hide ReadHead, ParseEntity, SkipEntity, FreshValue;
    if delta.Create? {
      hide HandleCreate;
      CreateRefines(schema, track, baselines, interval, c, index, b);
      EmptyCacheCreates(schema, track, baselines, interval, c, index, b);
    }
  }

  lemma {:induction false} EntriesRefine(n: nat, schema: Schema, track: Word -> bool, baselines: Baselines,
      interval: nat, c: Container, prev: int, b: BitString)
    requires Coherent(schema, baselines, interval, c)
    ensures RefinesAfresh(schema, baselines, interval,
              HandleEntries(n, schema, track, baselines, interval, c, prev, b),
              EntriesAfresh(n, schema, track, baselines, interval, Uncached(c), prev, b))
    decreases n
  {
    hide HandleDelta, DeltaAfresh, ReadEntryHead, Coherent;
    if n > 0 {
      match ReadEntryHead(prev, b)
      case Ok(h, b1) =>
        DeltaRefines(schema, track, baselines, interval, c, h.index, h.delta, b1);
        match HandleDelta(schema, track, baselines, interval, c, h.index, h.delta, b1) {
          case Ok(s, b2) => EntriesRefine(n - 1, schema, track, baselines, interval, s.container, s.index, b2);
          case Fail =>
        }
      case Fail =>
    }
  }

  function RunAfresh(schema: Schema, track: Word -> bool, c: Container, msgs: seq<PacketMsg>): Option<Ran>
    decreases |msgs|
  {
    if msgs == [] then Some(Ran(c, [])) else
    match EntriesAfresh(msgs[0].count, schema, track, msgs[0].baselines, msgs[0].interval, c, -1, msgs[0].data)
    case Fail => None
    case Ok(s, _) =>
      match RunAfresh(schema, track, s.container, msgs[1..])
      case None => None
      case Some(r) => Some(Ran(r.container, s.events + r.events))
  }

  /** From its first tracked creation on, the bytes of a class and the interval do not change. */
  ghost predicate BytesStable(schema: Schema, track: Word -> bool, c: Container, msgs: seq<PacketMsg>)
    decreases |msgs|
  {
    |msgs| >= 2 ==>
      var m := msgs[0];
      match HandleEntries(m.count, schema, track, m.baselines, m.interval, c, -1, m.data)
      case Ok(s, _) => SameBytes(s.container, m, msgs[1]) && BytesStable(schema, track, s.container, msgs[1..])
      case Fail => true
  }

  lemma {:induction false} RunRefines(schema: Schema, track: Word -> bool, c: Container, msgs: seq<PacketMsg>)
    requires msgs != [] ==> Coherent(schema, msgs[0].baselines, msgs[0].interval, c)
    requires BytesStable(schema, track, c, msgs)
    ensures match RunPackets(schema, track, c, msgs)
            case Some(r) => RunAfresh(schema, track, Uncached(c), msgs) == Some(Ran(Uncached(r.container), r.events))
            case None => RunAfresh(schema, track, Uncached(c), msgs) == None
    decreases |msgs|
  {
    hide HandleEntries, EntriesAfresh, Coherent, SameBytes;
    if msgs != [] {
      var m := msgs[0];
      EntriesRefine(m.count, schema, track, m.baselines, m.interval, c, -1, m.data);
      match HandleEntries(m.count, schema, track, m.baselines, m.interval, c, -1, m.data)
      case Ok(s, _) =>
        if |msgs| >= 2 {
          SameBytesCoherent(schema, s.container, m, msgs[1]);
        }
        RunRefines(schema, track, s.container, msgs[1..]);
      case Fail =>
    }
  }

  /** Whole runs from an empty container: same entities, same events, same failures, with or without
      the cache. */
  lemma CacheRefinesRecomputation(schema: Schema, track: Word -> bool, msgs: seq<PacketMsg>)
    requires BytesStable(schema, track, EMPTY, msgs)
    ensures match RunPackets(schema, track, EMPTY, msgs)
            case Some(r) => RunAfresh(schema, track, EMPTY, msgs) == Some(Ran(Uncached(r.container), r.events))
            case None => RunAfresh(schema, track, EMPTY, msgs) == None
  {
    RunRefines(schema, track, EMPTY, msgs);
  }

  /** Without a cached entity and without baseline bytes a tracked create fails, whatever its delta restates: no
      bits hold no field paths, not even their end. */
  lemma MissingBaselineFails(schema: Schema, track: Word -> bool, baselines: Baselines, interval: nat, c: Container,
      index: int, b: BitString)
    requires ReadHead(schema, b).Ok? && track(ReadHead(schema, b).value.serializer.nameHash)
    requires ReadHead(schema, b).value.classId !in c.baselines
    requires ById(baselines, ReadHead(schema, b).value.classId) == []
    ensures HandleCreate(schema, track, baselines, interval, c, index, b) == Fail
  {
    hide ReadHead, ById;
    assert EncBytes([]) == [];
    assert Walk(schema.tree, []) == Fail;
    assert ReadPaths(schema.tree, START, schema.room, []) == Fail;
  }
}
