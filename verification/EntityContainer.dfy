/** Entities as objects that are parsed into in place, and the container that owns them. */
module EntityContainers {
  import opened Prelude
  import B = Bits
  import opened BitReaders
  import opened FxHash
  import opened FieldPaths
  import opened FieldDecoders
  import opened FieldReading
  import opened Serializers
  import opened FlatTrees
  import opened FieldPathCodec
  import opened Entities
  import opened InstanceBaselines

  /** What the index has for each class is what `baselines` says. */
  ghost predicate Indexed(index: InstanceBaseline, baselines: Baselines)
    reads index, index.Cells()
  {
    forall c :: index.ById(c) == ById(baselines, c)
  }

  class Entity {
    var index: int
    var fields: Fields
    const serializer: Serializer

    constructor (index: int, fields: Fields, serializer: Serializer)
      ensures View() == EntityData(index, fields, serializer)
    {
      this.index := index;
      this.fields := fields;
      this.serializer := serializer;
    }

    function View(): EntityData
      reads this
    {
      EntityData(index, fields, serializer)
    }
  }

  /** The flattened tree and the path buffer that every parse uses. */
  class Scratch {
    ghost const tree: OpTree
    const nodes: seq<FlatBranch<FieldOp>>
    const root: nat
    const fps: array<Path>

    ghost predicate Valid()
    {
      Descending(nodes) && root < |nodes| && Represents(nodes, BranchAt(root), tree)
    }

    /** Classes and serializers vary from call to call; the tree and the room do not. */
    ghost predicate Fits(schema: Schema)
    {
      Valid() && schema.tree == tree && schema.room == fps.Length
    }

    constructor (ghost tree: OpTree, room: nat, nodes: seq<FlatBranch<FieldOp>>, root: nat)
      requires Descending(nodes) && root < |nodes| && Represents(nodes, BranchAt(root), tree)
      ensures Valid() && this.tree == tree && fps.Length == room && fresh(fps)
    {
      this.tree := tree;
      this.nodes := nodes;
      this.root := root;
      this.fps := new Path[room](_ => START);
    }

    method ReadPathsInto(br: BitReader) returns (count: Option<nat>)
      requires Valid()
      modifies br, fps
      ensures match ReadPaths(tree, START, fps.Length, old(br.unread))
              case Ok(ps, rest) => count == Some(|ps|) && |ps| <= fps.Length && fps[..|ps|] == ps && br.unread == rest
              case Fail => count == None
      ensures |br.unread| <= old(|br.unread|)
    {
      count := ReadFieldPaths(nodes, root, tree, br, fps);
    }
  }

  /** `Entity::parse`: the paths, then each value stored under its key. */
  method ParseInto(e: Entity, scratch: Scratch, ghost schema: Schema, interval: nat, br: BitReader) returns (ok: bool)
    requires scratch.Fits(schema)
    modifies e, br, scratch.fps
    ensures match ParseEntity(schema, e.serializer, old(e.fields), interval, old(br.unread))
            case Ok(fields, rest) => ok && e.fields == fields && br.unread == rest
            case Fail => !ok
    ensures e.index == old(e.index) && |br.unread| <= old(|br.unread|)
  {
    hide ReadPaths, Decode, Locate;
    ghost var spec := ParseEntity(schema, e.serializer, e.fields, interval, br.unread);
    var count := scratch.ReadPathsInto(br);
    if count.None? { return false; }
    ghost var paths := scratch.fps[..count.value];
    for i := 0 to count.value
      invariant count.value <= scratch.fps.Length && scratch.fps[..count.value] == paths
      invariant ParseFields(e.serializer, e.fields, paths[i..], interval, br.unread) == spec
      invariant e.index == old(e.index) && |br.unread| <= old(|br.unread|)
    {
      assert paths[i..][0] == scratch.fps[i] && paths[i..][1..] == paths[i + 1..];
      var located := LocateLoop(e.serializer, scratch.fps[i]);
      if located.None? { return false; }
      var value := DecodeFrom(located.value.0.decoder, interval, br);
      if value.None? { return false; }
      e.fields := e.fields[located.value.1 := value.value];
    }
    ok := true;
  }

  method LocateFieldLoop(s: Serializer, p: Path) returns (r: Option<Field>)
    ensures r == LocateField(s, p)
  {
    var first := s.GetChild(p.data[0]);
    if first.None? { return None; }
    var field := first.value;
    for i := 1 to p.last + 1
      invariant NavigateField(field, p.data[i..p.last + 1]) == LocateField(s, p)
    {
      ghost var rest := p.data[i..p.last + 1];
      assert rest[0] == p.data[i] && rest[1..] == p.data[i + 1..p.last + 1];
      var child := if field.IsDynamicArray() then field.GetChild(0) else field.GetChild(p.data[i]);
      if child.None? { return None; }
      field := child.value;
    }
    r := Some(field);
  }

  method SkipEntityFields(s: Serializer, scratch: Scratch, ghost schema: Schema, br: BitReader) returns (ok: bool)
    requires scratch.Fits(schema) && br.Valid()
    modifies br, scratch.fps
    ensures match SkipEntity(schema, s, old(br.unread))
            case Ok(_, rest) => ok && br.unread == rest
            case Fail => !ok
    ensures |br.unread| <= old(|br.unread|)
  {
    hide ReadPaths, SkipBitsOf, LocateField;
    ghost var spec := SkipEntity(schema, s, br.unread);
    var count := scratch.ReadPathsInto(br);
    if count.None? { return false; }
    ghost var paths := scratch.fps[..count.value];
    for i := 0 to count.value
      invariant count.value <= scratch.fps.Length && scratch.fps[..count.value] == paths
      invariant SkipFields(s, paths[i..], br.unread) == spec
      invariant br.Valid() && |br.unread| <= old(|br.unread|)
    {
      assert paths[i..][0] == scratch.fps[i] && paths[i..][1..] == paths[i + 1..];
      var field := LocateFieldLoop(s, scratch.fps[i]);
      if field.None? { return false; }
      var skipped := SkipIn(field.value.decoder, br);
      if skipped.None? { return false; }
    }
    ok := true;
  }

  method ReadHeadFrom(schema: Schema, br: BitReader) returns (r: Option<Head>)
    modifies br
    ensures br.Did(r, ReadHead(schema, old(br.unread)))
    ensures |br.unread| <= old(|br.unread|)
  {
    var classId := br.ReadUbit(schema.classBits);
    if classId.None? { return None; }
    IgnoreUbit(SERIAL_BITS, br);
    IgnoreUvarint32(br);
    var id := classId.value;
    if id >= U32 / 2 || id >= |schema.classes| || schema.classes[id] !in schema.serializers { return None; }
    r := Some(Head(id, schema.serializers[schema.classes[id]]));
  }

  method IgnoreUbit(n: nat, br: BitReader)
    modifies br
    ensures br.unread == PastUbit(n, old(br.unread)) && |br.unread| <= old(|br.unread|)
  {
    if n <= |br.unread| {
      var _ := br.ReadUbit(n);
    }
  }

  method IgnoreUvarint32(br: BitReader)
    modifies br
    ensures br.unread == PastUvarint32(old(br.unread)) && |br.unread| <= old(|br.unread|)
  {
    if B.ReadUvarint32(br.unread).Ok? {
      var _ := br.ReadUvarint32();
    }
  }

  class EntityContainer {
    var entities: map<int, Entity>
    var baselineEntities: map<int, Entity>
    var skippedSerializers: map<int, Serializer>
    const scratch: Scratch

    /** No object is the entity of two indices, or both an entity and a cached baseline. */
    ghost predicate Valid()
      reads this
    {
      && scratch.Valid()
      && (forall i, j | i in entities && j in entities && i != j :: entities[i] != entities[j])
      && (forall i, k | i in entities && k in baselineEntities :: entities[i] != baselineEntities[k])
    }

    ghost function Objects(): set<object>
      reads this
    {
      (set i | i in entities :: entities[i]) + (set k | k in baselineEntities :: baselineEntities[k])
    }

    ghost function View(): Container
      reads this, Objects()
    {
      Container(map i | i in entities :: entities[i].View(), map k | k in baselineEntities ::
          baselineEntities[k].View(),
                skippedSerializers)
    }

    lemma ScratchFits(schema: Schema)
      requires Valid() && schema.tree == scratch.tree && schema.room == scratch.fps.Length
      ensures scratch.Fits(schema)
    {
    }

    constructor (scratch: Scratch)
      requires scratch.Valid()
      ensures Valid() && View() == EMPTY && this.scratch == scratch && Objects() == {}
    {
      entities := map[];
      baselineEntities := map[];
      skippedSerializers := map[];
      this.scratch := scratch;
    }

    /** The cached baseline entity of a class, made on first use from the baseline bytes. */
    method BaselineEntity(head: Head, ghost schema: Schema, ib: InstanceBaseline, ghost baselines: Baselines,
                            interval: nat, index: int)
      returns (base: Option<Entity>)
      requires Valid() && scratch.Fits(schema) && Indexed(ib, baselines)
      modifies this`baselineEntities, scratch.fps
      ensures Valid() && fresh(Objects() - old(Objects()))
      ensures match Cached(schema, baselines, interval, old(View()), index, head)
              case Some(e) =>
                && base.Some? && base.value.View() == e && base.value in Objects()
                && View() == old(View()).(baselines := old(View()).baselines[head.classId := e])
              case None => base == None
    {
      hide ParseEntity;
      if head.classId in baselineEntities {
        base := Some(baselineEntities[head.classId]);
        assert View().baselines == old(View()).baselines[head.classId := base.value.View()];
        return;
      }
      var made := ParsedBaseline(head, schema, ib, baselines, interval, index);
      if made.None? { return None; }
      StoreBaseline(head.classId, made.value);
      base := made;
    }

    method ParsedBaseline(head: Head, ghost schema: Schema, ib: InstanceBaseline, ghost baselines: Baselines,
                            interval: nat, index: int)
      returns (made: Option<Entity>)
      requires scratch.Fits(schema) && Indexed(ib, baselines)
      modifies scratch.fps
      ensures match FreshBaseline(schema, baselines, interval, head)
              case Ok(fields, _) =>
                made.Some? && fresh(made.value) && made.value.View() == EntityData(index, fields, head.serializer)
              case Fail => made == None
    {
      hide ParseEntity;
      var entity := new Entity(index, map[], head.serializer);
      var baselineBr := new BitReader(B.EncBytes(ib.ById(head.classId)));
      var parsed := ParseInto(entity, scratch, schema, interval, baselineBr);
      made := if parsed then Some(entity) else None;
    }

    method StoreBaseline(classId: int, entity: Entity)
      requires Valid() && entity !in Objects() && classId !in baselineEntities
      modifies this`baselineEntities
      ensures Valid() && Objects() == old(Objects()) + {entity}
      ensures View() == old(View()).(baselines := old(View()).baselines[classId := entity.View()])
    {
      baselineEntities := baselineEntities[classId := entity];
      assert baselineEntities[classId] == entity;
      assert forall k | k in old(baselineEntities) :: baselineEntities[k] == old(baselineEntities)[k];
      assert forall i | i in entities :: entities[i] in old(Objects());
      assert View().baselines == old(View()).baselines[classId := entity.View()];
    }

    /** A copy of the baseline entity, with its own index, parsed into and stored. */
    method CreateFrom(base: Entity, ghost schema: Schema, interval: nat, index: int, br: BitReader) returns (ok: bool)
      requires Valid() && scratch.Fits(schema) && base in Objects()
      modifies this`entities, br, scratch.fps
      ensures Valid() && |br.unread| <= old(|br.unread|) && fresh(Objects() - old(Objects()))
      ensures match ParseEntity(schema, base.serializer, base.fields, interval, old(br.unread))
              case Ok(fields, rest) =>
                && ok && br.unread == rest
                && View() == old(View()).(entities :=
                     old(View()).entities[index := EntityData(index, fields, base.serializer)])
              case Fail => !ok
    {
      hide ParseEntity;
      var made := ParsedCopy(base, schema, interval, index, br);
      ok := made.Some?;
      if !ok { return; }
      assert View() == old(View()) && Objects() == old(Objects());
      StoreEntity(index, made.value);
    }

    method ParsedCopy(base: Entity, ghost schema: Schema, interval: nat, index: int, br: BitReader)
      returns (made: Option<Entity>)
      requires scratch.Fits(schema)
      modifies br, scratch.fps
      ensures |br.unread| <= old(|br.unread|)
      ensures match ParseEntity(schema, base.serializer, base.fields, interval, old(br.unread))
              case Ok(fields, rest) =>
                && made.Some? && fresh(made.value) && br.unread == rest
                && made.value.View() == EntityData(index, fields, base.serializer)
              case Fail => made == None
    {
      hide ParseEntity;
      var entity := new Entity(index, base.fields, base.serializer);
      var parsed := ParseInto(entity, scratch, schema, interval, br);
      made := if parsed then Some(entity) else None;
    }

    method StoreEntity(index: int, entity: Entity)
      requires Valid() && entity !in Objects()
      modifies this`entities
      ensures Valid() && Objects() <= old(Objects()) + {entity}
      ensures View() == old(View()).(entities := old(View()).entities[index := entity.View()])
    {
      entities := entities[index := entity];
      assert forall i | i in old(entities) :: old(entities)[i] in old(Objects());
      assert View().entities == old(View()).entities[index := entity.View()];
      assert View().baselines == old(View()).baselines;
    }

    method CreateTracked(head: Head, ghost schema: Schema, ib: InstanceBaseline, ghost baselines: Baselines,
                         interval: nat, index: int, br: BitReader)
      returns (ok: bool)
      requires Valid() && scratch.Fits(schema) && Indexed(ib, baselines)
      modifies this, br, scratch.fps
      ensures Valid() && |br.unread| <= old(|br.unread|) && fresh(Objects() - old(Objects()))
      ensures match Cached(schema, baselines, interval, old(View()), index, head)
              case Some(base) =>
                (match ParseEntity(schema, base.serializer, base.fields, interval, old(br.unread))
                 case Ok(fields, rest) =>
                   ok && br.unread == rest
                   && View() == Container(old(View()).entities[index := EntityData(index, fields, base.serializer)],
                                          old(View()).baselines[head.classId := base], old(View()).skipped)
                 case Fail => !ok)
              case None => !ok
    {
      hide ParseEntity, Cached;
      var base := BaselineEntity(head, schema, ib, baselines, interval, index);
      if base.None? { return false; }
      ok := CreateFrom(base.value, schema, interval, index, br);
    }

    method CreateSkipped(serializer: Serializer, ghost schema: Schema, index: int, br: BitReader) returns (ok: bool)
      requires Valid() && scratch.Fits(schema) && br.Valid()
      modifies this`skippedSerializers, br, scratch.fps
      ensures Valid() && |br.unread| <= old(|br.unread|)
      ensures match SkipEntity(schema, serializer, old(br.unread))
              case Ok(_, rest) =>
                ok && br.unread == rest
                && View() == old(View()).(skipped := old(View()).skipped[index := serializer])
              case Fail => !ok
    {
      hide SkipEntity;
      ok := SkipEntityFields(serializer, scratch, schema, br);
      if ok {
        skippedSerializers := skippedSerializers[index := serializer];
        assert View().entities == old(View()).entities && View().baselines == old(View()).baselines;
      }
    }

    method HandleCreate(schema: Schema, track: Word -> bool, ib: InstanceBaseline, ghost baselines: Baselines,
                        interval: nat, index: int, br: BitReader)
      returns (ok: bool, tracked: bool)
      requires Valid() && scratch.Fits(schema) && Indexed(ib, baselines) && br.Valid()
      modifies this, br, scratch.fps
      ensures Valid() && |br.unread| <= old(|br.unread|) && fresh(Objects() - old(Objects()))
      ensures match Entities.HandleCreate(schema, track, baselines, interval, old(View()), index,
          old(br.unread))
              case Ok(r, rest) => ok && tracked == r.tracked && View() == r.container && br.unread == rest
              case Fail => !ok
    {
      hide ReadHead, SkipEntity, ParseEntity, Cached;
      var head := ReadHeadFrom(schema, br);
      if head.None? { return false, false; }
      assert View() == old(View());
      tracked := track(head.value.serializer.nameHash);
      if tracked {
        ok := CreateTracked(head.value, schema, ib, baselines, interval, index, br);
      } else {
        ok := CreateSkipped(head.value.serializer, schema, index, br);
      }
    }

    /** A later update of one entity changes neither a sibling nor a cached baseline. */
    method HandleUpdate(ghost schema: Schema, interval: nat, index: int, br: BitReader) returns (ok: bool)
      requires Valid() && scratch.Fits(schema) && br.Valid()
      modifies this, br, scratch.fps, if index in entities then {entities[index]} else {}
      ensures Valid() && |br.unread| <= old(|br.unread|)
      ensures entities == old(entities) && baselineEntities == old(baselineEntities)
      ensures match Entities.HandleUpdate(schema, interval, old(View()), index, old(br.unread))
              case Ok(c, rest) => ok && View() == c && br.unread == rest
              case Fail => !ok
    {
      hide SkipEntity, ParseEntity;
      if index in skippedSerializers {
        ok := SkipEntityFields(skippedSerializers[index], scratch, schema, br);
      } else if index in entities {
        var entity := entities[index];
        ok := ParseInto(entity, scratch, schema, interval, br);
        assert forall i | i in entities && i != index ::
          entities[i] != entity && entities[i].View() == old(entities[i].View());
        assert forall k | k in baselineEntities :: baselineEntities[k].View() == old(baselineEntities[k].View());
        assert View().entities == old(View()).entities[index := entities[index].View()];
        assert View().baselines == old(View()).baselines;
      } else {
        ok := true;
      }
    }

    method HandleRemove(index: int) returns (entity: Option<Entity>)
      requires Valid()
      modifies this
      ensures Valid() && View() == Removed(old(View()), index) && Objects() <= old(Objects())
      ensures entity == if index in old(entities) then Some(old(entities)[index]) else None
    {
      entity := if index in entities then Some(entities[index]) else None;
      skippedSerializers := skippedSerializers - {index};
      entities := entities - {index};
    }

    method Clear()
      requires Valid()
      modifies this
      ensures Valid() && View() == EMPTY && Objects() == {}
    {
      entities := map[];
      baselineEntities := map[];
      skippedSerializers := map[];
    }
  }
  // ---- one packet-entities message

  method ReadDeltaFrom(br: BitReader) returns (r: Option<Delta>)
    modifies br
    ensures br.Did(r, ReadDelta(old(br.unread)))
    ensures |br.unread| <= old(|br.unread|)
  {
    var v := br.ReadUbit(2);
    if v.None? { return None; }
    r := Some(match v.value case 0 => Update case 1 => Leave case 2 => Create case _ => Delete);
  }

  method ReadEntryHeadFrom(prev: int, br: BitReader) returns (r: Option<EntryHead>)
    modifies br
    ensures br.Did(r, ReadEntryHead(prev, old(br.unread)))
    ensures |br.unread| <= old(|br.unread|)
  {
    hide ReadDelta, B.ReadUbitvar;
    var d := br.ReadUbitvar();
    if d.None? { return None; }
    var index := prev + (ToI32(d.value) + 1);
    if !(-0x8000_0000 <= index < 0x8000_0000) { return None; }
    var delta := ReadDeltaFrom(br);
    r := if delta.None? then None else Some(EntryHead(index, delta.value));
  }

  /** One entry: the container follows, and what the visitor is shown is returned. */
  method HandleOne(c: EntityContainer, schema: Schema, track: Word -> bool, ib: InstanceBaseline,
                   ghost baselines: Baselines, interval: nat, index: int, delta: Delta, br: BitReader)
    returns (ok: bool, events: seq<EntityEvent>)
    requires c.Valid() && c.scratch.Fits(schema) && Indexed(ib, baselines) && br.Valid()
    modifies c, c.Objects(), br, c.scratch.fps
    ensures c.Valid() && br.Valid() && fresh(c.Objects() - old(c.Objects()))
    ensures match HandleDelta(schema, track, baselines, interval, old(c.View()), index, delta, old(br.unread))
            case Ok(s, rest) => ok && c.View() == s.container && index == s.index && events == s.events
                && br.unread == rest
            case Fail => !ok
  {
    hide Entities.HandleCreate, Entities.HandleUpdate;
    ok, events := true, [];
    match delta
    case Create =>
      var tracked;
      ok, tracked := c.HandleCreate(schema, track, ib, baselines, interval, index, br);
      if ok && tracked && index in c.entities {
        events := [EntityEvent(delta, c.entities[index].View())];
      }
    case Update =>
      ok := c.HandleUpdate(schema, interval, index, br);
      if ok && index in c.entities {
        events := [EntityEvent(delta, c.entities[index].View())];
      }
    case Leave =>
      var entity := c.HandleRemove(index);
      if entity.Some? {
        events := [EntityEvent(delta, entity.value.View())];
      }
    case Delete =>
      var entity := c.HandleRemove(index);
      if entity.Some? {
        events := [EntityEvent(delta, entity.value.View())];
      }
  }
}
