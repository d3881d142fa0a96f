/** Entities and the container that creates, updates and removes them, as functions of the bits. */
module Entities {
  import opened Prelude
  import opened Bits
  import opened FxHash
  import opened FieldPaths
  import opened FieldDecoders
  import opened Serializers
  import opened Huffman
  import opened FieldPathCodec

  type Fields = map<Word, FieldValue>

  datatype EntityData = EntityData(index: int, fields: Fields, serializer: Serializer)

  datatype Container = Container(entities: map<int, EntityData>, baselines: map<int, EntityData>,
                                 skipped: map<int, Serializer>)

  const EMPTY: Container := Container(map[], map[], map[])

  type OpTree = n: Node<FieldOp> | n.Branch?
    witness Branch(0, 0, Leaf(0, 0, PlusOne), Leaf(0, 0, PlusOne))

  /** What the init messages fix: the tree of operations, the size of the path buffer, the classes
      (by id, the hash of their network name) and the serializers. */
  datatype Schema = Schema(tree: OpTree, room: nat, classBits: nat, classes: seq<Word>, serializers: SerializerMap)

  /** User data of the baseline items by class. */
  type Baselines = seq<Option<Bytes>>

  function ById(baselines: Baselines, classId: int): Bytes
  {
    if 0 <= classId < |baselines| && baselines[classId].Some? then baselines[classId].value else []
  }

  // ---- fields

  function ParseFields(s: Serializer, fields: Fields, paths: seq<Path>, interval: nat, b: BitString): Read<Fields>
    decreases |paths|
  {
    if paths == [] then Ok(fields, b) else
    match Locate(s, paths[0])
    case None => Fail
    case Some((f, key)) =>
      var (v, b1) :- Decode(f.decoder, interval, b);
      ParseFields(s, fields[key := v], paths[1..], interval, b1)
  }

  function ParseEntity(schema: Schema, s: Serializer, fields: Fields, interval: nat, b: BitString): Read<Fields>
  {
    var (paths, b1) :- ReadPaths(schema.tree, START, schema.room, b);
    ParseFields(s, fields, paths, interval, b1)
  }

  function SkipFields(s: Serializer, paths: seq<Path>, b: BitString): Read<()>
    decreases |paths|
  {
    if paths == [] then Ok((), b) else
    match LocateField(s, paths[0])
    case None => Fail
    case Some(f) =>
      var (_, b1) :- SkipBitsOf(f.decoder, b);
      SkipFields(s, paths[1..], b1)
  }

  function SkipEntity(schema: Schema, s: Serializer, b: BitString): Read<()>
  {
    var (paths, b1) :- ReadPaths(schema.tree, START, schema.room, b);
    SkipFields(s, paths, b1)
  }

  lemma {:induction false} SkipFieldsAgree(s: Serializer, fields: Fields, paths: seq<Path>, interval: nat, b: BitString)
    ensures Dropped(ParseFields(s, fields, paths, interval, b)) == SkipFields(s, paths, b)
    decreases |paths|
  {
    hide Decode, SkipBitsOf, SkipOf, Locate, LocateField;
    if paths != [] {
      LocateSameField(s, paths[0]);
      match Locate(s, paths[0]) {
        case Some((f, key)) =>
          SkipAgreesWithDecode(f.decoder, interval, b);
          match Decode(f.decoder, interval, b) {
            case Ok(v, b1) => SkipFieldsAgree(s, fields[key := v], paths[1..], interval, b1);
            case Fail =>
          }
        case None =>
      }
    }
  }

  /** Skipping an entity succeeds exactly when parsing it does, and stops at the same bit. */
  lemma SkipEntityAgrees(schema: Schema, s: Serializer, fields: Fields, interval: nat, b: BitString)
    ensures Dropped(ParseEntity(schema, s, fields, interval, b)) == SkipEntity(schema, s, b)
  {
    hide ReadPaths, ParseFields, SkipFields;
    match ReadPaths(schema.tree, START, schema.room, b)
    case Ok(paths, b1) => SkipFieldsAgree(s, fields, paths, interval, b1);
    case Fail =>
  }

  // ---- the container

  /** Reads whose result is ignored; a failed one leaves the position where it was. */
  function PastUbit(n: nat, b: BitString): BitString
  {
    match ReadUbit(n, b)
    case Ok(_, rest) => rest
    case Fail => b
  }

  function PastUvarint32(b: BitString): BitString
  {
    match ReadUvarint32(b)
    case Ok(_, rest) => rest
    case Fail => b
  }

  const SERIAL_BITS: nat := 17

  datatype Head = Head(classId: nat, serializer: Serializer)

  function ReadHead(schema: Schema, b: BitString): Read<Head>
  {
    var (classId, b1) :- ReadUbit(schema.classBits, b);
    var b2 := PastUvarint32(PastUbit(SERIAL_BITS, b1));
    if classId >= U32 / 2 || classId >= |schema.classes| || schema.classes[classId] !in schema.serializers then Fail
    else Ok(Head(classId, schema.serializers[schema.classes[classId]]), b2)
  }

  /** The baseline of a class parsed afresh. */
  function FreshBaseline(schema: Schema, baselines: Baselines, interval: nat, head: Head): Read<Fields>
  {
    ParseEntity(schema, head.serializer, map[], interval, EncBytes(ById(baselines, head.classId)))
  }

  /** The cached baseline entity of the class, made by (and indexed as) its first creation. */
  function Cached(schema: Schema, baselines: Baselines, interval: nat, c: Container, index: int,
      head: Head): Option<EntityData>
  {
    if head.classId in c.baselines then Some(c.baselines[head.classId]) else
    match FreshBaseline(schema, baselines, interval, head)
    case Ok(fields, _) => Some(EntityData(index, fields, head.serializer))
    case Fail => None
  }

  datatype Created = Created(container: Container, tracked: bool)

  function HandleCreate(schema: Schema, track: Word -> bool, baselines: Baselines, interval: nat, c: Container,
                        index: int, b: BitString): Read<Created>
  {
    var (head, b1) :- ReadHead(schema, b);
    if !track(head.serializer.nameHash) then
      var (_, b2) :- SkipEntity(schema, head.serializer, b1);
      Ok(Created(c.(skipped := c.skipped[index := head.serializer]), false), b2)
    else
      match Cached(schema, baselines, interval, c, index, head)
      case None => Fail
      case Some(base) =>
        var (fields, b2) :- ParseEntity(schema, base.serializer, base.fields, interval, b1);
        var entity := EntityData(index, fields, base.serializer);
        Ok(Created(Container(c.entities[index := entity], c.baselines[head.classId := base], c.skipped), true), b2)
  }

  function HandleUpdate(schema: Schema, interval: nat, c: Container, index: int, b: BitString): Read<Container>
  {
    if index in c.skipped then
      var (_, b1) :- SkipEntity(schema, c.skipped[index], b);
      Ok(c, b1)
    else if index in c.entities then
      var e := c.entities[index];
      var (fields, b1) :- ParseEntity(schema, e.serializer, e.fields, interval, b);
      Ok(c.(entities := c.entities[index := e.(fields := fields)]), b1)
    else
      Ok(c, b)
  }

  /** Leaving and deleting both forget the index. */
  function Removed(c: Container, index: int): Container
  {
    c.(entities := c.entities - {index}, skipped := c.skipped - {index})
  }

  // ---- one packet-entities message

  datatype Delta = Update | Leave | Create | Delete

  function ReadDelta(b: BitString): Read<Delta>
  {
    var (v, b1) :- ReadUbit(2, b);
    Ok(match v case 0 => Update case 1 => Leave case 2 => Create case _ => Delete, b1)
  }

  datatype EntityEvent = EntityEvent(delta: Delta, entity: EntityData)

  datatype Stepped = Stepped(container: Container, index: int, events: seq<EntityEvent>)

  /** The visitor sees the entity at `index`, if there is one. */
  function Seen(delta: Delta, entities: map<int, EntityData>, index: int): seq<EntityEvent>
  {
    if index in entities then [EntityEvent(delta, entities[index])] else []
  }

  function HandleDelta(schema: Schema, track: Word -> bool, baselines: Baselines, interval: nat, c: Container,
                       index: int, delta: Delta, b: BitString): Read<Stepped>
  {
    match delta
    case Create =>
      var (r, b1) :- HandleCreate(schema, track, baselines, interval, c, index, b);
      Ok(Stepped(r.container, index, if r.tracked then Seen(delta, r.container.entities, index) else []), b1)
    case Update =>
      var (c1, b1) :- HandleUpdate(schema, interval, c, index, b);
      Ok(Stepped(c1, index, Seen(delta, c1.entities, index)), b1)
    case _ => Ok(Stepped(Removed(c, index), index, Seen(delta, c.entities, index)), b)
  }

  datatype EntryHead = EntryHead(index: int, delta: Delta)

  /** The index delta and the two header bits; an index outside `i32` aborts. */
  function ReadEntryHead(prev: int, b: BitString): Read<EntryHead>
  {
    var (d, b1) :- ReadUbitvar(b);
    var index := prev + (ToI32(d) + 1);
    if !(-0x8000_0000 <= index < 0x8000_0000) then Fail else
    var (delta, b2) :- ReadDelta(b1);
    Ok(EntryHead(index, delta), b2)
  }

  function HandleEntry(schema: Schema, track: Word -> bool, baselines: Baselines, interval: nat, c: Container,
                       prev: int, b: BitString): Read<Stepped>
  {
    var (h, b1) :- ReadEntryHead(prev, b);
    HandleDelta(schema, track, baselines, interval, c, h.index, h.delta, b1)
  }

  function HandleEntries(n: nat, schema: Schema, track: Word -> bool, baselines: Baselines, interval: nat,
                         c: Container, prev: int, b: BitString): Read<Stepped>
    decreases n
  {
    if n == 0 then Ok(Stepped(c, prev, []), b) else
    var (s, b1) :- HandleEntry(schema, track, baselines, interval, c, prev, b);
    var (t, b2) :- HandleEntries(n - 1, schema, track, baselines, interval, s.container, s.index, b1);
    Ok(Stepped(t.container, t.index, s.events + t.events), b2)
  }
}
