/** A whole packet-entities message written bit by bit: what its entries do to the entities. */
module EntityMessages {
  import opened Prelude
  import opened Bits
  import opened FxHash
  import opened FieldPaths
  import opened FieldPathCodec
  import opened FieldDecoders
  import opened FieldEncoders
  import opened Serializers
  import opened Entities

  // ---- the fields of an entity

  /** A field by the components of its path, and its new value. */
  datatype Change = Change(path: Bytes, value: FieldValue)

  predicate ChangeFits(s: Serializer, interval: nat, change: Change)
  {
    && 1 <= |change.path| <= 7 && Locate(s, OfComponents(change.path)).Some?
    && ValueFits(Locate(s, OfComponents(change.path)).value.0.decoder, interval, change.value)
  }

  predicate AllFit(s: Serializer, interval: nat, changes: seq<Change>)
  {
    changes == [] || (ChangeFits(s, interval, changes[0]) && AllFit(s, interval, changes[1..]))
  }

  /** The changes fit the fields they name, and the buffer of paths. */
  predicate ChangesFit(s: Serializer, interval: nat, room: nat, changes: seq<Change>)
  {
    |changes| <= room && AllFit(s, interval, changes)
  }

  function PathsOf(s: Serializer, interval: nat, changes: seq<Change>): (r: seq<Path>)
    requires AllFit(s, interval, changes)
    ensures |r| == |changes| && forall i | 0 <= i < |r| :: Clean(r[i])
  {
    if changes == [] then [] else [OfComponents(changes[0].path)] + PathsOf(s, interval, changes[1..])
  }

  /** The values one after the other, each as its field is written. */
  function ValueBits(s: Serializer, interval: nat, changes: seq<Change>): BitString
    requires AllFit(s, interval, changes)
  {
    if changes == [] then []
    else
      EncValue(Locate(s, OfComponents(changes[0].path)).value.0.decoder, interval, changes[0].value)
      + ValueBits(s, interval, changes[1..])
  }

  /** All paths, then all values. */
  function ChangeBits(schema: Schema, s: Serializer, interval: nat, changes: seq<Change>): BitString
    requires ChangesFit(s, interval, schema.room, changes)
  {
    EncPaths(schema.tree, START, PathsOf(s, interval, changes)) + ValueBits(s, interval, changes)
  }

  /** Each value under the key of its field; a later one of the same field wins. */
  function Changed(s: Serializer, interval: nat, fields: Fields, changes: seq<Change>): Fields
    requires AllFit(s, interval, changes)
    decreases |changes|
  {
    if changes == [] then fields
    else
      Changed(s, interval, fields[Locate(s, OfComponents(changes[0].path)).value.1 := changes[0].value], changes[1..])
  }

  lemma {:induction false} ValuesAreRead(s: Serializer, interval: nat, fields: Fields, changes: seq<Change>,
      rest: BitString)
    requires AllFit(s, interval, changes)
    ensures ParseFields(s, fields, PathsOf(s, interval, changes), interval, ValueBits(s, interval, changes) + rest)
         == Ok(Changed(s, interval, fields, changes), rest)
    decreases |changes|
  {
    hide Decode, EncValue, Locate, OfComponents, ValueFits;
    var b := ValueBits(s, interval, changes) + rest;
    if changes == [] {
      assert b == rest;
    } else {
      var (f, key) := Locate(s, OfComponents(changes[0].path)).value;
      var more := ValueBits(s, interval, changes[1..]) + rest;
      assert b == EncValue(f.decoder, interval, changes[0].value) + more;
      ValueRoundTrip(f.decoder, interval, changes[0].value, more);
      assert PathsOf(s, interval, changes)[1..] == PathsOf(s, interval, changes[1..]);
      ValuesAreRead(s, interval, fields[key := changes[0].value], changes[1..], rest);
    }
  }

  lemma ChangesAreRead(schema: Schema, s: Serializer, interval: nat, fields: Fields, changes: seq<Change>,
      rest: BitString)
    requires HasCodes(schema.tree) && ChangesFit(s, interval, schema.room, changes)
    ensures ParseEntity(schema, s, fields, interval, ChangeBits(schema, s, interval, changes) + rest)
         == Ok(Changed(s, interval, fields, changes), rest)
    ensures SkipEntity(schema, s, ChangeBits(schema, s, interval, changes) + rest) == Ok((), rest)
  {
    hide ReadPaths, EncPaths, ParseFields, ValueBits, Changed, OfComponents, HasCodes, AllFit, PathsOf;
    var values := ValueBits(s, interval, changes) + rest;
    var b := ChangeBits(schema, s, interval, changes) + rest;
    var paths := PathsOf(s, interval, changes);
    assert b == EncPaths(schema.tree, START, paths) + values;
    PathsRoundTrip(schema.tree, START, paths, schema.room, values);
    ValuesAreRead(s, interval, fields, changes, rest);
    SkipEntityAgrees(schema, s, fields, interval, b);
  }

  // ---- one entry

  /** What a message says of one index: a class and serial number (and a number nobody uses) with the fields that differ
      from the baseline, the fields that changed, or that it is gone. */
  datatype Entry =
    | CreateEntry(index: int, classId: nat, serial: nat, unknown: nat, changes: seq<Change>)
    | UpdateEntry(index: int, changes: seq<Change>)
    | LeaveEntry(index: int)
    | DeleteEntry(index: int)

  /** What the entries of a message share. */
  datatype Setting = Setting(schema: Schema, track: Word -> bool, baselines: Baselines, interval: nat)

  /** The entity a created one starts from: the cached baseline of its class, or the one parsed now. */
  function BaseOf(g: Setting, c: Container, index: int, classId: nat): Option<EntityData>
    requires classId < |g.schema.classes| && g.schema.classes[classId] in g.schema.serializers
  {
    var s := g.schema.serializers[g.schema.classes[classId]];
    if classId in c.baselines then Some(c.baselines[classId])
    else
      match ParseEntity(g.schema, s, map[], g.interval, EncBytes(ById(g.baselines, classId)))
      case Ok(fields, _) => Some(EntityData(index, fields, s))
      case Fail => None
  }

  /** The entry can be written after one for index `prev`, on these entities. */
  predicate EntryFits(g: Setting, c: Container, prev: int, e: Entry)
  {
    && -1 <= prev < e.index < 0x8000_0000
    && match e
       case CreateEntry(_, classId, serial, unknown, changes) =>
         && classId < |g.schema.classes| && classId < Pow2(g.schema.classBits) && classId < 0x8000_0000
         && g.schema.classes[classId] in g.schema.serializers && serial < 131072 && unknown < U32
         && var s := g.schema.serializers[g.schema.classes[classId]];
            if g.track(s.nameHash) then
              var base := BaseOf(g, c, e.index, classId);
              base.Some? && ChangesFit(base.value.serializer, g.interval, g.schema.room, changes)
            else ChangesFit(s, g.interval, g.schema.room, changes)
       case UpdateEntry(index, changes) =>
         if index in c.skipped then ChangesFit(c.skipped[index], g.interval, g.schema.room, changes)
         else if index in c.entities then
           ChangesFit(c.entities[index].serializer, g.interval, g.schema.room, changes)
         else changes == []
       case LeaveEntry(_) => true
       case DeleteEntry(_) => true
  }

  /** The changes of an entity, on the serializer it was created with; nothing of one nobody knows. */
  function UpdateBits(g: Setting, c: Container, index: int, changes: seq<Change>): BitString
    requires index in c.skipped ==> ChangesFit(c.skipped[index], g.interval, g.schema.room, changes)
    requires index !in c.skipped && index in c.entities ==>
      ChangesFit(c.entities[index].serializer, g.interval, g.schema.room, changes)
  {
    if index in c.skipped then ChangeBits(g.schema, c.skipped[index], g.interval, changes)
    else if index in c.entities then ChangeBits(g.schema, c.entities[index].serializer, g.interval, changes)
    else []
  }

  /** How far the index is from the last one, two bits for the kind, low bit first, and what the kind needs. */
  function EntryBits(g: Setting, c: Container, prev: int, e: Entry): BitString
    requires EntryFits(g, c, prev, e)
  {
    EncUbitvar(e.index - prev - 1) +
    match e
    case CreateEntry(index, classId, serial, unknown, changes) =>
      var s := g.schema.serializers[g.schema.classes[classId]];
      [false, true]
      + (OfNat(classId, g.schema.classBits) + (OfNat(serial, 17) + (EncGroups(unknown)
         + ChangeBits(g.schema, if g.track(s.nameHash) then BaseOf(g, c, index, classId).value.serializer else s,
                      g.interval, changes))))
    case UpdateEntry(index, changes) =>
      [false, false] + UpdateBits(g, c, index, changes)
    case LeaveEntry(_) => [true, false]
    case DeleteEntry(_) => [true, true]
  }

  /** The entities afterwards: a tracked create puts its base with the changes, an untracked one is remembered as
      skipped, an update changes the fields it names, leaving and deleting forget the index. */
  function After(g: Setting, c: Container, prev: int, e: Entry): Container
    requires EntryFits(g, c, prev, e)
  {
    match e
    case CreateEntry(index, classId, _, _, changes) =>
      var s := g.schema.serializers[g.schema.classes[classId]];
      if g.track(s.nameHash) then
        var base := BaseOf(g, c, index, classId).value;
        Container(
          c.entities[index := EntityData(index, Changed(base.serializer, g.interval, base.fields, changes),
                                         base.serializer)],
          c.baselines[classId := base], c.skipped)
      else c.(skipped := c.skipped[index := s])
    case UpdateEntry(index, changes) =>
      if index in c.skipped || index !in c.entities then c
      else
        var e := c.entities[index];
        c.(entities := c.entities[index := e.(fields := Changed(e.serializer, g.interval, e.fields, changes))])
    case LeaveEntry(index) => Without(c, index)
    case DeleteEntry(index) => Without(c, index)
  }

  function Without(c: Container, index: int): Container
  {
    c.(entities := map i | i in c.entities && i != index :: c.entities[i],
       skipped := map i | i in c.skipped && i != index :: c.skipped[i])
  }

  /** What the visitor is told: of a created or updated entity its new state, of one that is forgotten its last. */
  function Told(g: Setting, c: Container, prev: int, e: Entry): seq<EntityEvent>
    requires EntryFits(g, c, prev, e)
  {
    var later := After(g, c, prev, e).entities;
    match e
    case CreateEntry(index, classId, _, _, _) =>
      if g.track(g.schema.serializers[g.schema.classes[classId]].nameHash)
      then [EntityEvent(Create, later[index])] else []
    case UpdateEntry(index, _) => if index in later then [EntityEvent(Update, later[index])] else []
    case LeaveEntry(index) => if index in c.entities then [EntityEvent(Leave, c.entities[index])] else []
    case DeleteEntry(index) => if index in c.entities then [EntityEvent(Delete, c.entities[index])] else []
  }

  /** A baseline whose bytes are written fields, up to some bits behind them, is parsed to these fields. */
  lemma BaselineIsRead(g: Setting, c: Container, index: int, classId: nat, changes: seq<Change>, behind: BitString)
    requires classId < |g.schema.classes| && g.schema.classes[classId] in g.schema.serializers
    requires HasCodes(g.schema.tree) && classId !in c.baselines
    requires var s := g.schema.serializers[g.schema.classes[classId]];
      && ChangesFit(s, g.interval, g.schema.room, changes)
      && classId < |g.baselines| && g.baselines[classId].Some?
      && EncBytes(g.baselines[classId].value) == ChangeBits(g.schema, s, g.interval, changes) + behind
    ensures var s := g.schema.serializers[g.schema.classes[classId]];
      BaseOf(g, c, index, classId) == Some(EntityData(index, Changed(s, g.interval, map[], changes), s))
  {
    hide ParseEntity, EncBytes, ChangeBits, Changed, HasCodes, ChangesFit;
    ChangesAreRead(g.schema, g.schema.serializers[g.schema.classes[classId]], g.interval, map[], changes, behind);
  }

  // ---- reading one entry

  lemma IndexIsRead(prev: int, index: int, delta: Delta, b: BitString, rest: BitString)
    requires -1 <= prev < index < 0x8000_0000
    requires ReadDelta(b) == Ok(delta, rest)
    ensures ReadEntryHead(prev, EncUbitvar(index - prev - 1) + b) == Ok(EntryHead(index, delta), rest)
  {
    hide ReadUbitvar, EncUbitvar, ReadDelta;
    UbitvarRoundTrip(index - prev - 1, b);
  }

  lemma DeltaIsRead(low: bool, high: bool, rest: BitString)
    ensures ReadDelta([low, high] + rest)
         == Ok(if high then (if low then Delete else Create) else (if low then Leave else Update), rest)
  {
    var b := [low, high] + rest;
    assert b[..2] == [low, high] && b[2..] == rest && [low, high][1..] == [high];
    assert ToNat([high]) == if high then 1 else 0;
  }

  lemma HeadIsRead(schema: Schema, classId: nat, serial: nat, unknown: nat, n: nat, rest: BitString)
    requires classId < |schema.classes| && classId < Pow2(schema.classBits) && classId < 0x8000_0000
    requires schema.classes[classId] in schema.serializers && serial < 131072 && unknown < U32 && n == 17
    ensures ReadHead(schema, OfNat(classId, schema.classBits) + (OfNat(serial, n) + (EncGroups(unknown) + rest)))
         == Ok(Head(classId, schema.serializers[schema.classes[classId]]), rest)
  {
    hide ReadUbit, OfNat, ReadUvarint32, EncGroups, Pow2;
    Pow2Table(n);
    UbitRoundTrip(classId, schema.classBits, OfNat(serial, n) + (EncGroups(unknown) + rest));
    UbitRoundTrip(serial, n, EncGroups(unknown) + rest);
    Uvarint32RoundTrip(unknown, rest);
  }

  lemma WithoutIsRemoved(c: Container, index: int)
    ensures Removed(c, index) == Without(c, index)
  {
    assert c.entities - {index} == (map i | i in c.entities && i != index :: c.entities[i]);
    assert c.skipped - {index} == (map i | i in c.skipped && i != index :: c.skipped[i]);
  }

  lemma CreateIsRead(g: Setting, c: Container, prev: int, e: Entry, rest: BitString)
    requires HasCodes(g.schema.tree) && e.CreateEntry? && EntryFits(g, c, prev, e)
    ensures HandleEntry(g.schema, g.track, g.baselines, g.interval, c, prev, EntryBits(g, c, prev, e) + rest)
         == Ok(Stepped(After(g, c, prev, e), e.index, Told(g, c, prev, e)), rest)
  {
    hide ReadEntryHead, ReadHead, ReadDelta, ParseEntity, SkipEntity, EncUbitvar, OfNat, EncGroups, ChangeBits, Changed,
      HasCodes, ChangesFit, Pow2;
    var s := g.schema.serializers[g.schema.classes[e.classId]];
    var n := 17;
    var base := if g.track(s.nameHash) then BaseOf(g, c, e.index, e.classId).value else EntityData(e.index, map[], s);
    var delta := ChangeBits(g.schema, base.serializer, g.interval, e.changes) + rest;
    var head := OfNat(e.classId, g.schema.classBits) + (OfNat(e.serial, n) + (EncGroups(e.unknown) + delta));
    assert EntryBits(g, c, prev, e) + rest == EncUbitvar(e.index - prev - 1) + ([false, true] + head);
    DeltaIsRead(false, true, head);
    IndexIsRead(prev, e.index, Create, [false, true] + head, head);
    HeadIsRead(g.schema, e.classId, e.serial, e.unknown, n, delta);
    ChangesAreRead(g.schema, base.serializer, g.interval, base.fields, e.changes, rest);
  }

  lemma UpdateIsRead(g: Setting, c: Container, prev: int, e: Entry, rest: BitString)
    requires HasCodes(g.schema.tree) && e.UpdateEntry? && EntryFits(g, c, prev, e)
    ensures HandleEntry(g.schema, g.track, g.baselines, g.interval, c, prev, EntryBits(g, c, prev, e) + rest)
         == Ok(Stepped(After(g, c, prev, e), e.index, Told(g, c, prev, e)), rest)
  {
    hide ReadEntryHead, ReadDelta, ParseEntity, SkipEntity, EncUbitvar, ChangeBits, Changed, HasCodes, ChangesFit;
    var delta := UpdateBits(g, c, e.index, e.changes) + rest;
    assert EntryBits(g, c, prev, e) + rest == EncUbitvar(e.index - prev - 1) + ([false, false] + delta);
    DeltaIsRead(false, false, delta);
    IndexIsRead(prev, e.index, Update, [false, false] + delta, delta);
    if e.index in c.skipped {
      ChangesAreRead(g.schema, c.skipped[e.index], g.interval, map[], e.changes, rest);
    } else if e.index in c.entities {
      var was := c.entities[e.index];
      ChangesAreRead(g.schema, was.serializer, g.interval, was.fields, e.changes, rest);
    } else {
      assert delta == rest;
    }
  }

  lemma RemovalIsRead(g: Setting, c: Container, prev: int, e: Entry, rest: BitString)
    requires (e.LeaveEntry? || e.DeleteEntry?) && EntryFits(g, c, prev, e)
    ensures HandleEntry(g.schema, g.track, g.baselines, g.interval, c, prev, EntryBits(g, c, prev, e) + rest)
         == Ok(Stepped(After(g, c, prev, e), e.index, Told(g, c, prev, e)), rest)
  {
    hide ReadEntryHead, ReadDelta, EncUbitvar;
    var high := e.DeleteEntry?;
    assert EntryBits(g, c, prev, e) + rest == EncUbitvar(e.index - prev - 1) + ([true, high] + rest);
    DeltaIsRead(true, high, rest);
    IndexIsRead(prev, e.index, if high then Delete else Leave, [true, high] + rest, rest);
    WithoutIsRemoved(c, e.index);
  }

  /** Reading a written entry does to the entities what it says, tells what it says, and stops behind it. */
  lemma EntryIsRead(g: Setting, c: Container, prev: int, e: Entry, rest: BitString)
    requires HasCodes(g.schema.tree) && EntryFits(g, c, prev, e)
    ensures HandleEntry(g.schema, g.track, g.baselines, g.interval, c, prev, EntryBits(g, c, prev, e) + rest)
         == Ok(Stepped(After(g, c, prev, e), e.index, Told(g, c, prev, e)), rest)
  {
    hide HandleEntry, EntryBits, EntryFits, After, Told, HasCodes;
    match e
    case CreateEntry(_, _, _, _, _) => CreateIsRead(g, c, prev, e, rest);
    case UpdateEntry(_, _) => UpdateIsRead(g, c, prev, e, rest);
    case LeaveEntry(_) => RemovalIsRead(g, c, prev, e, rest);
    case DeleteEntry(_) => RemovalIsRead(g, c, prev, e, rest);
  }

  // ---- a whole message

  /** The indices ascend, and each entry can be written on what the ones before it leave. */
  predicate EntriesFit(g: Setting, c: Container, prev: int, es: seq<Entry>)
    decreases |es|
  {
    es == [] || (EntryFits(g, c, prev, es[0]) && EntriesFit(g, After(g, c, prev, es[0]), es[0].index, es[1..]))
  }

  function EntriesBits(g: Setting, c: Container, prev: int, es: seq<Entry>): BitString
    requires EntriesFit(g, c, prev, es)
    decreases |es|
  {
    if es == [] then []
    else EntryBits(g, c, prev, es[0]) + EntriesBits(g, After(g, c, prev, es[0]), es[0].index, es[1..])
  }

  function AfterAll(g: Setting, c: Container, prev: int, es: seq<Entry>): Container
    requires EntriesFit(g, c, prev, es)
    decreases |es|
  {
    if es == [] then c else AfterAll(g, After(g, c, prev, es[0]), es[0].index, es[1..])
  }

  function ToldOfAll(g: Setting, c: Container, prev: int, es: seq<Entry>): seq<EntityEvent>
    requires EntriesFit(g, c, prev, es)
    decreases |es|
  {
    if es == [] then []
    else Told(g, c, prev, es[0]) + ToldOfAll(g, After(g, c, prev, es[0]), es[0].index, es[1..])
  }

  /** Reading a written message does what its entries say, one after the other, tells of each, and stops behind it. */
  lemma {:induction false} MessageIsRead(g: Setting, c: Container, prev: int, es: seq<Entry>, rest: BitString)
    requires HasCodes(g.schema.tree) && EntriesFit(g, c, prev, es)
    ensures HandleEntries(|es|, g.schema, g.track, g.baselines, g.interval, c, prev,
                          EntriesBits(g, c, prev, es) + rest)
         == Ok(Stepped(AfterAll(g, c, prev, es), if es == [] then prev else es[|es| - 1].index,
                       ToldOfAll(g, c, prev, es)), rest)
    decreases |es|
  {
    hide HandleEntry, EntryBits, EntryFits, After, Told, HasCodes;
    var b := EntriesBits(g, c, prev, es) + rest;
    if es == [] {
      assert b == rest;
    } else {
      var c1 := After(g, c, prev, es[0]);
      var more := EntriesBits(g, c1, es[0].index, es[1..]) + rest;
      assert b == EntryBits(g, c, prev, es[0]) + more;
      EntryIsRead(g, c, prev, es[0], more);
      MessageIsRead(g, c1, es[0].index, es[1..], rest);
    }
  }
}
