/** Serializer trees, the keys of their fields and the walk along a field path. */
module Serializers {
  import opened Prelude
  import opened FxHash
  import opened FieldDecoders
  import opened FieldPaths

  datatype Special = Plain | FixedArray(length: nat) | DynamicArray(element: Decoder) | DynamicSerializerArray | Pointer

  /** `sendNode` holds the dot-separated parts of the send node, none when there is no send node. */
  datatype Field = Field(varName: Bytes, nameHash: Word, sendNode: seq<Bytes>, key: Word,
                         special: Special, decoder: Decoder, child: Option<Serializer>)
  {
    predicate IsDynamicArray() { special.DynamicArray? || special.DynamicSerializerArray? }

    predicate IsFixedArray() { special.FixedArray? }

    function GetChild(i: nat): (r: Option<Field>)
    {
      if child.None? then None else child.value.GetChild(i)
    }
  }

  datatype Serializer = Serializer(nameHash: Word, fields: seq<Field>)
  {
    function GetChild(i: nat): (r: Option<Field>)
    {
      if i < |fields| then Some(fields[i]) else None
    }
  }

  // ---- construction

  /** The hashes of the parts, folded from the first. */
  function FoldParts(hash: Word, parts: seq<Bytes>): Word
    decreases |parts|
  {
    if parts == [] then hash else FoldParts(AddToHash(hash, HashBytes(parts[0])), parts[1..])
  }

  function FieldKey(sendNode: seq<Bytes>, nameHash: Word): Word
  {
    if sendNode == [] then nameHash
    else AddToHash(FoldParts(HashBytes(sendNode[0]), sendNode[1..]), nameHash)
  }

  const DOT: Byte := 46

  /** The pieces of `s` between dots. */
  function Split(s: Bytes): (parts: seq<Bytes>)
    ensures parts != []
    decreases |s|
  {
    if s == [] then [[]]
    else
      var rest := Split(s[1..]);
      if s[0] == DOT then [[]] + rest else [[s[0]] + rest[0]] + rest[1..]
  }

  /** An element of a dynamic array: a default field with a decoder or a serializer. */
  function Element(decoder: Decoder, target: Option<Serializer>): Field
  {
    Field([], 0, [], 0, Plain, decoder, target)
  }

  /** A field and its children; `target` is what its serializer name refers to. */
  function MakeField(varName: Bytes, sendNode: Option<Bytes>, special: Special, decoder: Decoder,
                     target: Option<Serializer>): Field
  {
    var parts := if sendNode.None? || sendNode.value == [] then [] else Split(sendNode.value);
    var hash := HashBytes(varName);
    var bare := Field(varName, hash, parts, FieldKey(parts, hash), special, decoder, target);
    match special
    case FixedArray(length) =>
      bare.(child := Some(Serializer(0, seq(length, i => bare))))
    case DynamicArray(element) =>
      bare.(child := Some(Serializer(0, [Element(element, None)])))
    case DynamicSerializerArray =>
      bare.(child := Some(Serializer(0, [Element(Invalid, target)])))
    case Plain => bare
    case Pointer => bare
  }

  // ---- what every constructed tree satisfies

  ghost predicate Good(f: Field)
    decreases f
  {
    && f.nameHash == HashBytes(f.varName)
    && f.key == FieldKey(f.sendNode, f.nameHash)
    && match f.special
       case FixedArray(length) =>
         && f.child.Some? && |f.child.value.fields| == length
         && forall i | 0 <= i < |f.child.value.fields| ::
              f.child.value.fields[i] == f.child.value.fields[0] && FixedElement(f, f.child.value.fields[i])
       case DynamicArray(_) => f.child.Some? && |f.child.value.fields| == 1 && Elemental(f.child.value.fields[0])
       case DynamicSerializerArray => f.child.Some? && |f.child.value.fields| == 1 && Elemental(f.child.value.fields[0])
       case _ => f.child.Some? ==> GoodSerializer(f.child.value)
  }

  /** An element clone of a fixed array: it still says that it is a fixed array. */
  ghost predicate FixedElement(f: Field, e: Field)
    decreases e
  {
    && e == f.(child := e.child)
    && (e.child.Some? ==> GoodSerializer(e.child.value))
  }

  ghost predicate Elemental(e: Field)
    decreases e
  {
    e.special == Plain && (e.child.Some? ==> GoodSerializer(e.child.value))
  }

  ghost predicate GoodSerializer(s: Serializer)
    decreases s
  {
    forall i | 0 <= i < |s.fields| :: Good(s.fields[i])
  }

  lemma MakeFieldGood(varName: Bytes, sendNode: Option<Bytes>, special: Special, decoder: Decoder,
      target: Option<Serializer>)
    requires target.Some? ==> GoodSerializer(target.value)
    ensures var f := MakeField(varName, sendNode, special, decoder, target);
      && Good(f) && f.varName == varName && f.special == special && f.decoder == decoder
      && (special.Plain? || special.Pointer? ==> f.child == target)
      && (special.FixedArray? ==>
            forall i | 0 <= i < special.length :: f.GetChild(i) == Some(f.(child := target)))
      && (special.DynamicArray? ==> f.GetChild(0).value.decoder == special.element && f.GetChild(0).value.child == None)
      && (special.DynamicSerializerArray? ==> f.GetChild(0).value.child == target)
  {
  }

  // ---- parsing the send tables

  /** A described field with its symbols resolved. */
  datatype FieldMsg = FieldMsg(varName: Bytes, sendNode: Option<Bytes>, special: Special, decoder: Decoder,
                               serializerName: Option<Bytes>)

  datatype SerializerMsg = SerializerMsg(name: Bytes, fieldsIndex: seq<nat>)

  type SerializerMap = map<Word, Serializer>

  type FieldMap = map<nat, Field>

  function BuildField(msg: FieldMsg, known: SerializerMap): Field
  {
    var target :=
      if msg.serializerName.Some? && HashBytes(msg.serializerName.value) in known
      then Some(known[HashBytes(msg.serializerName.value)]) else None;
    MakeField(msg.varName, msg.sendNode, msg.special, msg.decoder, target)
  }

  /** The first message that uses field `i`. */
  function FirstUse(msgs: seq<SerializerMsg>, i: nat): (n: nat)
    ensures n <= |msgs|
    ensures n < |msgs| ==> i in msgs[n].fieldsIndex
    ensures forall m | 0 <= m < n :: i !in msgs[m].fieldsIndex
  {
    if msgs == [] || i in msgs[0].fieldsIndex then 0 else 1 + FirstUse(msgs[1..], i)
  }

  predicate InRange(fields: seq<FieldMsg>, msg: SerializerMsg)
  {
    forall k | 0 <= k < |msg.fieldsIndex| :: msg.fieldsIndex[k] < |fields|
  }

  predicate AllInRange(fields: seq<FieldMsg>, msgs: seq<SerializerMsg>)
  {
    forall n | 0 <= n < |msgs| :: InRange(fields, msgs[n])
  }

  /** Field `i` is built once, with the serializers known when the first message uses it. */
  function FieldAt(fields: seq<FieldMsg>, msgs: seq<SerializerMsg>, i: nat): Field
    requires AllInRange(fields, msgs) && i < |fields| && FirstUse(msgs, i) < |msgs|
    decreases FirstUse(msgs, i), 1
  {
    BuildField(fields[i], KnownAfter(fields, msgs, FirstUse(msgs, i)))
  }

  /** What message `n` describes: its name and its fields in order. */
  function SerializerAt(fields: seq<FieldMsg>, msgs: seq<SerializerMsg>, n: nat): Serializer
    requires AllInRange(fields, msgs) && n < |msgs|
    decreases n, 2
  {
    var indices := msgs[n].fieldsIndex;
    assert InRange(fields, msgs[n]);
    Serializer(HashBytes(msgs[n].name),
               seq(|indices|, k requires 0 <= k < |indices| =>
                 assert FirstUse(msgs, indices[k]) <= n;
                 FieldAt(fields, msgs, indices[k])))
  }

  /** The serializers by name hash after `n` messages; of several with one name the last. */
  function KnownAfter(fields: seq<FieldMsg>, msgs: seq<SerializerMsg>, n: nat): SerializerMap
    requires AllInRange(fields, msgs) && n <= |msgs|
    decreases n, 0
  {
    if n == 0 then map[]
    else KnownAfter(fields, msgs, n - 1)[HashBytes(msgs[n - 1].name) := SerializerAt(fields, msgs, n - 1)]
  }

  /** The fields in `used` that were not remembered yet are, as built from their messages. */
  ghost predicate Extended(before: FieldMap, after: FieldMap, used: seq<nat>, fields: seq<FieldMsg>,
                           known: SerializerMap)
  {
    && (forall i: nat :: i in after <==> i in before || i in used)
    && (forall i | i in after ::
          i < |fields| && after[i] == if i in before then before[i] else BuildField(fields[i], known))
  }

  lemma ExtendedNext(before: FieldMap, after: FieldMap, used: seq<nat>, index: nat, later: FieldMap,
                     fields: seq<FieldMsg>, known: SerializerMap)
    requires Extended(before, after, used, fields, known)
    requires index in later && later == if index in after then after else after[index := later[index]]
    requires index !in after ==> index < |fields| && later[index] == BuildField(fields[index], known)
    ensures Extended(before, later, used + [index], fields, known)
  {
    hide BuildField;
  }

  /** One serializer: the fields it uses first are built and remembered, the others are shared. */
  method ParseOne(fields: seq<FieldMsg>, msg: SerializerMsg, fieldMap: FieldMap, known: SerializerMap)
    returns (r: Option<Serializer>, fieldMap': FieldMap)
    requires forall i | i in fieldMap :: i < |fields|
    ensures r.Some? <==> InRange(fields, msg)
    ensures r.Some? ==>
      && Extended(fieldMap, fieldMap', msg.fieldsIndex, fields, known)
      && r.value.nameHash == HashBytes(msg.name) && |r.value.fields| == |msg.fieldsIndex|
      && (forall k | 0 <= k < |msg.fieldsIndex| ::
            msg.fieldsIndex[k] in fieldMap' && r.value.fields[k] == fieldMap'[msg.fieldsIndex[k]])
  {
    hide BuildField, HashBytes, Extended;
    fieldMap' := fieldMap;
    var built: seq<Field> := [];
    assert Extended(fieldMap, fieldMap', [], fields, known) by { ExtendedStart(fieldMap, fields, known); }
    for k := 0 to |msg.fieldsIndex|
      invariant |built| == k && Extended(fieldMap, fieldMap', msg.fieldsIndex[..k], fields, known)
      invariant forall i | i in fieldMap' :: i < |fields|
      invariant forall i | 0 <= i < k :: msg.fieldsIndex[i] in fieldMap' && built[i] == fieldMap'[msg.fieldsIndex[i]]
    {
      var index: nat := msg.fieldsIndex[k];
      assert msg.fieldsIndex[..k + 1] == msg.fieldsIndex[..k] + [index];
      ghost var after := fieldMap';
      if index in fieldMap' {
        built := built + [fieldMap'[index]];
      } else {
        if index >= |fields| { return None, fieldMap'; }
        var field := BuildField(fields[index], known);
        fieldMap' := fieldMap'[index := field];
        built := built + [field];
      }
      ExtendedNext(fieldMap, after, msg.fieldsIndex[..k], index, fieldMap', fields, known);
    }
    assert msg.fieldsIndex[..|msg.fieldsIndex|] == msg.fieldsIndex;
    r := Some(Serializer(HashBytes(msg.name), built));
  }

  lemma ExtendedStart(fieldMap: FieldMap, fields: seq<FieldMsg>, known: SerializerMap)
    requires forall i | i in fieldMap :: i < |fields|
    ensures Extended(fieldMap, fieldMap, [], fields, known)
  {
  }

  /** The field map after `n` messages. */
  ghost predicate Remembers(fieldMap: FieldMap, fields: seq<FieldMsg>, msgs: seq<SerializerMsg>, n: nat)
    requires AllInRange(fields, msgs) && n <= |msgs|
  {
    && (forall i: nat :: i in fieldMap <==> FirstUse(msgs, i) < n)
    && (forall i | i in fieldMap :: i < |fields| && fieldMap[i] == FieldAt(fields, msgs, i))
  }

  /** The next message uses fields that are remembered, or uses them first. */
  lemma RemembersNext(fieldMap: FieldMap, later: FieldMap, fields: seq<FieldMsg>, msgs: seq<SerializerMsg>, n: nat)
    requires AllInRange(fields, msgs) && n < |msgs| && Remembers(fieldMap, fields, msgs, n)
    requires Extended(fieldMap, later, msgs[n].fieldsIndex, fields, KnownAfter(fields, msgs, n))
    ensures Remembers(later, fields, msgs, n + 1)
  {
    hide BuildField, KnownAfter, FirstUse, SerializerAt;
    forall i: nat
      ensures i in later <==> FirstUse(msgs, i) < n + 1
      ensures i in later ==> later[i] == FieldAt(fields, msgs, i)
    {
      var first := FirstUse(msgs, i);
      assert i in fieldMap <==> first < n;
      if i in msgs[n].fieldsIndex {
        assert first <= n;
      } else {
        assert first != n;
      }
    }
  }

  /** Every field is the one its message describes, built with the serializers known at its first use. */
  method ParseSendTables(fields: seq<FieldMsg>, msgs: seq<SerializerMsg>) returns (r: Option<SerializerMap>)
    ensures r == if AllInRange(fields, msgs) then Some(KnownAfter(fields, msgs, |msgs|)) else None
  {
    hide BuildField, HashBytes, FieldAt, FirstUse;
    var fieldMap: FieldMap := map[];
    var known: SerializerMap := map[];
    for n := 0 to |msgs|
      invariant AllInRange(fields, msgs[..n])
      invariant forall i | i in fieldMap :: i < |fields|
      invariant AllInRange(fields, msgs) ==>
        known == KnownAfter(fields, msgs, n) && Remembers(fieldMap, fields, msgs, n)
    {
      var s, later := ParseOne(fields, msgs[n], fieldMap, known);
      if s.None? { return None; }
      if AllInRange(fields, msgs) {
        RemembersNext(fieldMap, later, fields, msgs, n);
        assert s.value == SerializerAt(fields, msgs, n);
      }
      fieldMap := later;
      known := known[HashBytes(msgs[n].name) := s.value];
      assert msgs[..n + 1] == msgs[..n] + [msgs[n]];
    }
    r := Some(known);
  }

  lemma BuildFieldGood(msg: FieldMsg, known: SerializerMap)
    requires forall h | h in known :: GoodSerializer(known[h])
    ensures Good(BuildField(msg, known)) && BuildField(msg, known).varName == msg.varName
  {
    var target :=
      if msg.serializerName.Some? && HashBytes(msg.serializerName.value) in known
      then Some(known[HashBytes(msg.serializerName.value)]) else None;
    MakeFieldGood(msg.varName, msg.sendNode, msg.special, msg.decoder, target);
  }

  lemma SerializerGood(fields: seq<FieldMsg>, msgs: seq<SerializerMsg>, n: nat)
    requires AllInRange(fields, msgs) && n < |msgs|
    ensures GoodSerializer(SerializerAt(fields, msgs, n))
    decreases n, 1
  {
    hide BuildField, HashBytes, Good, FirstUse, KnownAfter;
    var s := SerializerAt(fields, msgs, n);
    assert InRange(fields, msgs[n]);
    forall k | 0 <= k < |s.fields|
      ensures Good(s.fields[k])
    {
      var i := msgs[n].fieldsIndex[k];
      assert FirstUse(msgs, i) <= n;
      KnownGood(fields, msgs, FirstUse(msgs, i));
      BuildFieldGood(fields[i], KnownAfter(fields, msgs, FirstUse(msgs, i)));
      assert s.fields[k] == FieldAt(fields, msgs, i);
    }
  }

  /** Every parsed serializer is well formed; under a name is what the last message of that name describes. */
  lemma {:induction false} KnownGood(fields: seq<FieldMsg>, msgs: seq<SerializerMsg>, n: nat)
    requires AllInRange(fields, msgs) && n <= |msgs|
    ensures forall h | h in KnownAfter(fields, msgs, n) :: GoodSerializer(KnownAfter(fields, msgs, n)[h])
    ensures forall m | 0 <= m < n && (forall j | m < j < n :: HashBytes(msgs[j].name) != HashBytes(msgs[m].name)) ::
      HashBytes(msgs[m].name) in KnownAfter(fields, msgs, n)
      && KnownAfter(fields, msgs, n)[HashBytes(msgs[m].name)] == SerializerAt(fields, msgs, m)
    decreases n, 0
  {
    hide BuildField, HashBytes, Good, FirstUse, FieldAt, SerializerAt;
    if n > 0 {
      KnownGood(fields, msgs, n - 1);
      SerializerGood(fields, msgs, n - 1);
    }
  }

  // ---- walking a field path

  /** The child that component `c` selects, and what it adds to the key. */
  function Step(f: Field, c: Byte): Option<(Field, Word)>
  {
    if f.IsDynamicArray() then
      var g := f.GetChild(0);
      if g.None? then None else Some((g.value, AddToHash(0, c)))
    else
      var g := f.GetChild(c);
      if g.None? then None else Some((g.value, if f.IsFixedArray() then AddToHash(0, c) else g.value.nameHash))
  }

  function Navigate(f: Field, key: Word, components: Bytes): Option<(Field, Word)>
    decreases |components|
  {
    if components == [] then Some((f, key)) else
    match Step(f, components[0])
    case None => None
    case Some((g, added)) => Navigate(g, AddToHash(key, added), components[1..])
  }

  /** The field and key of a path, as `Entity::parse` finds them. */
  function Locate(s: Serializer, p: Path): Option<(Field, Word)>
  {
    match s.GetChild(p.data[0])
    case None => None
    case Some(f) => Navigate(f, f.key, p.data[1..p.last + 1])
  }

  method LocateLoop(s: Serializer, p: Path) returns (r: Option<(Field, Word)>)
    ensures r == Locate(s, p)
  {
    var first := s.GetChild(p.data[0]);
    if first.None? { return None; }
    var field := first.value;
    var fieldKey: Word := field.key;
    hide AddToHash;
    for i := 1 to p.last + 1
      invariant Navigate(field, fieldKey, p.data[i..p.last + 1]) == Locate(s, p)
    {
      ghost var rest := p.data[i..p.last + 1];
      assert rest[0] == p.data[i] && rest[1..] == p.data[i + 1..p.last + 1];
      if field.IsDynamicArray() {
        var child := field.GetChild(0);
        if child.None? { return None; }
        field := child.value;
        fieldKey := AddToHash(fieldKey, AddToHash(0, p.data[i]));
      } else {
        var fixedArray := field.IsFixedArray();
        var child := field.GetChild(p.data[i]);
        if child.None? { return None; }
        field := child.value;
        fieldKey := if fixedArray then AddToHash(fieldKey, AddToHash(0, p.data[i]))
            else AddToHash(fieldKey, field.nameHash);
      }
    }
    r := Some((field, fieldKey));
  }

  /** The walk of `skip_entity_fields`, which builds no key. */
  function NavigateField(f: Field, components: Bytes): Option<Field>
    decreases |components|
  {
    if components == [] then Some(f) else
    var g := if f.IsDynamicArray() then f.GetChild(0) else f.GetChild(components[0]);
    if g.None? then None else NavigateField(g.value, components[1..])
  }

  function LocateField(s: Serializer, p: Path): Option<Field>
  {
    match s.GetChild(p.data[0])
    case None => None
    case Some(f) => NavigateField(f, p.data[1..p.last + 1])
  }

  lemma {:induction false} NavigateSameField(f: Field, key: Word, components: Bytes)
    ensures match Navigate(f, key, components)
            case Some((g, _)) => NavigateField(f, components) == Some(g)
            case None => NavigateField(f, components) == None
    decreases |components|
  {
    if components != [] && Step(f, components[0]).Some? {
      var (g, added) := Step(f, components[0]).value;
      NavigateSameField(g, AddToHash(key, added), components[1..]);
    }
  }

  lemma LocateSameField(s: Serializer, p: Path)
    ensures match Locate(s, p)
            case Some((g, _)) => LocateField(s, p) == Some(g)
            case None => LocateField(s, p) == None
  {
    match s.GetChild(p.data[0])
    case Some(f) => NavigateSameField(f, f.key, p.data[1..p.last + 1]);
    case None =>
  }
}
