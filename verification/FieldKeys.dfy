/** When two fields can share a key, and when the key of a field is the key of its textual path. */
module FieldKeys {
  import opened Prelude
  import opened FxHash
  import opened FieldPaths
  import opened FieldDecoders
  import opened Serializers

  /** `fkey_from_path`: the hash of the first part with the hashes of the others folded in. */
  function FkeyFromPath(path: seq<Bytes>): Word
    requires path != []
  {
    FoldParts(HashBytes(path[0]), path[1..])
  }

  method FkeyFromPathLoop(path: seq<Bytes>) returns (hash: Word)
    requires path != []
    ensures hash == FkeyFromPath(path)
  {
    hide AddToHash, HashBytes;
    hash := HashBytesLoop(path[0]);
    var i := 1;
    while i < |path|
      invariant 1 <= i <= |path|
      invariant FoldParts(hash, path[i..]) == FkeyFromPath(path)
    {
      assert path[i..][0] == path[i] && path[i..][1..] == path[i + 1..];
      var partHash := HashBytesLoop(path[i]);
      hash := AddToHash(hash, partHash);
      i := i + 1;
    }
  }

  // ---- what a walk adds to the key does not depend on the key

  function Added(f: Field, components: Bytes): seq<Word>
    decreases |components|
  {
    if components == [] then [] else
    match Step(f, components[0])
    case None => []
    case Some((g, added)) => [added] + Added(g, components[1..])
  }

  lemma {:induction false} NavigateAdds(f: Field, key: Word, components: Bytes)
    ensures match Navigate(f, key, components)
            case Some((_, k)) => k == AddAll(key, Added(f, components))
            case None => true
    decreases |components|
  {
    hide AddToHash;
    if components != [] && Step(f, components[0]).Some? {
      var (g, added) := Step(f, components[0]).value;
      NavigateAdds(g, AddToHash(key, added), components[1..]);
      assert ([added] + Added(g, components[1..]))[1..] == Added(g, components[1..]);
    }
  }

  // ---- elements of one array

  lemma AddToZeroInjective(c: Byte, d: Byte)
    requires c != d
    ensures AddToHash(0, c) != AddToHash(0, d)
  {
    if AddToHash(0, c) == AddToHash(0, d) {
      AddToHashInjective(0, 0, c, d);
    }
  }

  /** All elements of an array continue with the same field. */
  lemma SameElements(f: Field, c: Byte, d: Byte)
    requires Good(f) && (f.IsDynamicArray() || f.IsFixedArray())
    requires Step(f, c).Some? && Step(f, d).Some?
    ensures Step(f, c).value.0 == Step(f, d).value.0
    ensures Step(f, c).value.1 == AddToHash(0, c) && Step(f, d).value.1 == AddToHash(0, d)
  {
  }

  /** Two distinct indices of one array, followed by any common sub-path, give distinct keys. */
  lemma ArrayKeysDistinct(f: Field, key: Word, c: Byte, d: Byte, rest: Bytes)
    requires Good(f) && (f.IsDynamicArray() || f.IsFixedArray()) && c != d
    requires Navigate(f, key, [c] + rest).Some? && Navigate(f, key, [d] + rest).Some?
    ensures Navigate(f, key, [c] + rest).value.0 == Navigate(f, key, [d] + rest).value.0
    ensures Navigate(f, key, [c] + rest).value.1 != Navigate(f, key, [d] + rest).value.1
  {
    hide AddToHash, AddAll;
    assert ([c] + rest)[1..] == rest && ([d] + rest)[1..] == rest;
    SameElements(f, c, d);
    var g := Step(f, c).value.0;
    var k1, k2 := AddToHash(key, AddToHash(0, c)), AddToHash(key, AddToHash(0, d));
    AddToZeroInjective(c, d);
    if k1 == k2 {
      AddToHashInjective(key, key, AddToHash(0, c), AddToHash(0, d));
    }
    NavigateAdds(g, k1, rest);
    NavigateAdds(g, k2, rest);
    AddAllInjective(k1, k2, Added(g, rest));
    SameFieldAnyKey(g, k1, k2, rest);
  }

  lemma SameFieldAnyKey(f: Field, k1: Word, k2: Word, components: Bytes)
    requires Navigate(f, k1, components).Some? && Navigate(f, k2, components).Some?
    ensures Navigate(f, k1, components).value.0 == Navigate(f, k2, components).value.0
  {
  }

  // ---- agreement with textual paths

  /** The path as a user writes it: an array index is a one-byte string, anything else the name of
      the child.  `element` says that `f` is itself an element of an array. */
  function Text(f: Field, element: bool, components: Bytes): seq<Bytes>
    decreases |components|
  {
    if components == [] then []
    else if !element && (f.IsDynamicArray() || f.IsFixedArray()) then
      match f.GetChild(if f.IsDynamicArray() then 0 else components[0])
      case Some(g) => [[components[0]]] + Text(g, true, components[1..])
      case None => []
    else
      match f.GetChild(components[0])
      case Some(g) => [g.varName] + Text(g, false, components[1..])
      case None => []
  }

  /** The path does not descend below an element of a fixed array. */
  predicate AvoidsFixedElements(f: Field, element: bool, components: Bytes)
    decreases |components|
  {
    if components == [] then true
    else if !element && (f.IsDynamicArray() || f.IsFixedArray()) then
      match f.GetChild(if f.IsDynamicArray() then 0 else components[0])
      case Some(g) => AvoidsFixedElements(g, true, components[1..])
      case None => true
    else
      && !f.IsFixedArray()
      && match f.GetChild(components[0])
         case Some(g) => AvoidsFixedElements(g, false, components[1..])
         case None => true
  }

  /** Below an element of a fixed array the clone still counts as an array, so the child is keyed by its
      index and not by its name: how many steps there have an index that hashes unlike the name. */
  function Unlike(f: Field, element: bool, components: Bytes): nat
    decreases |components|
  {
    if components == [] then 0
    else if !element && (f.IsDynamicArray() || f.IsFixedArray()) then
      match f.GetChild(if f.IsDynamicArray() then 0 else components[0])
      case Some(g) => Unlike(g, true, components[1..])
      case None => 0
    else
      match f.GetChild(components[0])
      case Some(g) =>
        (if f.IsFixedArray() && HashBytes(g.varName) != HashBytes([components[0]]) then 1 else 0)
        + Unlike(g, false, components[1..])
      case None => 0
  }

  lemma {:induction false} AvoidsIsAlike(f: Field, element: bool, components: Bytes)
    requires AvoidsFixedElements(f, element, components)
    ensures Unlike(f, element, components) == 0
    decreases |components|
  {
    hide HashBytes;
    if components != [] {
      var isArray := !element && (f.IsDynamicArray() || f.IsFixedArray());
      var g := f.GetChild(if isArray && f.IsDynamicArray() then 0 else components[0]);
      if g.Some? {
        AvoidsIsAlike(g.value, isArray, components[1..]);
      }
    }
  }

  /** `f` is a constructed field, or an element of a constructed array. */
  ghost predicate Standing(f: Field, element: bool)
  {
    if element then f.child.Some? ==> GoodSerializer(f.child.value) else Good(f)
  }

  lemma OneByteHash(c: Byte)
    ensures HashBytes([c]) == AddToHash(0, c)
  {
    assert HashBytes([c]) == HashFrom(AddToHash(0, [c][0]), [c][1..]);
  }

  /** One step of the walk and of the textual path. */
  lemma StepText(f: Field, element: bool, c: Byte)
    requires Standing(f, element) && (element ==> !f.IsDynamicArray()) && Step(f, c).Some?
    ensures var (g, added) := Step(f, c).value;
      var isArray := !element && (f.IsDynamicArray() || f.IsFixedArray());
      && Standing(g, isArray)
      && (isArray ==> !g.IsDynamicArray())
      && added == HashBytes(if isArray || f.IsFixedArray() then [c] else g.varName)
  {
    hide AddToHash, HashBytes, FieldKey;
    OneByteHash(c);
    var (g, added) := Step(f, c).value;
    if element {
      assert GoodSerializer(f.child.value);
      assert Good(f.child.value.fields[c]);
    } else if f.IsDynamicArray() {
      assert Elemental(f.child.value.fields[0]);
    } else if f.IsFixedArray() {
      assert FixedElement(f, f.child.value.fields[c]);
    } else {
      assert GoodSerializer(f.child.value);
      assert Good(f.child.value.fields[c]);
    }
  }

  lemma {:induction false} FoldInjective(h1: Word, h2: Word, parts: seq<Bytes>)
    requires h1 != h2
    ensures FoldParts(h1, parts) != FoldParts(h2, parts)
    decreases |parts|
  {
    hide AddToHash, HashBytes;
    if parts != [] {
      var v := HashBytes(parts[0]);
      if AddToHash(h1, v) == AddToHash(h2, v) {
        AddToHashInjective(h1, h2, v, v);
      }
      FoldInjective(AddToHash(h1, v), AddToHash(h2, v), parts[1..]);
    }
  }

  /** The walk and the text give one key if no step is unlike, and two if exactly one is. */
  lemma {:induction false} WalkAgrees(f: Field, element: bool, key: Word, components: Bytes)
    requires Standing(f, element) && (element ==> !f.IsDynamicArray()) && Navigate(f, key, components).Some?
    ensures var walked, text := Navigate(f, key, components).value.1, FoldParts(key, Text(f, element, components));
      && (Unlike(f, element, components) == 0 ==> walked == text)
      && (Unlike(f, element, components) == 1 ==> walked != text)
    decreases |components|
  {
    hide AddToHash, HashBytes, FieldKey, Good;
    if components != [] {
      var c, rest := components[0], components[1..];
      StepText(f, element, c);
      var (g, added) := Step(f, c).value;
      var isArray := !element && (f.IsDynamicArray() || f.IsFixedArray());
      var part := if isArray then [c] else g.varName;
      WalkAgrees(g, isArray, AddToHash(key, added), rest);
      assert ([part] + Text(g, isArray, rest))[1..] == Text(g, isArray, rest);
      if added != HashBytes(part) {
        if AddToHash(key, added) == AddToHash(key, HashBytes(part)) {
          AddToHashInjective(key, key, added, HashBytes(part));
        }
        FoldInjective(AddToHash(key, added), AddToHash(key, HashBytes(part)), Text(g, isArray, rest));
      }
    }
  }

  /** The textual path of a whole field path: send node parts, the name, then the components. */
  function TextPath(s: Serializer, p: Path): seq<Bytes>
  {
    match s.GetChild(p.data[0])
    case None => []
    case Some(f) => f.sendNode + [f.varName] + Text(f, false, p.data[1..p.last + 1])
  }

  lemma {:induction false} FoldConcat(hash: Word, a: seq<Bytes>, b: seq<Bytes>)
    ensures FoldParts(hash, a + b) == FoldParts(FoldParts(hash, a), b)
    decreases |a|
  {
    hide AddToHash, HashBytes;
    if a == [] {
      assert a + b == b;
    } else {
      assert (a + b)[0] == a[0] && (a + b)[1..] == a[1..] + b;
      FoldConcat(AddToHash(hash, HashBytes(a[0])), a[1..], b);
    }
  }

  lemma TopKeyAgrees(f: Field, rest: seq<Bytes>)
    requires Good(f)
    ensures FkeyFromPath(f.sendNode + [f.varName] + rest) == FoldParts(f.key, rest)
  {
    hide AddToHash, HashBytes;
    var path := f.sendNode + [f.varName] + rest;
    if f.sendNode == [] {
      assert path[1..] == rest;
    } else {
      assert path[1..] == f.sendNode[1..] + ([f.varName] + rest);
      FoldConcat(HashBytes(f.sendNode[0]), f.sendNode[1..], [f.varName] + rest);
      assert ([f.varName] + rest)[1..] == rest;
    }
  }

  function UnlikeSteps(s: Serializer, p: Path): nat
  {
    match s.GetChild(p.data[0])
    case None => 0
    case Some(f) => Unlike(f, false, p.data[1..p.last + 1])
  }

  /** The key under which a field is stored is the key of its textual path if no step is unlike, and is not if
      exactly one is; two of them could only cancel by chance. */
  lemma {:induction false} KeyAgreement(s: Serializer, p: Path)
    requires GoodSerializer(s) && Locate(s, p).Some?
    ensures TextPath(s, p) != []
    ensures UnlikeSteps(s, p) <= 1 ==>
      (Locate(s, p).value.1 == FkeyFromPath(TextPath(s, p)) <==> UnlikeSteps(s, p) == 0)
  {
    hide AddToHash, HashBytes, Good;
    var f := s.GetChild(p.data[0]).value;
    var components := p.data[1..p.last + 1];
    assert Good(f);
    WalkAgrees(f, false, f.key, components);
    TopKeyAgrees(f, Text(f, false, components));
  }

  /** Off the elements of fixed arrays the keys agree whatever the names. */
  lemma KeyAgreementOff(s: Serializer, p: Path)
    requires GoodSerializer(s) && Locate(s, p).Some?
    requires AvoidsFixedElements(s.GetChild(p.data[0]).value, false, p.data[1..p.last + 1])
    ensures TextPath(s, p) != [] && Locate(s, p).value.1 == FkeyFromPath(TextPath(s, p))
  {
    AvoidsIsAlike(s.GetChild(p.data[0]).value, false, p.data[1..p.last + 1]);
    KeyAgreement(s, p);
  }

  // ---- send nodes

  predicate Dotless(part: Bytes)
  {
    forall i | 0 <= i < |part| :: part[i] != '.' as int
  }

  /** The parts with a dot between any two. */
  function Dotted(parts: seq<Bytes>): Bytes
    requires parts != []
  {
    if |parts| == 1 then parts[0] else parts[0] + ['.' as int] + Dotted(parts[1..])
  }

  lemma {:induction false} SplitOfDotted(parts: seq<Bytes>)
    requires parts != [] && forall i | 0 <= i < |parts| :: Dotless(parts[i])
    ensures Split(Dotted(parts)) == parts
    decreases |parts|, |parts[0]|
  {
    var first, s := parts[0], Dotted(parts);
    assert Dotless(first);
    if first == [] {
      if |parts| > 1 {
        assert s[1..] == Dotted(parts[1..]);
        SplitOfDotted(parts[1..]);
      }
    } else {
      var shorter := [first[1..]] + parts[1..];
      assert s[0] == first[0] && s[1..] == Dotted(shorter) by {
        if |parts| > 1 {
          assert shorter[1..] == parts[1..];
        }
      }
      assert forall i | 0 < i < |parts| :: shorter[i] == parts[i];
      SplitOfDotted(shorter);
      assert [first[0]] + first[1..] == first && parts == [first] + parts[1..];
    }
  }

  /** A field whose send node names `parts` is found under the path of these parts and its own name; without a send
      node, or with an empty one, under its name alone. */
  lemma SendNodeKey(varName: Bytes, parts: seq<Bytes>, special: Special, decoder: Decoder, target: Option<Serializer>)
    requires forall i | 0 <= i < |parts| :: Dotless(parts[i])
    ensures MakeField(varName, None, special, decoder, target).key == FkeyFromPath([varName])
    ensures MakeField(varName, Some([]), special, decoder, target).key == FkeyFromPath([varName])
    ensures parts != [] && Dotted(parts) != [] ==>
      MakeField(varName, Some(Dotted(parts)), special, decoder, target).key == FkeyFromPath(parts + [varName])
  {
    hide HashBytes, AddToHash, Split, Dotted;
    if parts != [] && Dotted(parts) != [] {
      SplitOfDotted(parts);
      FoldConcat(HashBytes(parts[0]), parts[1..], [varName]);
      assert (parts + [varName])[1..] == parts[1..] + [varName] && [varName][1..] == [];
    }
  }

  /** A fixed array of one element whose only child is called by the one byte `name`. */
  function OneElement(name: Byte): Serializer
  {
    var child := MakeField([name], None, Plain, Invalid, None);
    Serializer(0, [MakeField([0], None, FixedArray(1), Invalid, Some(Serializer(0, [child])))])
  }

  /** Its child is kept under another key than that of its textual path, unless the name is the byte 0. */
  lemma FixedElementKeyDiffers(name: Byte, p: Path)
    requires p == Path([0, 0, 0, 0, 0, 0, 0], 2)
    ensures var s := OneElement(name);
      && GoodSerializer(s) && Locate(s, p).Some? && TextPath(s, p) == [[0], [0], [name]]
      && (Locate(s, p).value.1 == FkeyFromPath([[0], [0], [name]]) <==> name == 0)
  {
    hide AddToHash, HashBytes, FieldKey;
    var s := OneElement(name);
    var f := s.fields[0];
    var e := f.child.value.fields[0];
    var g := e.child.value.fields[0];
    assert p.data[1..p.last + 1] == [0, 0] && [0, 0][1..] == [0] && [0][1..] == [];
    MakeFieldGood([name], None, Plain, Invalid, None);
    assert Good(g);
    MakeFieldGood([0], None, FixedArray(1), Invalid, Some(Serializer(0, [g])));
    assert Unlike(e, true, [0]) == (if HashBytes(g.varName) != HashBytes([0]) then 1 else 0) + Unlike(g, false, []);
    assert Unlike(f, false, [0, 0]) == Unlike(e, true, [0]);
    KeyAgreement(s, p);
    assert Text(e, true, [0]) == [g.varName] + Text(g, false, []);
    assert Text(f, false, [0, 0]) == [[0]] + Text(e, true, [0]);
    OneByteHash(name);
    OneByteHash(0);
    if name != 0 {
      AddToZeroInjective(name, 0);
    }
  }
}
