/** Reading a list of field paths, and an encoding that the reader undoes. */
module FieldPathCodec {
  import opened Prelude
  import opened Bits
  import opened BitReaders
  import opened FieldPaths
  import opened FieldPathEditing
  import opened Huffman
  import opened FlatTrees

  /** Operations are read and run until the finish operation; `room` paths fit the buffer. */
  function ReadPaths(root: Node<FieldOp>, p: Path, room: nat, b: BitString): (r: Read<seq<Path>>)
    requires root.Branch?
    ensures r.Ok? ==> |r.value| <= room && |r.rest| <= |b|
    decreases |b|
  {
    var (op, b1) :- Walk(root, b);
    var (q, b2) :- ApplyAll(Edits(op), p, b1);
    if op.FieldPathEncodeFinish? then Ok([], b2)
    else if room == 0 then Fail
    else
      var (qs, b3) :- ReadPaths(root, q, room - 1, b2);
      Ok([q] + qs, b3)
  }

  /** In every path that is read, from the start on, the slots above `last` are zero. */
  lemma {:induction false} ReadPathsClean(root: Node<FieldOp>, p: Path, room: nat, b: BitString)
    requires root.Branch? && Clean(p)
    ensures ReadPaths(root, p, room, b).Ok? ==>
      forall i | 0 <= i < |ReadPaths(root, p, room, b).value| :: Clean(ReadPaths(root, p, room, b).value[i])
    decreases |b|
  {
    hide Walk, Edits, ApplyAll, Clean;
    match Walk(root, b)
    case Fail =>
    case Ok(op, b1) =>
      ApplyAllClean(Edits(op), p, b1);
      match ApplyAll(Edits(op), p, b1) {
        case Ok(q, b2) =>
          if !op.FieldPathEncodeFinish? && room > 0 {
            ReadPathsClean(root, q, room - 1, b2);
          }
        case Fail =>
      }
  }

  // ---- the reader as code

  method BuildFlatTree(descriptors: seq<(nat, FieldOp)>) returns (nodes: seq<FlatBranch<FieldOp>>, root: nat)
    requires |descriptors| >= 2
    ensures Descending(nodes) && root < |nodes| && Represents(nodes, BranchAt(root), HuffmanTree(descriptors))
    ensures |nodes| == Branches(HuffmanTree(descriptors)) && root == |nodes| - 1
  {
    var hierarchy := BuildHierarchy(descriptors);
    HuffmanBranch(descriptors);
    var out := new NodeVec<FieldOp>();
    root := FlattenBranch(hierarchy, out);
    nodes := out.nodes;
  }

  /** Follows the bits from the root of the array to an operation. */
  method WalkFlat(nodes: seq<FlatBranch<FieldOp>>, root: nat, ghost tree: Node<FieldOp>, br: BitReader)
    returns (found: Option<FieldOp>)
    requires Descending(nodes) && root < |nodes| && Represents(nodes, BranchAt(root), tree)
    modifies br
    ensures br.Did(found, Walk(tree, old(br.unread)))
    ensures |br.unread| <= old(|br.unread|)
  {
    var node: nat := root;
    ghost var start := br.unread;
    FlatWalkIsWalk(nodes, BranchAt(root), tree, start);
    hide FlatWalk, Walk, Represents;
    while true
      invariant |br.unread| <= |start| && node < |nodes|
      invariant FlatWalk(nodes, BranchAt(node), br.unread) == Walk(tree, start)
      decreases |br.unread|
    {
      FlatWalkStep(nodes, node, br.unread);
      var bit := br.ReadBool();
      if bit.None? { return None; }
      match if bit.value then nodes[node].right else nodes[node].left {
        case LeafOp(op) => return Some(op);
        case BranchAt(index) => node := index;
      }
    }
  }

  method ReadFieldPaths(nodes: seq<FlatBranch<FieldOp>>, root: nat, ghost tree: Node<FieldOp>, br: BitReader,
                        fps: array<Path>) returns (count: Option<nat>)
    requires Descending(nodes) && root < |nodes| && tree.Branch? && Represents(nodes, BranchAt(root), tree)
    modifies br, fps
    ensures |br.unread| <= old(|br.unread|)
    ensures match ReadPaths(tree, START, fps.Length, old(br.unread))
            case Ok(ps, rest) => count == Some(|ps|) && fps[..|ps|] == ps && br.unread == rest
            case Fail => count == None
  {
    count := None;
    var fp := new FieldPath();
    var i := 0;
    ghost var spec := ReadPaths(tree, START, fps.Length, br.unread);
    ContinuesStart(tree, fps.Length, br.unread);
    hide ReadPaths, ApplyAll, Edits, Walk, Continues, Represents, Descending;
    while true
      invariant |br.unread| <= old(|br.unread|)
      invariant fp.Valid() && fresh(fp) && fresh(fp.data) && !fp.finished
      invariant i <= fps.Length
      invariant Continues(tree, fp.View(), fps[..i], fps.Length, br.unread, spec)
      decreases |br.unread|
    {
      ghost var was, opStart := fp.View(), br.unread;
      ContinuesFails(tree, was, fps[..i], fps.Length, opStart, spec);
      var op := WalkFlat(nodes, root, tree, br);
      if op.None? { return; }
      WalkConsumes(tree, opStart);
      ContinuesNext(tree, was, fps[..i], fps.Length, opStart, spec, op.value, br.unread);
      var ok := fp.Run(op.value, br);
      if !ok { return; }
      if fp.finished {
        return Some(i);
      }
      if i == fps.Length { return; }
      ghost var before := fps[..i];
      fps[i] := fp.View();
      i := i + 1;
      assert fps[..i] == before + [fp.View()];
    }
  }

  lemma WalkConsumes(tree: Node<FieldOp>, b: BitString)
    requires tree.Branch?
    ensures Walk(tree, b).Ok? ==> |Walk(tree, b).rest| < |b|
  {
  }

  /** With `done` already stored and the path at `p`, reading on from `b` gives `spec`. */
  ghost predicate Continues(tree: Node<FieldOp>, p: Path, done: seq<Path>, room: nat, b: BitString,
      spec: Read<seq<Path>>)
    requires tree.Branch? && |done| <= room
  {
    match ReadPaths(tree, p, room - |done|, b)
    case Ok(ps, rest) => spec == Ok(done + ps, rest)
    case Fail => spec == Fail
  }

  lemma ContinuesStart(tree: Node<FieldOp>, room: nat, b: BitString)
    requires tree.Branch?
    ensures Continues(tree, START, [], room, b, ReadPaths(tree, START, room, b))
  {
    hide ReadPaths;
    match ReadPaths(tree, START, room, b)
    case Ok(ps, _) => assert [] + ps == ps;
    case Fail =>
  }

  lemma ContinuesFails(tree: Node<FieldOp>, p: Path, done: seq<Path>, room: nat, b: BitString, spec: Read<seq<Path>>)
    requires tree.Branch? && |done| <= room && Continues(tree, p, done, room, b, spec)
    ensures match Walk(tree, b)
            case Ok(op, b1) => ApplyAll(Edits(op), p, b1).Fail? ==> spec == Fail
            case Fail => spec == Fail
  {
  }

  lemma ReadPathsStep(tree: Node<FieldOp>, p: Path, room: nat, b: BitString, op: FieldOp, b1: BitString)
    requires tree.Branch? && Walk(tree, b) == Ok(op, b1)
    ensures var applied, all := ApplyAll(Edits(op), p, b1), ReadPaths(tree, p, room, b);
      && (applied.Fail? ==> all == Fail)
      && (applied.Ok? && op.FieldPathEncodeFinish? ==> all == Ok([], applied.rest))
      && (applied.Ok? && !op.FieldPathEncodeFinish? && room == 0 ==> all == Fail)
      && (applied.Ok? && !op.FieldPathEncodeFinish? && room > 0 ==>
            var more := ReadPaths(tree, applied.value, room - 1, applied.rest);
            all == if more.Ok? then Ok([applied.value] + more.value, more.rest) else Fail)
  {
    hide ApplyAll, Edits, Walk;
  }

  lemma ContinuesNext(tree: Node<FieldOp>, p: Path, done: seq<Path>, room: nat, b: BitString, spec: Read<seq<Path>>,
                      op: FieldOp, b1: BitString)
    requires tree.Branch? && |done| <= room && Continues(tree, p, done, room, b, spec)
    requires Walk(tree, b) == Ok(op, b1)
    ensures match ApplyAll(Edits(op), p, b1)
            case Ok(q, b2) =>
              if op.FieldPathEncodeFinish? then spec == Ok(done, b2)
              else if |done| == room then spec == Fail
              else Continues(tree, q, done + [q], room, b2, spec)
            case Fail => spec == Fail
  {
    hide ApplyAll, Edits, Walk, ReadPaths;
    ReadPathsStep(tree, p, room - |done|, b, op, b1);
    assert done + [] == done;
    match ApplyAll(Edits(op), p, b1)
    case Ok(q, b2) =>
      if !op.FieldPathEncodeFinish? && |done| < room {
        match ReadPaths(tree, q, room - |done| - 1, b2) {
          case Ok(ps, _) => assert done + ([q] + ps) == (done + [q]) + ps;
          case Fail =>
        }
      }
    case Fail =>
  }

  // ---- an encoding

  /** For each component from `i` on: unchanged, or the difference less `plus`. */
  function EncEach(i: nat, plus: int, p: Path, t: Path): BitString
    decreases 7 - i
  {
    if i > p.last then []
    else if p.data[i] == t.data[i] then [false] + EncEach(i + 1, plus, p, t)
    else [true] + EncVarint32(t.data[i] - p.data[i] - plus) + EncEach(i + 1, plus, p, t)
  }

  function EncPushes(i: nat, t: Path): BitString
    decreases 7 - i
  {
    if i > t.last then [] else EncUbitvarfp(t.data[i]) + EncPushes(i + 1, t)
  }

  function StepOp(p: Path, t: Path): FieldOp
  {
    if t.last <= p.last then PopNAndNonTopographical else PushNAndNonTopographical
  }

  function EncStep(p: Path, t: Path): BitString
  {
    if t.last <= p.last then
      EncUbitvarfp(p.last - t.last) + EncEach(0, 0, Cut(p, t.last), t)
    else
      EncEach(0, 1, p, Path(t.data, p.last)) + (EncUbitvar(t.last - p.last) + EncPushes(p.last + 1, t))
  }

  /** `p` with only the components up to `last`. */
  function Cut(p: Path, last: nat): Path
    requires last <= p.last
  {
    Path(p.data[..last + 1] + [0, 0, 0, 0, 0, 0, 0][..6 - last], last)
  }

  function OpCode(root: Node<FieldOp>, op: FieldOp): BitString
  {
    match Code(root, op)
    case Some(bits) => bits
    case None => []
  }

  function EncPaths(root: Node<FieldOp>, p: Path, ts: seq<Path>): BitString
    decreases |ts|
  {
    if ts == [] then OpCode(root, FieldPathEncodeFinish)
    else OpCode(root, StepOp(p, ts[0])) + (EncStep(p, ts[0]) + EncPaths(root, ts[0], ts[1..]))
  }

  lemma EachStep(i: nat, plus: int, p: Path, b: BitString, b1: BitString)
    requires i <= p.last
    ensures ReadBool(b) == Ok(false, b1) ==>
      IncEachFrom(i, Signed, plus, p, b) == IncEachFrom(i + 1, Signed, plus, p, b1)
    ensures ReadBool(b) == Ok(true, b1) && ReadVarint32(b1).Ok? ==>
      IncEachFrom(i, Signed, plus, p, b)
      == IncEachFrom(i + 1, Signed, plus, IncAt(p, i, ReadVarint32(b1).value + plus), ReadVarint32(b1).rest)
  {
    hide ReadVarint32, ReadBool, IncAt;
  }

  lemma EachEnd(i: nat, plus: int, p: Path, t: Path, b: BitString)
    requires i > p.last
    ensures EncEach(i, plus, p, t) == [] && IncEachFrom(i, Signed, plus, p, b) == Ok(p, b)
  {
  }

  /** The bits of component `i` and those of the later ones. */
  lemma EncEachStep(i: nat, plus: int, p: Path, t: Path, rest: BitString)
    requires i <= p.last
    ensures var later := EncEach(i + 1, plus, p, t) + rest;
      EncEach(i, plus, p, t) + rest ==
        if p.data[i] == t.data[i] then [false] + later
        else [true] + (EncVarint32(t.data[i] - p.data[i] - plus) + later)
  {
    hide EncVarint32;
  }

  lemma IncAtTo(p: Path, i: nat, c: Byte, v: int)
    requires i < 7 && p.data[i] + v == c
    ensures IncAt(p, i, v) == p.(data := p.data[i := c])
  {
  }

  lemma {:induction false} EachRoundTrip(i: nat, plus: int, p: Path, t: Path, rest: BitString)
    requires t.last == p.last && 0 <= plus <= 1
    requires forall j | 0 <= j < 7 && (j < i || j > p.last) :: p.data[j] == t.data[j]
    ensures IncEachFrom(i, Signed, plus, p, EncEach(i, plus, p, t) + rest) == Ok(t, rest)
    decreases 7 - i
  {
    hide EncVarint32, ReadVarint32, ReadAmount, ReadBool, IncEachFrom, EncEach, IncAt;
    if i > p.last {
      EachEnd(i, plus, p, t, rest);
      assert p.data == t.data;
      assert [] + rest == rest;
    } else {
      EncEachStep(i, plus, p, t, rest);
      var all, later := EncEach(i, plus, p, t) + rest, EncEach(i + 1, plus, p, t) + rest;
      if p.data[i] == t.data[i] {
        BoolRoundTrip(false, later);
        EachStep(i, plus, p, all, later);
        EachRoundTrip(i + 1, plus, p, t, rest);
      } else {
        var v := t.data[i] - p.data[i] - plus;
        IncAtTo(p, i, t.data[i], v + plus);
        var q := IncAt(p, i, v + plus);
        EncEachSame(i + 1, plus, p, q, t);
        BoolRoundTrip(true, EncVarint32(v) + later);
        Varint32RoundTrip(v, later);
        EachStep(i, plus, p, all, EncVarint32(v) + later);
        EachRoundTrip(i + 1, plus, q, t, rest);
      }
    }
  }

  /** The encoding from `i` on looks only at the components from `i` on. */
  lemma {:induction false} EncEachSame(i: nat, plus: int, p: Path, q: Path, t: Path)
    requires p.last == q.last && forall j | i <= j < 7 :: p.data[j] == q.data[j]
    ensures EncEach(i, plus, p, t) == EncEach(i, plus, q, t)
    decreases 7 - i
  {
    hide EncVarint32;
    if i <= p.last {
      EncEachSame(i + 1, plus, p, q, t);
    }
  }

  lemma {:induction false} PushesRoundTrip(p: Path, t: Path, rest: BitString)
    requires p.last <= t.last
    requires forall j | 0 <= j < 7 && (j <= p.last || j > t.last) :: p.data[j] == t.data[j]
    ensures PushTimes(t.last - p.last, p, EncPushes(p.last + 1, t) + rest) == Ok(t, rest)
    decreases t.last - p.last
  {
    hide ReadUbitvarfp, EncUbitvarfp;
    if p.last == t.last {
      assert p.data == t.data;
    } else {
      var i := p.last + 1;
      var q := Path(p.data[i := t.data[i]], i);
      var more := EncPushes(i + 1, t) + rest;
      assert EncPushes(i, t) + rest == EncUbitvarfp(t.data[i]) + more;
      UbitvarfpRoundTrip(t.data[i], more);
      PushesRoundTrip(q, t, rest);
    }
  }

  lemma {:induction false} PopManyCut(p: Path, n: nat)
    requires Clean(p) && n <= p.last
    ensures PopMany(p, n) == Some(Cut(p, p.last - n))
  {
    PopManyEffect(p, n);
    var q := PopMany(p, n).value;
    assert q.data == Cut(p, p.last - n).data by {
      forall j | 0 <= j < 7
        ensures q.data[j] == Cut(p, p.last - n).data[j]
      {
        if j <= q.last {
          assert q.data[j] == q.data[..q.last + 1][j] && p.data[j] == p.data[..q.last + 1][j];
        }
      }
    }
  }

  lemma {:induction false} StepRoundTrip(p: Path, t: Path, rest: BitString)
    requires Clean(p) && Clean(t)
    ensures ApplyAll(Edits(StepOp(p, t)), p, EncStep(p, t) + rest) == Ok(t, rest)
  {
    if t.last <= p.last {
      PopStep(p, t, rest);
    } else {
      PushStep(p, t, rest);
    }
  }

  lemma TwoEdits(e: Edit, f: Edit, p: Path, b: BitString, q: Path, b1: BitString, t: Path, b2: BitString)
    requires Apply(e, p, b) == Ok(q, b1) && Apply(f, q, b1) == Ok(t, b2)
    ensures ApplyAll([e, f], p, b) == Ok(t, b2)
  {
    assert [e, f][1..] == [f] && [f][1..] == [];
    assert ApplyAll([f], q, b1) == Ok(t, b2);
  }

  lemma ApplyPop(p: Path, b: BitString, n: nat, b1: BitString)
    requires ReadUbitvarfp(b) == Ok(n, b1) && PopMany(p, n).Some?
    ensures Apply(Pop(VarFp, 0), p, b) == Ok(PopMany(p, n).value, b1)
  {
    hide ReadUbitvarfp, PopMany;
  }

  lemma ApplyEach(plus: int, p: Path, b: BitString)
    ensures Apply(IncEach(Signed, plus), p, b) == IncEachFrom(0, Signed, plus, p, b)
  {
    hide IncEachFrom;
  }

  lemma ApplyPushes(p: Path, b: BitString, n: nat, b1: BitString)
    requires ReadUbitvar(b) == Ok(n, b1)
    ensures Apply(PushCounted(false), p, b) == PushTimes(n, p, b1)
  {
    hide ReadUbitvar, PushTimes;
  }

  lemma PopStep(p: Path, t: Path, rest: BitString)
    requires Clean(p) && Clean(t) && t.last <= p.last
    ensures ApplyAll(Edits(PopNAndNonTopographical), p, EncStep(p, t) + rest) == Ok(t, rest)
  {
    hide ReadUbitvarfp, EncUbitvarfp, IncEachFrom, EncEach, PopMany, Apply, ApplyAll;
    var q := Cut(p, t.last);
    var each := EncEach(0, 0, q, t) + rest;
    assert EncStep(p, t) + rest == EncUbitvarfp(p.last - t.last) + each;
    UbitvarfpRoundTrip(p.last - t.last, each);
    PopManyCut(p, p.last - t.last);
    ApplyPop(p, EncStep(p, t) + rest, p.last - t.last, each);
    EachRoundTrip(0, 0, q, t, rest);
    ApplyEach(0, q, each);
    TwoEdits(Pop(VarFp, 0), IncEach(Signed, 0), p, EncStep(p, t) + rest, q, each, t, rest);
  }

  lemma PushStep(p: Path, t: Path, rest: BitString)
    requires Clean(p) && Clean(t) && t.last > p.last
    ensures ApplyAll(Edits(PushNAndNonTopographical), p, EncStep(p, t) + rest) == Ok(t, rest)
  {
    hide ReadUbitvar, EncUbitvar, IncEachFrom, EncEach, PushTimes, EncPushes, Apply, ApplyAll;
    var n := t.last - p.last;
    var pushes := EncPushes(p.last + 1, t) + rest;
    var counted := EncUbitvar(n) + pushes;
    var q := Path(t.data[..p.last + 1] + p.data[p.last + 1..], p.last);
    assert EncEach(0, 1, p, Path(t.data, p.last)) == EncEach(0, 1, p, q) by {
      EncEachTarget(0, 1, p, Path(t.data, p.last), q);
    }
    assert EncStep(p, t) + rest == EncEach(0, 1, p, q) + counted;
    EachRoundTrip(0, 1, p, q, counted);
    ApplyEach(1, p, EncStep(p, t) + rest);
    UbitvarRoundTrip(n, pushes);
    PushesRoundTrip(q, t, rest);
    ApplyPushes(q, counted, n, pushes);
    TwoEdits(IncEach(Signed, 1), PushCounted(false), p, EncStep(p, t) + rest, q, counted, t, rest);
  }

  lemma {:induction false} EncEachTarget(i: nat, plus: int, p: Path, t: Path, u: Path)
    requires forall j | 0 <= j <= p.last :: t.data[j] == u.data[j]
    ensures EncEach(i, plus, p, t) == EncEach(i, plus, p, u)
    decreases 7 - i
  {
    if i <= p.last {
      EncEachTarget(i + 1, plus, p, t, u);
    }
  }

  /** The three operations used by the encoding have codes in the tree. */
  ghost predicate HasCodes(root: Node<FieldOp>)
  {
    && root.Branch?
    && Code(root, PopNAndNonTopographical).Some?
    && Code(root, PushNAndNonTopographical).Some?
    && Code(root, FieldPathEncodeFinish).Some?
  }

  lemma PathsFinish(root: Node<FieldOp>, p: Path, room: nat, b: BitString, rest: BitString)
    requires root.Branch? && Walk(root, b) == Ok(FieldPathEncodeFinish, rest)
    ensures ReadPaths(root, p, room, b) == Ok([], rest)
  {
  }

  lemma PathsNext(root: Node<FieldOp>, p: Path, room: nat, b: BitString, op: FieldOp, b1: BitString, t: Path,
      b2: BitString)
    requires root.Branch? && room > 0 && Walk(root, b) == Ok(op, b1) && !op.FieldPathEncodeFinish?
    requires ApplyAll(Edits(op), p, b1) == Ok(t, b2)
    ensures match ReadPaths(root, t, room - 1, b2)
            case Ok(ts, rest) => ReadPaths(root, p, room, b) == Ok([t] + ts, rest)
            case Fail => ReadPaths(root, p, room, b) == Fail
  {
    hide ApplyAll, Edits, Walk;
  }

  lemma {:induction false} PathsRoundTrip(root: Node<FieldOp>, p: Path, ts: seq<Path>, room: nat, rest: BitString)
    requires HasCodes(root) && Clean(p) && |ts| <= room && forall i | 0 <= i < |ts| :: Clean(ts[i])
    ensures ReadPaths(root, p, room, EncPaths(root, p, ts) + rest) == Ok(ts, rest)
    decreases |ts|
  {
    hide ReadPaths, ApplyAll, Edits, EncStep, Walk, Code;
    var all := EncPaths(root, p, ts) + rest;
    if ts == [] {
      CodeRoundTrip(root, FieldPathEncodeFinish, rest);
      PathsFinish(root, p, room, all, rest);
    } else {
      var t, op := ts[0], StepOp(p, ts[0]);
      var later := EncPaths(root, t, ts[1..]) + rest;
      var step := EncStep(p, t) + later;
      assert all == Code(root, op).value + step;
      CodeRoundTrip(root, op, step);
      StepRoundTrip(p, t, later);
      PathsRoundTrip(root, t, ts[1..], room - 1, rest);
      PathsNext(root, p, room, all, op, step, t, later);
      assert [t] + ts[1..] == ts;
    }
  }

  /** One to seven components as a path. */
  function OfComponents(components: Bytes): (p: Path)
    requires 1 <= |components| <= 7
    ensures Clean(p) && p.data[..p.last + 1] == components
  {
    Path(components + [0, 0, 0, 0, 0, 0][..7 - |components|], |components| - 1)
  }

  /** With any weights, and whatever else is described, as long as the three operations are:
      any list of paths that fits the buffer is read back exactly, and nothing beyond it is read. */
  lemma {:induction false} FieldPathsRoundTrip(descriptors: seq<(nat, FieldOp)>, i: nat, j: nat, k: nat,
                            paths: seq<Bytes>, ts: seq<Path>, room: nat, rest: BitString)
    requires |descriptors| >= 2 && i < |descriptors| && j < |descriptors| && k < |descriptors|
    requires descriptors[i].1 == PopNAndNonTopographical
    requires descriptors[j].1 == PushNAndNonTopographical
    requires descriptors[k].1 == FieldPathEncodeFinish
    requires |ts| == |paths| <= room
    requires forall n | 0 <= n < |paths| :: 1 <= |paths[n]| <= 7 && ts[n] == OfComponents(paths[n])
    ensures var root := HuffmanTree(descriptors);
      root.Branch? && ReadPaths(root, START, room, EncPaths(root, START, ts) + rest) == Ok(ts, rest)
  {
    HuffmanBranch(descriptors);
    HuffmanHolds(descriptors, i);
    HuffmanHolds(descriptors, j);
    HuffmanHolds(descriptors, k);
    assert forall n | 0 <= n < |ts| :: Clean(ts[n]);
    PathsRoundTrip(HuffmanTree(descriptors), START, ts, room, rest);
  }

  /** The table of the decoder describes those three operations. */
  lemma DescriptorsComplete()
    ensures |DESCRIPTORS| == 40
    ensures DESCRIPTORS[35].1 == PopNAndNonTopographical
    ensures DESCRIPTORS[26].1 == PushNAndNonTopographical
    ensures DESCRIPTORS[39].1 == FieldPathEncodeFinish
  {
  }
}
