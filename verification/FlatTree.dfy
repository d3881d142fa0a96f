/** The tree of operations flattened into an array, and walking either form bit by bit. */
module FlatTrees {
  import opened Prelude
  import opened Bits
  import opened Huffman

  datatype FlatChild<T> = LeafOp(op: T) | BranchAt(index: nat)

  datatype FlatBranch<T> = FlatBranch(left: FlatChild<T>, right: FlatChild<T>)

  /** Follows one bit per branch, left on false. */
  function Walk<T>(node: Node<T>, b: BitString): (r: Read<T>)
    ensures r.Ok? ==> |r.rest| <= |b|
    ensures r.Ok? && node.Branch? ==> |r.rest| < |b|
  {
    match node
    case Leaf(_, _, v) => Ok(v, b)
    case Branch(_, _, l, r) =>
      var (bit, b1) :- ReadBool(b);
      Walk(if bit then r else l, b1)
  }

  /** `child` stands for `node` in the array. */
  ghost predicate Represents<T>(nodes: seq<FlatBranch<T>>, child: FlatChild<T>, node: Node<T>)
    decreases node
  {
    match node
    case Leaf(_, _, v) => child == LeafOp(v)
    case Branch(_, _, l, r) =>
      && child.BranchAt? && child.index < |nodes|
      && Represents(nodes, nodes[child.index].left, l)
      && Represents(nodes, nodes[child.index].right, r)
  }

  predicate Below<T>(child: FlatChild<T>, index: nat)
  {
    child.BranchAt? ==> child.index < index
  }

  /** Every branch refers only to branches strictly before it. */
  predicate Descending<T>(nodes: seq<FlatBranch<T>>)
  {
    forall i | 0 <= i < |nodes| :: Below(nodes[i].left, i) && Below(nodes[i].right, i)
  }

  function FlatWalk<T>(nodes: seq<FlatBranch<T>>, child: FlatChild<T>, b: BitString): (r: Read<T>)
    requires Descending(nodes) && Below(child, |nodes|)
    ensures r.Ok? ==> |r.rest| <= |b|
    decreases if child.LeafOp? then 0 else child.index + 1
  {
    match child
    case LeafOp(op) => Ok(op, b)
    case BranchAt(i) =>
      var (bit, b1) :- ReadBool(b);
      FlatWalk(nodes, if bit then nodes[i].right else nodes[i].left, b1)
  }

  lemma FlatWalkStep<T>(nodes: seq<FlatBranch<T>>, i: nat, b: BitString)
    requires Descending(nodes) && i < |nodes|
    ensures match ReadBool(b)
            case Ok(bit, b1) =>
              var child := if bit then nodes[i].right else nodes[i].left;
              && Below(child, |nodes|)
              && (child.LeafOp? ==> FlatWalk(nodes, BranchAt(i), b) == Ok(child.op, b1))
              && (child.BranchAt? ==> FlatWalk(nodes, BranchAt(i), b) == FlatWalk(nodes, child, b1))
            case Fail => FlatWalk(nodes, BranchAt(i), b) == Fail
  {
  }

  lemma {:induction false} FlatWalkIsWalk<T>(nodes: seq<FlatBranch<T>>, child: FlatChild<T>, node: Node<T>,
      b: BitString)
    requires Descending(nodes) && Below(child, |nodes|) && Represents(nodes, child, node)
    ensures FlatWalk(nodes, child, b) == Walk(node, b)
    decreases node
  {
    match node
    case Leaf(_, _, _) =>
    case Branch(_, _, l, r) =>
      if b != [] {
        FlatWalkIsWalk(nodes, nodes[child.index].left, l, b[1..]);
        FlatWalkIsWalk(nodes, nodes[child.index].right, r, b[1..]);
      }
  }

  /** An operation costs no more bits than there are branches. */
  lemma {:induction false} FlatWalkCost<T>(nodes: seq<FlatBranch<T>>, child: FlatChild<T>, b: BitString)
    requires Descending(nodes) && Below(child, |nodes|)
    ensures FlatWalk(nodes, child, b).Ok? ==>
      |b| - |FlatWalk(nodes, child, b).rest| <= if child.LeafOp? then 0 else child.index + 1
    decreases if child.LeafOp? then 0 else child.index + 1
  {
    if child.BranchAt? && b != [] {
      FlatWalkCost(nodes, if b[0] then nodes[child.index].right else nodes[child.index].left, b[1..]);
    }
  }

  // ---- flattening

  function Branches<T>(node: Node<T>): nat
  {
    match node
    case Leaf(_, _, _) => 0
    case Branch(_, _, l, r) => Branches(l) + Branches(r) + 1
  }

  lemma {:induction false} RepresentsMore<T>(nodes: seq<FlatBranch<T>>, more: seq<FlatBranch<T>>, child: FlatChild<T>,
      node: Node<T>)
    requires Represents(nodes, child, node) && nodes <= more
    ensures Represents(more, child, node)
    decreases node
  {
    match node
    case Leaf(_, _, _) =>
    case Branch(_, _, l, r) =>
      assert more[child.index] == nodes[child.index];
      RepresentsMore(nodes, more, nodes[child.index].left, l);
      RepresentsMore(nodes, more, nodes[child.index].right, r);
  }

  class NodeVec<T> {
    var nodes: seq<FlatBranch<T>>

    constructor ()
      ensures nodes == []
    {
      nodes := [];
    }

    method Push(branch: FlatBranch<T>)
      modifies this
      ensures nodes == old(nodes) + [branch]
    {
      nodes := nodes + [branch];
    }
  }

  method FlattenChild<T>(node: Node<T>, out: NodeVec<T>) returns (child: FlatChild<T>)
    requires Descending(out.nodes)
    modifies out
    ensures old(out.nodes) <= out.nodes && |out.nodes| == old(|out.nodes|) + Branches(node)
    ensures Descending(out.nodes) && Below(child, |out.nodes|) && Represents(out.nodes, child, node)
    decreases node, 1
  {
    match node
    case Leaf(_, _, v) => child := LeafOp(v);
    case Branch(_, _, _, _) =>
      var index := FlattenBranch(node, out);
      child := BranchAt(index);
  }

  method FlattenBranch<T>(node: Node<T>, out: NodeVec<T>) returns (index: nat)
    requires node.Branch? && Descending(out.nodes)
    modifies out
    ensures old(out.nodes) <= out.nodes && |out.nodes| == old(|out.nodes|) + Branches(node)
    ensures Descending(out.nodes) && index == |out.nodes| - 1 && Represents(out.nodes, BranchAt(index), node)
    decreases node, 0
  {
    var left := FlattenChild(node.left, out);
    ghost var mid := out.nodes;
    var right := FlattenChild(node.right, out);
    ghost var all := out.nodes;
    index := |out.nodes|;
    out.Push(FlatBranch(left, right));
    RepresentsMore(mid, out.nodes, left, node.left);
    RepresentsMore(all, out.nodes, right, node.right);
  }

  // ---- the code of an operation: the bits that lead to its leaf

  function Code<T(==)>(node: Node<T>, v: T): (r: Option<BitString>)
  {
    match node
    case Leaf(_, _, x) => if x == v then Some([]) else None
    case Branch(_, _, l, r) =>
      match Code(l, v)
      case Some(bits) => Some([false] + bits)
      case None =>
        match Code(r, v)
        case Some(bits) => Some([true] + bits)
        case None => None
  }

  lemma {:induction false} CodeRoundTrip<T>(node: Node<T>, v: T, rest: BitString)
    requires Code(node, v).Some?
    ensures Walk(node, Code(node, v).value + rest) == Ok(v, rest)
  {
    var bits := Code(node, v).value;
    match node
    case Leaf(_, _, _) =>
      assert bits + rest == rest;
    case Branch(_, _, l, r) =>
      var child := if Code(l, v).Some? then l else r;
      CodeRoundTrip(child, v, rest);
      assert (bits + rest)[1..] == Code(child, v).value + rest;
  }

  predicate Holds<T(==)>(f: Forest<T>, v: T)
  {
    match f
    case Nil => false
    case Cons(x, tail) => Code(x, v).Some? || Holds(tail, v)
  }

  lemma {:induction false} InsertHolds<T>(x: Node<T>, f: Forest<T>, v: T)
    ensures Holds(Insert(x, f), v) == (Code(x, v).Some? || Holds(f, v))
  {
    match f
    case Nil =>
    case Cons(_, tail) => InsertHolds(x, tail, v);
  }

  lemma {:induction false} MergeHolds<T>(f: Forest<T>, num: nat, v: T)
    requires f.Cons?
    ensures Code(Merge(f, num), v).Some? == Holds(f, v)
    decreases Size(f)
  {
    if f.tail.Cons? {
      var x, y, rest := f.head, f.tail.head, f.tail.tail;
      var z := Join(x, y, num);
      assert f == Cons(x, Cons(y, rest)) && Size(f) == 2 + Size(rest);
      InsertHolds(z, rest, v);
      MergeHolds(Insert(z, rest), num + 1, v);
    }
  }

  lemma {:induction false} LeavesHold<T>(descriptors: seq<(nat, T)>, first: nat, i: nat)
    requires i < |descriptors|
    ensures Holds(Leaves(descriptors, first), descriptors[i].1)
    decreases |descriptors|
  {
    var leaf, rest := Leaf(descriptors[0].0, first, descriptors[0].1), Leaves(descriptors[1..], first + 1);
    InsertHolds(leaf, rest, descriptors[i].1);
    if i > 0 {
      LeavesHold(descriptors[1..], first + 1, i - 1);
    }
  }

  /** Every described operation has a code. */
  lemma HuffmanHolds<T>(descriptors: seq<(nat, T)>, i: nat)
    requires i < |descriptors|
    ensures Code(HuffmanTree(descriptors), descriptors[i].1).Some?
  {
    LeavesHold(descriptors, 0, i);
    MergeHolds(Leaves(descriptors, 0), |descriptors|, descriptors[i].1);
  }

  lemma {:induction false} MergeBranch<T>(f: Forest<T>, num: nat)
    requires f.Cons? && f.tail.Cons?
    ensures Merge(f, num).Branch?
    decreases Size(f)
  {
    var z, rest := Join(f.head, f.tail.head, num), f.tail.tail;
    assert Size(f) == 2 + Size(rest);
    var g := Insert(z, rest);
    if g.tail.Cons? {
      MergeBranch(g, num + 1);
    } else {
      assert Size(g) == 1 + Size(g.tail) == 1;
      assert rest == Nil;
    }
  }

  lemma HuffmanBranch<T>(descriptors: seq<(nat, T)>)
    requires |descriptors| >= 2
    ensures HuffmanTree(descriptors).Branch?
  {
    var f := Leaves(descriptors, 0);
    assert Size(f) == 1 + Size(f.tail);
    MergeBranch(f, |descriptors|);
  }
}
