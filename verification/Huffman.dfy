/** The tree of field operations: built by repeatedly merging the two topmost nodes of a heap.

    The specification keeps the nodes in a sorted list; `BuildHierarchy` keeps them in a heap about
    whose layout nothing is known, and is proved to build the same tree. */
module Huffman {
  import W = WeightedTrees

  datatype Node<T> =
    | Leaf(weight: nat, num: nat, value: T)
    | Branch(weight: nat, num: nat, left: Node<T>, right: Node<T>)

  /** The heap order: the lighter node is above, and of two equally heavy ones the younger. */
  predicate Above<T>(a: Node<T>, b: Node<T>)
  {
    if a.weight == b.weight then a.num > b.num else a.weight < b.weight
  }

  function Join<T>(left: Node<T>, right: Node<T>, num: nat): Node<T>
  {
    Branch(left.weight + right.weight, num, left, right)
  }

  datatype Forest<T> = Nil | Cons(head: Node<T>, tail: Forest<T>)

  function Size<T>(f: Forest<T>): nat
  {
    match f
    case Nil => 0
    case Cons(_, tail) => 1 + Size(tail)
  }

  function Insert<T>(x: Node<T>, f: Forest<T>): (r: Forest<T>)
    ensures Size(r) == Size(f) + 1 && r.Cons?
  {
    match f
    case Nil => Cons(x, Nil)
    case Cons(y, tail) => if Above(x, y) then Cons(x, f) else Cons(y, Insert(x, tail))
  }

  /** Merges the first two nodes until one is left; the new nodes are numbered from `num`. */
  function Merge<T>(f: Forest<T>, num: nat): Node<T>
    requires f.Cons?
    decreases Size(f)
  {
    match f.tail
    case Nil => f.head
    case Cons(second, rest) =>
      assert Size(f) == 2 + Size(rest);
      Merge(Insert(Join(f.head, second, num), rest), num + 1)
  }

  /** The described leaves in order, the first being numbered `first`. */
  function Leaves<T>(descriptors: seq<(nat, T)>, first: nat): (f: Forest<T>)
    ensures Size(f) == |descriptors|
    decreases |descriptors|
  {
    if descriptors == [] then Nil
    else Insert(Leaf(descriptors[0].0, first, descriptors[0].1), Leaves(descriptors[1..], first + 1))
  }

  function HuffmanTree<T>(descriptors: seq<(nat, T)>): Node<T>
    requires descriptors != []
  {
    Merge(Leaves(descriptors, 0), |descriptors|)
  }

  // ---- the heap and the sorted list hold the same nodes in the same order

  ghost function Elements<T>(f: Forest<T>): multiset<Node<T>>
  {
    match f
    case Nil => multiset{}
    case Cons(x, tail) => multiset{x} + Elements(tail)
  }

  /** Sorted, every node above all later ones. */
  predicate Sorted<T>(f: Forest<T>)
  {
    match f
    case Nil => true
    case Cons(x, tail) => AboveAll(x, tail) && Sorted(tail)
  }

  predicate AboveAll<T>(x: Node<T>, f: Forest<T>)
  {
    match f
    case Nil => true
    case Cons(y, tail) => Above(x, y) && AboveAll(x, tail)
  }

  predicate NumNotIn<T>(num: nat, f: Forest<T>)
  {
    match f
    case Nil => true
    case Cons(y, tail) => y.num != num && NumNotIn(num, tail)
  }

  /** Every number is in `low..high`. */
  predicate NumsWithin<T>(f: Forest<T>, low: nat, high: nat)
  {
    match f
    case Nil => true
    case Cons(y, tail) => low <= y.num < high && NumsWithin(tail, low, high)
  }

  lemma {:induction false} WithinNotIn<T>(f: Forest<T>, low: nat, high: nat, num: nat)
    requires NumsWithin(f, low, high) && !(low <= num < high)
    ensures NumNotIn(num, f)
  {
    match f
    case Nil =>
    case Cons(_, tail) => WithinNotIn(tail, low, high, num);
  }

  lemma {:induction false} InsertWithin<T>(x: Node<T>, f: Forest<T>, low: nat, high: nat, wider: nat)
    requires NumsWithin(f, low, high) && high <= wider && low <= x.num < wider
    ensures NumsWithin(Insert(x, f), low, wider) && NumsWithin(f, low, wider)
  {
    match f
    case Nil =>
    case Cons(_, tail) => InsertWithin(x, tail, low, high, wider);
  }

  lemma {:induction false} WithinLower<T>(f: Forest<T>, low: nat, lower: nat, high: nat)
    requires NumsWithin(f, low, high) && lower <= low
    ensures NumsWithin(f, lower, high)
  {
    match f
    case Nil =>
    case Cons(_, tail) => WithinLower(tail, low, lower, high);
  }

  lemma {:induction false} AboveAllTrans<T>(x: Node<T>, y: Node<T>, f: Forest<T>)
    requires Above(x, y) && AboveAll(y, f)
    ensures AboveAll(x, f)
  {
    match f
    case Nil =>
    case Cons(_, tail) => AboveAllTrans(x, y, tail);
  }

  lemma {:induction false} AboveAllInsert<T>(y: Node<T>, x: Node<T>, f: Forest<T>)
    requires Above(y, x) && AboveAll(y, f)
    ensures AboveAll(y, Insert(x, f))
  {
    match f
    case Nil =>
    case Cons(_, tail) => AboveAllInsert(y, x, tail);
  }

  lemma {:induction false} InsertSorted<T>(x: Node<T>, f: Forest<T>)
    requires Sorted(f) && NumNotIn(x.num, f)
    ensures Sorted(Insert(x, f))
  {
    match f
    case Nil =>
    case Cons(y, tail) =>
      if Above(x, y) {
        AboveAllTrans(x, y, tail);
      } else {
        InsertSorted(x, tail);
        AboveAllInsert(y, x, tail);
      }
  }

  lemma {:induction false} InsertElements<T>(x: Node<T>, f: Forest<T>)
    ensures Elements(Insert(x, f)) == Elements(f) + multiset{x}
  {
    match f
    case Nil =>
    case Cons(y, tail) =>
      InsertElements(x, tail);
  }

  lemma {:induction false} HeadAboveAll<T>(x: Node<T>, f: Forest<T>, y: Node<T>)
    requires AboveAll(x, f) && y in Elements(f)
    ensures Above(x, y)
  {
    if y != f.head {
      HeadAboveAll(x, f.tail, y);
    }
  }

  lemma {:induction false} LeavesSorted<T>(descriptors: seq<(nat, T)>, first: nat)
    ensures Sorted(Leaves(descriptors, first))
    ensures NumsWithin(Leaves(descriptors, first), first, first + |descriptors|)
    decreases |descriptors|
  {
    if descriptors != [] {
      var rest := Leaves(descriptors[1..], first + 1);
      var leaf := Leaf(descriptors[0].0, first, descriptors[0].1);
      LeavesSorted(descriptors[1..], first + 1);
      WithinNotIn(rest, first + 1, first + |descriptors|, first);
      InsertSorted(leaf, rest);
      WithinLower(rest, first + 1, first, first + |descriptors|);
      InsertWithin(leaf, rest, first, first + |descriptors|, first + |descriptors|);
    }
  }

  predicate NoneAbove<T>(s: seq<Node<T>>, top: Node<T>)
  {
    forall i | 0 <= i < |s| :: !Above(s[i], top)
  }

  lemma WithoutAt<T>(s: seq<Node<T>>, i: nat)
    requires i < |s|
    ensures s[i] in multiset(s) && multiset(s[..i] + s[i + 1..]) == multiset(s) - multiset{s[i]}
  {
    assert s == s[..i] + ([s[i]] + s[i + 1..]);
  }

  /** A max-heap.  Nothing is promised about the order of `items`. */
  class BinaryHeap<T> {
    var items: seq<Node<T>>

    constructor ()
      ensures items == []
    {
      items := [];
    }

    method Push(node: Node<T>)
      modifies this
      ensures multiset(items) == old(multiset(items)) + multiset{node}
    {
      items := [node] + items;
    }

    method Pop() returns (top: Node<T>)
      requires items != []
      modifies this
      ensures top in multiset(old(items)) && NoneAbove(old(items), top)
      ensures multiset(items) == old(multiset(items)) - multiset{top}
    {
      var best := 0;
      for i := 1 to |items|
        invariant best < |items| && NoneAbove(items[..i], items[best])
      {
        if Above(items[i], items[best]) {
          best := i;
        }
      }
      assert items[..|items|] == items;
      top := items[best];
      WithoutAt(items, best);
      items := items[..best] + items[best + 1..];
    }
  }

  /** Whatever the layout, the popped node is the head of the sorted list. */
  lemma PoppedIsHead<T>(items: seq<Node<T>>, f: Forest<T>, top: Node<T>)
    requires f.Cons? && Sorted(f) && multiset(items) == Elements(f)
    requires top in multiset(items) && NoneAbove(items, top)
    ensures top == f.head && multiset(items) - multiset{top} == Elements(f.tail)
  {
    assert f.head in multiset(items);
    assert f.head in items;
    if top in Elements(f.tail) {
      HeadAboveAll(f.head, f.tail, top);
    }
  }

  lemma SizeIsCount<T>(f: Forest<T>)
    ensures |Elements(f)| == Size(f)
  {
  }

  method BuildHierarchy<T>(descriptors: seq<(nat, T)>) returns (root: Node<T>)
    requires descriptors != []
    ensures root == HuffmanTree(descriptors)
  {
    var heap := new BinaryHeap<T>();
    var num := 0;
    assert descriptors[..0] == [];
    while num < |descriptors|
      invariant num <= |descriptors|
      invariant multiset(heap.items) + Elements(Leaves(descriptors[num..], num)) == Elements(Leaves(descriptors, 0))
      invariant fresh(heap)
    {
      ghost var rest := descriptors[num..];
      assert rest[1..] == descriptors[num + 1..];
      var leaf := Leaf(descriptors[num].0, num, descriptors[num].1);
      InsertElements(leaf, Leaves(rest[1..], num + 1));
      heap.Push(leaf);
      num := num + 1;
    }
    LeavesSorted(descriptors, 0);
    root := MergeHeap(heap, num, Leaves(descriptors, 0));
  }

  /** The heap holds the nodes of a list that is sorted and numbered below `num`. */
  ghost predicate Holds<T>(items: seq<Node<T>>, f: Forest<T>, num: nat)
  {
    Sorted(f) && NumsWithin(f, 0, num) && multiset(items) == Elements(f)
  }

  lemma HoldsSize<T>(items: seq<Node<T>>, f: Forest<T>, num: nat)
    requires Holds(items, f, num)
    ensures |items| == Size(f)
  {
    SizeIsCount(f);
    assert |multiset(items)| == |items|;
  }

  method PopHead<T>(heap: BinaryHeap<T>, num: nat, ghost f: Forest<T>) returns (top: Node<T>)
    requires Holds(heap.items, f, num) && f.Cons?
    modifies heap
    ensures top == f.head && Holds(heap.items, f.tail, num)
  {
    HoldsSize(heap.items, f, num);
    top := heap.Pop();
    PoppedIsHead(old(heap.items), f, top);
  }

  method PushNew<T>(heap: BinaryHeap<T>, num: nat, node: Node<T>, ghost f: Forest<T>)
    requires Holds(heap.items, f, num) && node.num == num
    modifies heap
    ensures Holds(heap.items, Insert(node, f), num + 1)
  {
    heap.Push(node);
    WithinNotIn(f, 0, num, num);
    InsertSorted(node, f);
    InsertElements(node, f);
    InsertWithin(node, f, 0, num, num + 1);
  }

  /** What the next turn of the loop makes of the list. */
  ghost predicate MergesTo<T>(f: Forest<T>, num: nat)
    requires f.Cons?
  {
    if Size(f) <= 1 then Merge(f, num) == f.head
    else
      && f.tail.Cons? && Size(f) == 2 + Size(f.tail.tail)
      && Merge(f, num) == Merge(Insert(Join(f.head, f.tail.head, num), f.tail.tail), num + 1)
  }

  lemma MergeStep<T>(f: Forest<T>, num: nat)
    requires f.Cons?
    ensures MergesTo(f, num)
  {
    assert Size(f) == 1 + Size(f.tail);
    if f.tail.Cons? {
      assert Size(f.tail) == 1 + Size(f.tail.tail);
    }
  }

  /** The merging loop, on a heap that holds the nodes of `f`. */
  method MergeHeap<T>(heap: BinaryHeap<T>, first: nat, ghost f: Forest<T>) returns (root: Node<T>)
    requires f.Cons? && Holds(heap.items, f, first)
    modifies heap
    ensures root == Merge(f, first)
  {
    var num := first;
    ghost var g := f;
    hide Holds, Insert, Size, Merge;
    HoldsSize(heap.items, g, num);
    MergeStep(g, num);
    while |heap.items| > 1
      invariant g.Cons? && Holds(heap.items, g, num) && |heap.items| == Size(g)
      invariant Merge(g, num) == Merge(f, first) && MergesTo(g, num)
      decreases |heap.items|
    {
      var left := PopHead(heap, num, g);
      var right := PopHead(heap, num, g.tail);
      PushNew(heap, num, Join(left, right, num), g.tail.tail);
      g := Insert(Join(left, right, num), g.tail.tail);
      num := num + 1;
      HoldsSize(heap.items, g, num);
      MergeStep(g, num);
    }
    root := PopHead(heap, num, g);
  }

  // ---- optimality

  function Shape<T>(node: Node<T>): W.Tree
  {
    match node
    case Leaf(w, _, _) => W.Tip(w)
    case Branch(_, _, l, r) => W.Fork(Shape(l), Shape(r))
  }

  /** How many nodes weigh `w`. */
  function CountNodes<T>(f: Forest<T>, w: nat): nat
  {
    match f
    case Nil => 0
    case Cons(x, tail) => W.One(x.weight == w) + CountNodes(tail, w)
  }

  /** How many leaves below the nodes weigh `w`. */
  function CountTips<T>(f: Forest<T>, w: nat): nat
  {
    match f
    case Nil => 0
    case Cons(x, tail) => W.Count(Shape(x), w) + CountTips(tail, w)
  }

  ghost function Costs<T>(f: Forest<T>): nat
  {
    match f
    case Nil => 0
    case Cons(x, tail) => W.Cost(Shape(x)) + Costs(tail)
  }

  /** Every node weighs as much as the leaves below it. */
  ghost predicate Weighed<T>(f: Forest<T>)
  {
    match f
    case Nil => true
    case Cons(x, tail) => x.weight == W.Total(Shape(x)) && Weighed(tail)
  }

  lemma {:induction false} InsertCounts<T>(x: Node<T>, f: Forest<T>, w: nat)
    ensures CountNodes(Insert(x, f), w) == CountNodes(f, w) + W.One(x.weight == w)
    ensures CountTips(Insert(x, f), w) == CountTips(f, w) + W.Count(Shape(x), w)
  {
    match f
    case Nil =>
    case Cons(_, tail) => InsertCounts(x, tail, w);
  }

  lemma {:induction false} InsertCosts<T>(x: Node<T>, f: Forest<T>)
    requires Weighed(f) && x.weight == W.Total(Shape(x))
    ensures Weighed(Insert(x, f)) && Costs(Insert(x, f)) == Costs(f) + W.Cost(Shape(x))
  {
    match f
    case Nil =>
    case Cons(_, tail) => InsertCosts(x, tail);
  }

  lemma {:induction false} HeadLightest<T>(x: Node<T>, f: Forest<T>, w: nat)
    requires AboveAll(x, f) && CountNodes(f, w) > 0
    ensures x.weight <= w
  {
    if w != f.head.weight {
      HeadLightest(x, f.tail, w);
    }
  }

  lemma FirstTwoLightest<T>(x: Node<T>, y: Node<T>, rest: Forest<T>, t: W.Tree)
    requires Sorted(Cons(x, Cons(y, rest)))
    requires forall w :: W.Count(t, w) == W.One(x.weight == w) + W.One(y.weight == w) + CountNodes(rest, w)
    ensures W.TwoLightest(x.weight, y.weight, t)
  {
    forall w | CountNodes(rest, w) > 0
      ensures x.weight <= y.weight <= w
    {
      HeadLightest(y, rest, w);
    }
  }

  /** Counting the nodes of the forest as tips, no tree over their weights is cheaper. */
  lemma {:induction false} MergeOptimal<T>(f: Forest<T>, num: nat, t: W.Tree)
    requires f.Cons? && Sorted(f) && NumsWithin(f, 0, num) && Weighed(f)
    requires forall w :: W.Count(t, w) == CountNodes(f, w)
    ensures W.Cost(Shape(Merge(f, num))) <= W.Cost(t) + Costs(f)
    decreases Size(f)
  {
    if f.tail.Cons? {
      var x, y, rest := f.head, f.tail.head, f.tail.tail;
      var z := Join(x, y, num);
      assert f == Cons(x, Cons(y, rest)) && Size(f) == 2 + Size(rest);
      forall w
        ensures W.Count(t, w) == W.One(x.weight == w) + W.One(y.weight == w) + CountNodes(rest, w)
      {
        assert CountNodes(f, w) == W.One(x.weight == w) + CountNodes(f.tail, w);
      }
      FirstTwoLightest(x, y, rest, t);
      var u := W.Exchange(t, x.weight, y.weight);
      forall w
        ensures W.Count(u, w) == CountNodes(Insert(z, rest), w)
      {
        InsertCounts(z, rest, w);
      }
      InsertCosts(z, rest);
      WithinNotIn(rest, 0, num, num);
      InsertSorted(z, rest);
      InsertWithin(z, rest, 0, num, num + 1);
      MergeOptimal(Insert(z, rest), num + 1, u);
    }
  }

  lemma {:induction false} MergeTips<T>(f: Forest<T>, num: nat, w: nat)
    requires f.Cons?
    ensures W.Count(Shape(Merge(f, num)), w) == CountTips(f, w)
    decreases Size(f)
  {
    if f.tail.Cons? {
      var z, rest := Join(f.head, f.tail.head, num), f.tail.tail;
      assert Size(f) == 2 + Size(rest);
      InsertCounts(z, rest, w);
      MergeTips(Insert(z, rest), num + 1, w);
    }
  }

  /** How many of the descriptors carry the weight `w`. */
  function CountDescribed<T>(descriptors: seq<(nat, T)>, w: nat): nat
    decreases |descriptors|
  {
    if descriptors == [] then 0 else W.One(descriptors[0].0 == w) + CountDescribed(descriptors[1..], w)
  }

  lemma {:induction false} LeavesCounts<T>(descriptors: seq<(nat, T)>, first: nat, w: nat)
    ensures CountNodes(Leaves(descriptors, first), w) == CountDescribed(descriptors, w)
    ensures CountTips(Leaves(descriptors, first), w) == CountDescribed(descriptors, w)
    decreases |descriptors|
  {
    if descriptors != [] {
      var leaf, rest := Leaf(descriptors[0].0, first, descriptors[0].1), Leaves(descriptors[1..], first + 1);
      LeavesCounts(descriptors[1..], first + 1, w);
      InsertCounts(leaf, rest, w);
    }
  }

  lemma {:induction false} LeavesCosts<T>(descriptors: seq<(nat, T)>, first: nat)
    ensures Weighed(Leaves(descriptors, first)) && Costs(Leaves(descriptors, first)) == 0
    decreases |descriptors|
  {
    if descriptors != [] {
      var leaf, rest := Leaf(descriptors[0].0, first, descriptors[0].1), Leaves(descriptors[1..], first + 1);
      LeavesCosts(descriptors[1..], first + 1);
      InsertCosts(leaf, rest);
    }
  }

  /** The built tree has a leaf of each described weight, and no tree with leaves of these weights
      has a smaller sum of weight times depth. */
  lemma HierarchyOptimal<T>(descriptors: seq<(nat, T)>, t: W.Tree)
    requires descriptors != []
    requires forall w :: W.Count(t, w) == CountDescribed(descriptors, w)
    ensures forall w :: W.Count(Shape(HuffmanTree(descriptors)), w) == CountDescribed(descriptors, w)
    ensures W.WeightedDepth(Shape(HuffmanTree(descriptors)), 0) <= W.WeightedDepth(t, 0)
  {
    var f, n := Leaves(descriptors, 0), |descriptors|;
    LeavesSorted(descriptors, 0);
    LeavesCosts(descriptors, 0);
    forall w
      ensures CountNodes(f, w) == CountDescribed(descriptors, w)
      ensures W.Count(Shape(Merge(f, n)), w) == CountDescribed(descriptors, w)
    {
      LeavesCounts(descriptors, 0, w);
      MergeTips(f, n, w);
    }
    MergeOptimal(f, n, t);
    W.CostIsWeightedDepth(t, 0);
    W.CostIsWeightedDepth(Shape(Merge(f, n)), 0);
  }
}
