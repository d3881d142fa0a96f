/** Weighted binary trees: what it means to be cheapest, and the exchange argument behind it. */
module WeightedTrees {

  datatype Tree = Tip(weight: nat) | Fork(left: Tree, right: Tree)

  function One(b: bool): nat { if b then 1 else 0 }

  /** How many tips weigh `w`. */
  function Count(t: Tree, w: nat): nat
  {
    match t
    case Tip(x) => One(x == w)
    case Fork(l, r) => Count(l, w) + Count(r, w)
  }

  function Total(t: Tree): nat
  {
    match t
    case Tip(w) => w
    case Fork(l, r) => Total(l) + Total(r)
  }

  /** The sum over the tips of weight times depth, the root being at depth `depth`. */
  function WeightedDepth(t: Tree, depth: nat): nat
  {
    match t
    case Tip(w) => w * depth
    case Fork(l, r) => WeightedDepth(l, depth + 1) + WeightedDepth(r, depth + 1)
  }

  /** The same sum for a root at depth 0, counted fork by fork. */
  function Cost(t: Tree): nat
  {
    match t
    case Tip(_) => 0
    case Fork(l, r) => Cost(l) + Cost(r) + Total(l) + Total(r)
  }

  lemma {:induction false} CostIsWeightedDepth(t: Tree, depth: nat)
    ensures WeightedDepth(t, depth) == Cost(t) + depth * Total(t)
  {
    match t
    case Tip(w) =>
    case Fork(l, r) =>
      CostIsWeightedDepth(l, depth + 1);
      CostIsWeightedDepth(r, depth + 1);
      assert (depth + 1) * Total(l) + (depth + 1) * Total(r) == Total(l) + Total(r) + depth * (Total(l) + Total(r));
  }

  // ---- paths: false is left, true is right

  type Path = seq<bool>

  predicate IsTip(t: Tree, p: Path)
  {
    match t
    case Tip(_) => p == []
    case Fork(l, r) => p != [] && IsTip(if p[0] then r else l, p[1..])
  }

  function TipAt(t: Tree, p: Path): nat
    requires IsTip(t, p)
  {
    match t
    case Tip(w) => w
    case Fork(l, r) => TipAt(if p[0] then r else l, p[1..])
  }

  function SetTip(t: Tree, p: Path, w: nat): Tree
    requires IsTip(t, p)
  {
    match t
    case Tip(_) => Tip(w)
    case Fork(l, r) => if p[0] then Fork(l, SetTip(r, p[1..], w)) else Fork(SetTip(l, p[1..], w), r)
  }

  lemma {:induction false} SetTipCount(t: Tree, p: Path, w: nat, x: nat)
    requires IsTip(t, p)
    ensures Count(SetTip(t, p, w), x) + One(TipAt(t, p) == x) == Count(t, x) + One(w == x)
  {
    match t
    case Tip(_) =>
    case Fork(l, r) => SetTipCount(if p[0] then r else l, p[1..], w, x);
  }

  lemma {:induction false} SetTipCost(t: Tree, p: Path, w: nat)
    requires IsTip(t, p)
    ensures Total(SetTip(t, p, w)) == Total(t) + w - TipAt(t, p)
    ensures Cost(SetTip(t, p, w)) == Cost(t) + Times(|p|, w - TipAt(t, p))
  {
    match t
    case Tip(_) =>
    case Fork(l, r) => SetTipCost(if p[0] then r else l, p[1..], w);
  }

  /** `n * d`, by repeated addition. */
  function Times(n: nat, d: int): int
  {
    if n == 0 then 0 else Times(n - 1, d) + d
  }

  lemma {:induction false} TimesTradeoff(m: nat, n: nat, d: int)
    requires m <= n && d >= 0
    ensures Times(m, d) + Times(n, -d) <= 0
  {
    if m > 0 {
      TimesTradeoff(m - 1, n - 1, d);
    } else if n > 0 {
      TimesTradeoff(0, n - 1, d);
    }
  }

  lemma {:induction false} SetTipKeeps(t: Tree, p: Path, w: nat, q: Path)
    requires IsTip(t, p)
    ensures IsTip(SetTip(t, p, w), q) == IsTip(t, q)
    ensures IsTip(t, q) ==> TipAt(SetTip(t, p, w), q) == if p == q then w else TipAt(t, q)
  {
    match t
    case Tip(_) =>
    case Fork(l, r) =>
      if q != [] && q[0] == p[0] {
        SetTipKeeps(if p[0] then r else l, p[1..], w, q[1..]);
        assert p == q <==> p[1..] == q[1..] by {
          assert p == [p[0]] + p[1..] && q == [q[0]] + q[1..];
        }
      }
  }

  function Swap(t: Tree, p: Path, q: Path): Tree
    requires IsTip(t, p) && IsTip(t, q)
  {
    SetTipKeeps(t, p, TipAt(t, q), q);
    SetTip(SetTip(t, p, TipAt(t, q)), q, TipAt(t, p))
  }

  /** Moving a lighter tip at least as deep never costs more. */
  lemma SwapCost(t: Tree, p: Path, q: Path)
    requires IsTip(t, p) && IsTip(t, q)
    requires TipAt(t, p) <= TipAt(t, q) && |p| <= |q|
    ensures Cost(Swap(t, p, q)) <= Cost(t)
  {
    var wp, wq := TipAt(t, p), TipAt(t, q);
    SetTipKeeps(t, p, wq, q);
    SetTwiceCost(t, p, wq, q, wp);
    TimesTradeoff(|p|, |q|, wq - wp);
    if p == q {
      TimesTradeoff(|p|, |p|, 0);
    }
  }

  lemma SetTwiceCost(t: Tree, p: Path, v: nat, q: Path, w: nat)
    requires IsTip(t, p) && IsTip(SetTip(t, p, v), q)
    ensures Cost(SetTip(SetTip(t, p, v), q, w))
         == Cost(t) + Times(|p|, v - TipAt(t, p)) + Times(|q|, w - TipAt(SetTip(t, p, v), q))
  {
    SetTipCost(t, p, v);
    SetTipCost(SetTip(t, p, v), q, w);
  }

  lemma SwapCount(t: Tree, p: Path, q: Path, x: nat)
    requires IsTip(t, p) && IsTip(t, q)
    ensures Count(Swap(t, p, q), x) == Count(t, x)
  {
    var u := SetTip(t, p, TipAt(t, q));
    SetTipKeeps(t, p, TipAt(t, q), q);
    SetTipCount(t, p, TipAt(t, q), x);
    SetTipCount(u, q, TipAt(t, p), x);
  }

  lemma SwapKeeps(t: Tree, p: Path, q: Path, r: Path)
    requires IsTip(t, p) && IsTip(t, q)
    ensures IsTip(Swap(t, p, q), r) == IsTip(t, r)
    ensures IsTip(t, r) ==>
      TipAt(Swap(t, p, q), r) == if r == q then TipAt(t, p) else if r == p then TipAt(t, q) else TipAt(t, r)
  {
    SetTipKeeps(t, p, TipAt(t, q), q);
    SetTipKeeps(t, p, TipAt(t, q), r);
    SetTipKeeps(SetTip(t, p, TipAt(t, q)), q, TipAt(t, p), r);
  }

  lemma {:induction false} PathOf(t: Tree, w: nat) returns (p: Path)
    requires Count(t, w) > 0
    ensures IsTip(t, p) && TipAt(t, p) == w
  {
    match t
    case Tip(_) => p := [];
    case Fork(l, r) =>
      if Count(l, w) > 0 {
        var q := PathOf(l, w);
        p := [false] + q;
      } else {
        var q := PathOf(r, w);
        p := [true] + q;
      }
  }

  /** A tip of weight `w` other than the one at `avoid`. */
  lemma PathOfOther(t: Tree, avoid: Path, w: nat) returns (p: Path)
    requires IsTip(t, avoid) && Count(t, w) > One(TipAt(t, avoid) == w)
    ensures IsTip(t, p) && TipAt(t, p) == w && p != avoid
  {
    SetTipCount(t, avoid, w + 1, w);
    p := PathOf(SetTip(t, avoid, w + 1), w);
    SetTipKeeps(t, avoid, w + 1, p);
  }

  lemma {:induction false} CountAt(t: Tree, p: Path)
    requires IsTip(t, p)
    ensures Count(t, TipAt(t, p)) > 0
  {
    match t
    case Tip(_) =>
    case Fork(l, r) => CountAt(if p[0] then r else l, p[1..]);
  }

  lemma CountAtOther(t: Tree, p: Path, q: Path)
    requires IsTip(t, p) && IsTip(t, q) && p != q
    ensures Count(t, TipAt(t, q)) > One(TipAt(t, p) == TipAt(t, q))
  {
    var w := TipAt(t, q);
    SetTipKeeps(t, p, w + 1, q);
    SetTipCount(t, p, w + 1, w);
    CountAt(SetTip(t, p, w + 1), q);
  }

  function Height(t: Tree): nat
  {
    match t
    case Tip(_) => 0
    case Fork(l, r) => 1 + if Height(l) >= Height(r) then Height(l) else Height(r)
  }

  lemma {:induction false} TipDepth(t: Tree, p: Path)
    requires IsTip(t, p)
    ensures |p| <= Height(t)
  {
    match t
    case Tip(_) =>
    case Fork(l, r) => TipDepth(if p[0] then r else l, p[1..]);
  }

  /** At `p` there is a fork of two tips. */
  predicate IsPair(t: Tree, p: Path)
  {
    match t
    case Tip(_) => false
    case Fork(l, r) => if p == [] then l.Tip? && r.Tip? else IsPair(if p[0] then r else l, p[1..])
  }

  function PairAt(t: Tree, p: Path): (nat, nat)
    requires IsPair(t, p)
  {
    if p == [] then (t.left.weight, t.right.weight) else PairAt(if p[0] then t.right else t.left, p[1..])
  }

  lemma {:induction false} PairIsTips(t: Tree, p: Path)
    requires IsTip(t, p + [false]) && IsTip(t, p + [true])
    ensures IsPair(t, p) && PairAt(t, p) == (TipAt(t, p + [false]), TipAt(t, p + [true]))
  {
    if p == [] {
      assert p + [false] == [false] && p + [true] == [true];
    } else {
      assert (p + [false])[1..] == p[1..] + [false] && (p + [true])[1..] == p[1..] + [true];
      PairIsTips(if p[0] then t.right else t.left, p[1..]);
    }
  }

  /** A pair of tips at the greatest depth. */
  lemma {:induction false} DeepestFork(t: Tree) returns (p: Path)
    requires t.Fork?
    ensures IsTip(t, p + [false]) && IsTip(t, p + [true]) && |p| + 1 == Height(t)
  {
    var goRight := Height(t.left) < Height(t.right);
    var child := if goRight then t.right else t.left;
    if child.Fork? {
      var q := DeepestFork(child);
      p := [goRight] + q;
      assert (p + [false])[1..] == q + [false] && (p + [true])[1..] == q + [true];
    } else {
      p := [];
    }
  }

  /** Replaces the pair at `p` by one tip that carries both weights. */
  function Fuse(t: Tree, p: Path): Tree
    requires IsPair(t, p)
  {
    if p == [] then Tip(t.left.weight + t.right.weight)
    else if p[0] then Fork(t.left, Fuse(t.right, p[1..]))
    else Fork(Fuse(t.left, p[1..]), t.right)
  }

  lemma {:induction false} FuseCost(t: Tree, p: Path)
    requires IsPair(t, p)
    ensures Total(Fuse(t, p)) == Total(t)
    ensures Cost(Fuse(t, p)) + PairAt(t, p).0 + PairAt(t, p).1 == Cost(t)
  {
    if p != [] {
      FuseCost(if p[0] then t.right else t.left, p[1..]);
    }
  }

  lemma {:induction false} FuseCount(t: Tree, p: Path, w: nat)
    requires IsPair(t, p)
    ensures var (a, b) := PairAt(t, p);
      Count(Fuse(t, p), w) + One(a == w) + One(b == w) == Count(t, w) + One(a + b == w)
  {
    if p != [] {
      FuseCount(if p[0] then t.right else t.left, p[1..], w);
    }
  }

  /** `a` and `b` are the two lightest weights of the tips. */
  ghost predicate TwoLightest(a: nat, b: nat, t: Tree)
  {
    && Count(t, a) > 0 && Count(t, b) > One(a == b)
    && (forall w :: Count(t, w) > 0 ==> a <= w)
    && (forall w :: Count(t, w) > One(a == w) ==> b <= w)
  }

  /** From any tree, a tree in which the two lightest weights have become one tip, at a saving of
      at least their sum. */
  lemma Exchange(t: Tree, a: nat, b: nat) returns (u: Tree)
    requires TwoLightest(a, b, t)
    ensures forall w :: Count(u, w) + One(a == w) + One(b == w) == Count(t, w) + One(a + b == w)
    ensures Cost(u) + a + b <= Cost(t)
  {
    assert t.Fork?;
    var fork := DeepestFork(t);
    var x, y := fork + [false], fork + [true];
    assert x != y by { assert x[|fork|] != y[|fork|]; }
    var t1 := MoveTo(t, a, x, y);
    var t2 := MoveToOther(t1, b, x, y);
    PairIsTips(t2, fork);
    forall w
      ensures Count(Fuse(t2, fork), w) + One(a == w) + One(b == w) == Count(t, w) + One(a + b == w)
    {
      FuseCount(t2, fork, w);
    }
    FuseCost(t2, fork);
    u := Fuse(t2, fork);
  }

  /** A tip of the lightest weight `a` can stand at any tip `x` of greatest depth. */
  lemma MoveTo(t: Tree, a: nat, x: Path, y: Path) returns (u: Tree)
    requires Count(t, a) > 0 && forall w :: Count(t, w) > 0 ==> a <= w
    requires IsTip(t, x) && |x| == Height(t) && IsTip(t, y) && |y| == Height(t)
    ensures IsTip(u, x) && TipAt(u, x) == a && IsTip(u, y) && forall q :: IsTip(u, q) ==> |q| <= |y|
    ensures (forall w :: Count(u, w) == Count(t, w)) && Cost(u) <= Cost(t)
  {
    var p := PathOf(t, a);
    TipDepth(t, p);
    CountAt(t, x);
    SwapCost(t, p, x);
    u := Swap(t, p, x);
    forall q | IsTip(u, q)
      ensures |q| <= |y|
    {
      SwapKeeps(t, p, x, q);
      TipDepth(t, q);
    }
    SwapKeeps(t, p, x, x);
    SwapKeeps(t, p, x, y);
    forall w
      ensures Count(u, w) == Count(t, w)
    {
      SwapCount(t, p, x, w);
    }
  }

  /** With a tip of weight `a` at `x`, a lightest one of the others can stand at its sibling `y`. */
  lemma MoveToOther(t: Tree, b: nat, x: Path, y: Path) returns (u: Tree)
    requires IsTip(t, x) && IsTip(t, y) && x != y && forall q :: IsTip(t, q) ==> |q| <= |y|
    requires Count(t, b) > One(TipAt(t, x) == b)
    requires forall w :: Count(t, w) > One(TipAt(t, x) == w) ==> b <= w
    ensures IsTip(u, x) && TipAt(u, x) == TipAt(t, x)
    ensures IsTip(u, y) && TipAt(u, y) == b
    ensures (forall w :: Count(u, w) == Count(t, w)) && Cost(u) <= Cost(t)
  {
    var p := PathOfOther(t, x, b);
    CountAtOther(t, x, y);
    SwapCost(t, p, y);
    SwapKeeps(t, p, y, x);
    SwapKeeps(t, p, y, y);
    u := Swap(t, p, y);
    forall w
      ensures Count(u, w) == Count(t, w)
    {
      SwapCount(t, p, y, w);
    }
  }
}
