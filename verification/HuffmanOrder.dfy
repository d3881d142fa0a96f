/** All nodes of the tree in heap order: they are popped in that order, two at a time. */
module HuffmanOrders {
  import opened Huffman

  /** The nodes numbered `lo..hi`, in the order of `s`. */
  function Pick<T>(s: seq<Node<T>>, lo: nat, hi: nat): Forest<T>
  {
    if s == [] then Nil
    else if lo <= s[0].num < hi then Cons(s[0], Pick(s[1..], lo, hi))
    else Pick(s[1..], lo, hi)
  }

  predicate InHeapOrder<T>(s: seq<Node<T>>)
  {
    forall i, j | 0 <= i < j < |s| :: Above(s[i], s[j]) && s[i].num != s[j].num
  }

  lemma {:induction false} PickOther<T>(s: seq<Node<T>>, lo: nat, hi: nat, lower: nat, higher: nat)
    requires forall i | 0 <= i < |s| :: (lo <= s[i].num < hi) == (lower <= s[i].num < higher)
    ensures Pick(s, lo, hi) == Pick(s, lower, higher)
  {
    if s != [] {
      PickOther(s[1..], lo, hi, lower, higher);
    }
  }

  lemma {:induction false} PickedBelow<T>(x: Node<T>, s: seq<Node<T>>, lo: nat, hi: nat)
    requires forall i | 0 <= i < |s| :: Above(x, s[i])
    ensures Insert(x, Pick(s, lo, hi)) == Cons(x, Pick(s, lo, hi))
  {
    if s != [] && !(lo <= s[0].num < hi) {
      PickedBelow(x, s[1..], lo, hi);
    }
  }

  /** Inserting the node with the next number, on either side, keeps the order. */
  lemma {:induction false} InsertPicked<T>(s: seq<Node<T>>, p: nat, lo: nat, hi: nat, lower: nat, higher: nat)
    requires InHeapOrder(s) && p < |s| && lo <= hi
    requires (s[p].num == hi && lower == lo && higher == hi + 1)
             || (s[p].num + 1 == lo && lower == s[p].num && higher == hi)
    ensures Insert(s[p], Pick(s, lo, hi)) == Pick(s, lower, higher)
    decreases |s|
  {
    var x, rest := s[p], s[1..];
    if p == 0 {
      PickedBelow(x, rest, lo, hi);
      PickOther(rest, lo, hi, lower, higher);
    } else {
      assert rest[p - 1] == x && Above(s[0], x);
      InsertPicked(rest, p - 1, lo, hi, lower, higher);
    }
  }

  /** `s` holds the described leaves, each at its place. */
  ghost predicate HoldsLeaves<T(!new)>(s: seq<Node<T>>, descriptors: seq<(nat, T)>, place: nat -> nat)
  {
    forall i: nat | i < |descriptors| ::
      place(i) < |s| && s[place(i)] == Leaf(descriptors[i].0, i, descriptors[i].1)
  }

  lemma {:induction false} LeavesPicked<T(!new)>(s: seq<Node<T>>, descriptors: seq<(nat, T)>, place: nat -> nat,
      first: nat)
    requires InHeapOrder(s) && HoldsLeaves(s, descriptors, place) && first <= |descriptors|
    ensures Leaves(descriptors[first..], first) == Pick(s, first, |descriptors|)
    decreases |descriptors| - first
  {
    if first == |descriptors| {
      NonePicked(s, first);
    } else {
      assert descriptors[first..][0] == descriptors[first] && descriptors[first..][1..] == descriptors[first + 1..];
      LeavesPicked(s, descriptors, place, first + 1);
      InsertPicked(s, place(first), first + 1, |descriptors|, first, |descriptors|);
    }
  }

  lemma {:induction false} NonePicked<T>(s: seq<Node<T>>, n: nat)
    ensures Pick(s, n, n) == Nil
  {
    if s != [] {
      NonePicked(s[1..], n);
    }
  }

  /** Node `n + k` joins the nodes at `2 * k` and `2 * k + 1`, which are older, and stands behind them. */
  ghost predicate HoldsJoins<T(!new)>(s: seq<Node<T>>, n: nat, place: nat -> nat)
  {
    && n > 0 && |s| == 2 * n - 1
    && (forall k: nat | k < n - 1 ::
          && 2 * k + 2 <= place(n + k) < |s|
          && s[2 * k].num < n + k && s[2 * k + 1].num < n + k && s[place(n + k)] == Join(s[2 * k], s[2 * k + 1], n + k))
    && s[2 * n - 2].num < 2 * n - 1
  }

  lemma MergeTwo<T>(a: Node<T>, b: Node<T>, rest: Forest<T>, num: nat)
    ensures Merge(Cons(a, Cons(b, rest)), num) == Merge(Insert(Join(a, b, num), rest), num + 1)
  {
  }

  lemma PickTwo<T>(t: seq<Node<T>>, hi: nat)
    requires |t| >= 2 && t[0].num < hi && t[1].num < hi
    ensures Pick(t, 0, hi) == Cons(t[0], Cons(t[1], Pick(t[2..], 0, hi)))
  {
    assert t[1..][0] == t[1] && t[1..][1..] == t[2..];
  }

  lemma JoinAt<T(!new)>(s: seq<Node<T>>, n: nat, place: nat -> nat, k: nat)
    requires HoldsJoins(s, n, place) && k + 1 < n
    ensures |s| == 2 * n - 1 && 2 * k + 2 <= place(n + k) < |s|
    ensures s[2 * k].num < n + k && s[2 * k + 1].num < n + k && s[place(n + k)] == Join(s[2 * k], s[2 * k + 1], n + k)
  {
  }

  /** One turn of the merging. */
  lemma PopTwoPushOne<T(!new)>(s: seq<Node<T>>, n: nat, place: nat -> nat, k: nat)
    requires InHeapOrder(s) && HoldsJoins(s, n, place) && k + 1 < n
    ensures |s| == 2 * n - 1
    ensures Pick(s[2 * k..], 0, n + k)
         == Cons(s[2 * k], Cons(s[2 * k + 1], Pick(s[2 * (k + 1)..], 0, n + k)))
    ensures Insert(Join(s[2 * k], s[2 * k + 1], n + k), Pick(s[2 * (k + 1)..], 0, n + k))
         == Pick(s[2 * (k + 1)..], 0, n + (k + 1))
  {
    JoinAt(s, n, place, k);
    hide InHeapOrder, HoldsJoins, Pick, Insert;
    var t, u := s[2 * k..], s[2 * (k + 1)..];
    assert t[2..] == u;
    PickTwo(t, n + k);
    var p := place(n + k) - 2 * (k + 1);
    assert u[p] == s[place(n + k)];
    OrderOfRest(s, 2 * (k + 1));
    InsertPicked(u, p, 0, n + k, 0, n + k + 1);
  }

  lemma OrderOfRest<T>(s: seq<Node<T>>, m: nat)
    requires InHeapOrder(s) && m <= |s|
    ensures InHeapOrder(s[m..])
  {
  }

  /** What is in the heap after `k` turns. */
  function Remaining<T>(s: seq<Node<T>>, n: nat, k: nat): Forest<T>
    requires 2 * k <= |s|
  {
    Pick(s[2 * k..], 0, n + k)
  }

  lemma OneLeft<T(!new)>(s: seq<Node<T>>, n: nat, place: nat -> nat)
    requires HoldsJoins(s, n, place)
    ensures |s| == 2 * n - 1 && Remaining(s, n, n - 1) == Cons(s[|s| - 1], Nil)
  {
    hide Insert, Merge;
    var t := s[2 * (n - 1)..];
    assert t == [s[|s| - 1]] && t[1..] == [];
    assert Pick(t, 0, n + (n - 1)) == Cons(t[0], Pick(t[1..], 0, n + (n - 1)));
  }

  lemma OneTurn<T(!new)>(s: seq<Node<T>>, n: nat, place: nat -> nat, k: nat)
    requires InHeapOrder(s) && HoldsJoins(s, n, place) && k + 1 < n
    ensures |s| == 2 * n - 1 && Remaining(s, n, k).Cons?
    ensures Remaining(s, n, k + 1).Cons?
    ensures Merge(Remaining(s, n, k), n + k) == Merge(Remaining(s, n, k + 1), n + k + 1)
  {
    PopTwoPushOne(s, n, place, k);
    hide InHeapOrder, HoldsJoins, Pick, Merge, Insert;
    MergeTwo(s[2 * k], s[2 * k + 1], Pick(s[2 * (k + 1)..], 0, n + k), n + k);
  }

  lemma {:induction false} MergePicked<T(!new)>(s: seq<Node<T>>, n: nat, place: nat -> nat, k: nat)
    requires InHeapOrder(s) && HoldsJoins(s, n, place) && k < n
    ensures |s| == 2 * n - 1 && Remaining(s, n, k).Cons? && Merge(Remaining(s, n, k), n + k) == s[|s| - 1]
    decreases n - k
  {
    if k == n - 1 {
      OneLeft(s, n, place);
    } else {
      OneTurn(s, n, place, k);
      hide InHeapOrder, HoldsJoins, Remaining, Merge;
      MergePicked(s, n, place, k + 1);
    }
  }

  /** A list of nodes in heap order that holds the leaves and, for each pair, their join, ends with the tree. */
  lemma TreeIsLast<T(!new)>(s: seq<Node<T>>, descriptors: seq<(nat, T)>, place: nat -> nat)
    requires descriptors != [] && InHeapOrder(s)
    requires HoldsLeaves(s, descriptors, place) && HoldsJoins(s, |descriptors|, place)
    ensures HuffmanTree(descriptors) == s[|s| - 1]
  {
    assert descriptors[0..] == descriptors && s[0..] == s;
    LeavesPicked(s, descriptors, place, 0);
    MergePicked(s, |descriptors|, place, 0);
  }
}
