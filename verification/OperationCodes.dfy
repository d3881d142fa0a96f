/** The tree of the decoder, and the bits of each of its forty operations. */
module OperationCodes {
  import opened Prelude
  import opened Bits
  import opened FieldPaths
  import opened Huffman
  import opened HuffmanOrders
  import opened FlatTrees
  import opened FieldPathCodec
  import opened FieldPathOps

  // ---- the nodes of the tree

  /** The leaves are numbered from 0 to 39 as they are described, the others from 40 on as they are made.  Row `i`
      says which node is popped as number `i`, when node `i` is popped, and what node `i` weighs. */
  datatype Row = Row(popped: nat, when: nat, weight: nat)

  function RowAt(i: nat): Row
  {
    if i < 20 then Rows0(i) else if i < 40 then Rows1(i) else if i < 60 then Rows2(i) else Rows3(i)
  }

  function Rows0(i: nat): Row
  {
    match i
    case 0 => Row(35, 76, 36271)
    case 1 => Row(34, 70, 10334)
    case 2 => Row(33, 60, 1375)
    case 3 => Row(28, 55, 646)
    case 4 => Row(25, 66, 4128)
    case 5 => Row(24, 37, 35)
    case 6 => Row(23, 27, 3)
    case 7 => Row(22, 50, 521)
    case 8 => Row(21, 64, 2942)
    case 9 => Row(20, 52, 560)
    case 10 => Row(19, 49, 471)
    case 11 => Row(18, 71, 10530)
    case 12 => Row(17, 44, 251)
    case 13 => Row(16, 16, 1)
    case 14 => Row(15, 15, 1)
    case 15 => Row(14, 14, 1)
    case 16 => Row(13, 13, 1)
    case 17 => Row(47, 12, 1)
    case 18 => Row(46, 11, 1)
    case _ => Row(45, 10, 1)
  }

  function Rows1(i: nat): Row
  {
    match i
    case 20 => Row(44, 9, 1)
    case 21 => Row(43, 8, 1)
    case 22 => Row(42, 7, 1)
    case 23 => Row(41, 6, 1)
    case 24 => Row(40, 5, 1)
    case 25 => Row(27, 4, 1)
    case 26 => Row(48, 47, 310)
    case 27 => Row(6, 25, 2)
    case 28 => Row(52, 3, 1)
    case 29 => Row(51, 61, 1837)
    case 30 => Row(50, 42, 149)
    case 31 => Row(49, 46, 300)
    case 32 => Row(53, 54, 634)
    case 33 => Row(55, 2, 1)
    case 34 => Row(54, 1, 1)
    case 35 => Row(56, 0, 1)
    case 36 => Row(57, 39, 76)
    case 37 => Row(5, 45, 271)
    case 38 => Row(58, 40, 99)
    case _ => Row(36, 74, 25474)
  }

  function Rows2(i: nat): Row
  {
    match i
    case 40 => Row(38, 24, 2)
    case 41 => Row(59, 23, 2)
    case 42 => Row(30, 22, 2)
    case 43 => Row(60, 21, 2)
    case 44 => Row(12, 20, 2)
    case 45 => Row(37, 19, 2)
    case 46 => Row(31, 18, 2)
    case 47 => Row(26, 17, 2)
    case 48 => Row(61, 26, 3)
    case 49 => Row(10, 31, 4)
    case 50 => Row(7, 30, 4)
    case 51 => Row(62, 29, 4)
    case 52 => Row(9, 28, 4)
    case 53 => Row(63, 32, 6)
    case 54 => Row(32, 34, 8)
    case 55 => Row(3, 33, 8)
    case 56 => Row(64, 35, 14)
    case 57 => Row(65, 36, 22)
    case 58 => Row(66, 38, 57)
    case _ => Row(67, 41, 133)
  }

  function Rows3(i: nat): Row
  {
    match i
    case 60 => Row(2, 43, 232)
    case 61 => Row(29, 48, 381)
    case 62 => Row(68, 51, 522)
    case 63 => Row(69, 53, 610)
    case 64 => Row(8, 56, 852)
    case 65 => Row(70, 57, 1043)
    case 66 => Row(4, 58, 1170)
    case 67 => Row(71, 59, 1280)
    case 68 => Row(72, 62, 1895)
    case 69 => Row(73, 63, 2450)
    case 70 => Row(1, 65, 3212)
    case 71 => Row(11, 67, 4345)
    case 72 => Row(74, 68, 6154)
    case 73 => Row(75, 69, 8473)
    case 74 => Row(39, 72, 14627)
    case 75 => Row(76, 73, 20864)
    case 76 => Row(0, 75, 35491)
    case 77 => Row(77, 77, 60965)
    case _ => Row(78, 78, 97236)
  }

  const NODES: nat := 79

  /** The next one popped is heavier, or as heavy and older. */
  predicate OrderHolds(i: nat)
  {
    && RowAt(i).popped < NODES && RowAt(i).when < NODES
    && RowAt(RowAt(i).when).popped == i
    && (i + 1 < NODES ==>
          var a, b := RowAt(i).popped, RowAt(i + 1).popped;
          RowAt(a).weight < RowAt(b).weight || (RowAt(a).weight == RowAt(b).weight && a > b))
  }

  lemma OrderHolds0(i: nat)
    requires 0 <= i < 6
    ensures OrderHolds(i)
  {
  }

  lemma OrderHolds1(i: nat)
    requires 6 <= i < 12
    ensures OrderHolds(i)
  {
  }

  lemma OrderHolds2(i: nat)
    requires 12 <= i < 18
    ensures OrderHolds(i)
  {
  }

  lemma OrderHolds3(i: nat)
    requires 18 <= i < 24
    ensures OrderHolds(i)
  {
  }

  lemma OrderHolds4(i: nat)
    requires 24 <= i < 30
    ensures OrderHolds(i)
  {
  }

  lemma OrderHolds5(i: nat)
    requires 30 <= i < 36
    ensures OrderHolds(i)
  {
  }

  lemma OrderHolds6(i: nat)
    requires 36 <= i < 42
    ensures OrderHolds(i)
  {
  }

  lemma OrderHolds7(i: nat)
    requires 42 <= i < 48
    ensures OrderHolds(i)
  {
  }

  lemma OrderHolds8(i: nat)
    requires 48 <= i < 54
    ensures OrderHolds(i)
  {
  }

  lemma OrderHolds9(i: nat)
    requires 54 <= i < 60
    ensures OrderHolds(i)
  {
  }

  lemma OrderHolds10(i: nat)
    requires 60 <= i < 66
    ensures OrderHolds(i)
  {
  }

  lemma OrderHolds11(i: nat)
    requires 66 <= i < 72
    ensures OrderHolds(i)
  {
  }

  lemma OrderHolds12(i: nat)
    requires 72 <= i < 78
    ensures OrderHolds(i)
  {
  }

  lemma OrderHolds13(i: nat)
    requires 78 <= i < 79
    ensures OrderHolds(i)
  {
  }

  lemma Ordered(i: nat)
    requires i < NODES
    ensures OrderHolds(i)
  {
    if i < 6 {
      OrderHolds0(i);
    } else if i < 12 {
      OrderHolds1(i);
    } else if i < 18 {
      OrderHolds2(i);
    } else if i < 24 {
      OrderHolds3(i);
    } else if i < 30 {
      OrderHolds4(i);
    } else if i < 36 {
      OrderHolds5(i);
    } else if i < 42 {
      OrderHolds6(i);
    } else if i < 48 {
      OrderHolds7(i);
    } else if i < 54 {
      OrderHolds8(i);
    } else if i < 60 {
      OrderHolds9(i);
    } else if i < 66 {
      OrderHolds10(i);
    } else if i < 72 {
      OrderHolds11(i);
    } else if i < 78 {
      OrderHolds12(i);
    } else {
      OrderHolds13(i);
    }
  }

  /** The nodes popped as numbers `2 * k` and `2 * k + 1` are older than their join and popped before it. */
  predicate JoinHolds(k: nat)
  {
    && RowAt(2 * k).popped < 40 + k && RowAt(2 * k + 1).popped < 40 + k && RowAt(40 + k).when >= 2 * k + 2
    && RowAt(40 + k).weight == RowAt(RowAt(2 * k).popped).weight + RowAt(RowAt(2 * k + 1).popped).weight
  }

  lemma JoinHolds0(k: nat)
    requires 0 <= k < 6
    ensures JoinHolds(k)
  {
  }

  lemma JoinHolds1(k: nat)
    requires 6 <= k < 12
    ensures JoinHolds(k)
  {
  }

  lemma JoinHolds2(k: nat)
    requires 12 <= k < 18
    ensures JoinHolds(k)
  {
  }

  lemma JoinHolds3(k: nat)
    requires 18 <= k < 24
    ensures JoinHolds(k)
  {
  }

  lemma JoinHolds4(k: nat)
    requires 24 <= k < 30
    ensures JoinHolds(k)
  {
  }

  lemma JoinHolds5(k: nat)
    requires 30 <= k < 36
    ensures JoinHolds(k)
  {
  }

  lemma JoinHolds6(k: nat)
    requires 36 <= k < 39
    ensures JoinHolds(k)
  {
  }

  lemma Joined(k: nat)
    requires k < 39
    ensures JoinHolds(k)
  {
    if k < 6 {
      JoinHolds0(k);
    } else if k < 12 {
      JoinHolds1(k);
    } else if k < 18 {
      JoinHolds2(k);
    } else if k < 24 {
      JoinHolds3(k);
    } else if k < 30 {
      JoinHolds4(k);
    } else if k < 36 {
      JoinHolds5(k);
    } else {
      JoinHolds6(k);
    }
  }

  lemma LeafWeight0(i: nat)
    requires 0 <= i < 10
    ensures DESCRIPTORS[i].0 == RowAt(i).weight
  {
    match i
    case 0 => assert DESCRIPTORS[0].0 == 36271;
    case 1 => assert DESCRIPTORS[1].0 == 10334;
    case 2 => assert DESCRIPTORS[2].0 == 1375;
    case 3 => assert DESCRIPTORS[3].0 == 646;
    case 4 => assert DESCRIPTORS[4].0 == 4128;
    case 5 => assert DESCRIPTORS[5].0 == 35;
    case 6 => assert DESCRIPTORS[6].0 == 3;
    case 7 => assert DESCRIPTORS[7].0 == 521;
    case 8 => assert DESCRIPTORS[8].0 == 2942;
    case 9 => assert DESCRIPTORS[9].0 == 560;
  }

  lemma LeafWeight1(i: nat)
    requires 10 <= i < 20
    ensures DESCRIPTORS[i].0 == RowAt(i).weight
  {
    match i
    case 10 => assert DESCRIPTORS[10].0 == 471;
    case 11 => assert DESCRIPTORS[11].0 == 10530;
    case 12 => assert DESCRIPTORS[12].0 == 251;
    case 13 => assert DESCRIPTORS[13].0 == 1;
    case 14 => assert DESCRIPTORS[14].0 == 1;
    case 15 => assert DESCRIPTORS[15].0 == 1;
    case 16 => assert DESCRIPTORS[16].0 == 1;
    case 17 => assert DESCRIPTORS[17].0 == 1;
    case 18 => assert DESCRIPTORS[18].0 == 1;
    case 19 => assert DESCRIPTORS[19].0 == 1;
  }

  lemma LeafWeight2(i: nat)
    requires 20 <= i < 30
    ensures DESCRIPTORS[i].0 == RowAt(i).weight
  {
    match i
    case 20 => assert DESCRIPTORS[20].0 == 1;
    case 21 => assert DESCRIPTORS[21].0 == 1;
    case 22 => assert DESCRIPTORS[22].0 == 1;
    case 23 => assert DESCRIPTORS[23].0 == 1;
    case 24 => assert DESCRIPTORS[24].0 == 1;
    case 25 => assert DESCRIPTORS[25].0 == 1;
    case 26 => assert DESCRIPTORS[26].0 == 310;
    case 27 => assert DESCRIPTORS[27].0 == 2;
    case 28 => assert DESCRIPTORS[28].0 == 1;
    case 29 => assert DESCRIPTORS[29].0 == 1837;
  }

  lemma LeafWeight3(i: nat)
    requires 30 <= i < 40
    ensures DESCRIPTORS[i].0 == RowAt(i).weight
  {
    match i
    case 30 => assert DESCRIPTORS[30].0 == 149;
    case 31 => assert DESCRIPTORS[31].0 == 300;
    case 32 => assert DESCRIPTORS[32].0 == 634;
    case 33 => assert DESCRIPTORS[33].0 == 1;
    case 34 => assert DESCRIPTORS[34].0 == 1;
    case 35 => assert DESCRIPTORS[35].0 == 1;
    case 36 => assert DESCRIPTORS[36].0 == 76;
    case 37 => assert DESCRIPTORS[37].0 == 271;
    case 38 => assert DESCRIPTORS[38].0 == 99;
    case 39 => assert DESCRIPTORS[39].0 == 25474;
  }

  lemma LeafWeight(i: nat)
    requires i < 40
    ensures DESCRIPTORS[i].0 == RowAt(i).weight
  {
    if i < 10 {
      LeafWeight0(i);
    } else if i < 20 {
      LeafWeight1(i);
    } else if i < 30 {
      LeafWeight2(i);
    } else {
      LeafWeight3(i);
    }
  }

  function Left(k: nat): (id: nat)
    requires k < 39
    ensures id < 40 + k
  {
    Joined(k);
    RowAt(2 * k).popped
  }

  function Right(k: nat): (id: nat)
    requires k < 39
    ensures id < 40 + k
  {
    Joined(k);
    RowAt(2 * k + 1).popped
  }

  function NodeOf(id: nat): Node<FieldOp>
    requires id < NODES
  {
    if id < 40 then Leaf(DESCRIPTORS[id].0, id, DESCRIPTORS[id].1)
    else Join(NodeOf(Left(id - 40)), NodeOf(Right(id - 40)), id)
  }

  lemma {:induction false} WeightOfNode(id: nat)
    requires id < NODES
    ensures NodeOf(id).weight == RowAt(id).weight && NodeOf(id).num == id
  {
    hide RowAt;
    if id < 40 {
      LeafWeight(id);
    } else {
      Joined(id - 40);
      WeightOfNode(Left(id - 40));
      WeightOfNode(Right(id - 40));
    }
  }

  lemma {:induction false} PoppedInOrder(i: nat, j: nat)
    requires i < j < NODES
    ensures RowAt(i).popped < NODES && RowAt(j).popped < NODES
    ensures var a, b := RowAt(i).popped, RowAt(j).popped;
      RowAt(a).weight < RowAt(b).weight || (RowAt(a).weight == RowAt(b).weight && a > b)
    decreases j
  {
    hide RowAt;
    Ordered(i);
    Ordered(j - 1);
    Ordered(j);
    if i < j - 1 {
      PoppedInOrder(i, j - 1);
    }
  }

  function AllNodes(): (s: seq<Node<FieldOp>>)
    ensures |s| == NODES && forall i | 0 <= i < NODES :: RowAt(i).popped < NODES && s[i] == NodeOf(RowAt(i).popped)
  {
    assert forall i: nat | i < NODES :: RowAt(i).popped < NODES by {
      forall i: nat | i < NODES
        ensures RowAt(i).popped < NODES
      {
        Ordered(i);
      }
    }
    seq(NODES, i requires 0 <= i < NODES => NodeOf(RowAt(i).popped))
  }

  /** The tree of the decoder is the last of these nodes. */
  lemma TreeOfDecoder()
    ensures |DESCRIPTORS| == 40 && HuffmanTree(DESCRIPTORS) == NodeOf(78)
  {
    hide RowAt, NodeOf, HuffmanTree, Left, Right;
    var s, place := AllNodes(), (id: nat) => RowAt(id).when;
    forall i, j | 0 <= i < j < NODES
      ensures Above(s[i], s[j]) && s[i].num != s[j].num
    {
      PoppedInOrder(i, j);
      WeightOfNode(RowAt(i).popped);
      WeightOfNode(RowAt(j).popped);
    }
    forall i: nat | i < 40
      ensures place(i) < NODES && s[place(i)] == Leaf(DESCRIPTORS[i].0, i, DESCRIPTORS[i].1)
    {
      Ordered(i);
      LeafNode(i);
    }
    forall k: nat | k < 39
      ensures 2 * k + 2 <= place(40 + k) < NODES && s[2 * k].num < 40 + k && s[2 * k + 1].num < 40 + k
      ensures s[place(40 + k)] == Join(s[2 * k], s[2 * k + 1], 40 + k)
    {
      Ordered(40 + k);
      Joined(k);
      WeightOfNode(RowAt(2 * k).popped);
      WeightOfNode(RowAt(2 * k + 1).popped);
      JoinNode(k);
    }
    LastPopped();
    WeightOfNode(78);
    TreeIsLast(s, DESCRIPTORS, place);
  }

  lemma LeafNode(i: nat)
    requires i < 40
    ensures NodeOf(i) == Leaf(DESCRIPTORS[i].0, i, DESCRIPTORS[i].1)
  {
  }

  lemma JoinNode(k: nat)
    requires k < 39
    ensures JoinHolds(k) && NodeOf(40 + k) == Join(NodeOf(RowAt(2 * k).popped), NodeOf(RowAt(2 * k + 1).popped), 40 + k)
  {
    hide RowAt;
    Joined(k);
  }

  lemma LastPopped()
    ensures RowAt(78).popped == 78
  {
  }

  // ---- the bits on the way to a node

  /** Each node but the last is the left or the right child of a join, as it was popped first or second. */
  function Parent(id: nat): (p: nat)
    requires id < 78
    ensures id < p < NODES && 40 <= p
  {
    ParentHolds(id);
    40 + RowAt(id).when / 2
  }

  lemma ParentHolds(id: nat)
    requires id < 78
    ensures RowAt(id).when < 78
    ensures id == if RowAt(id).when % 2 == 0 then Left(RowAt(id).when / 2) else Right(RowAt(id).when / 2)
  {
    hide RowAt;
    var when := RowAt(id).when;
    Ordered(id);
    assert when == 2 * (when / 2) + when % 2;
    if when == 78 {
      LastPopped();
    }
    Joined(when / 2);
  }

  function WayTo(id: nat): BitString
    requires id < NODES
    decreases NODES - id
  {
    if id == 78 then [] else WayTo(Parent(id)) + [RowAt(id).when % 2 == 1]
  }

  lemma {:induction false} WayLeadsThere(id: nat, rest: BitString)
    requires id < NODES
    ensures Walk(NodeOf(78), WayTo(id) + rest) == Walk(NodeOf(id), rest)
    decreases NODES - id
  {
    hide RowAt, Walk, ReadBool, NodeOf, Left, Right;
    if id == 78 {
      assert WayTo(id) + rest == rest;
    } else {
      var p, bit := Parent(id), RowAt(id).when % 2 == 1;
      assert WayTo(id) + rest == WayTo(p) + ([bit] + rest);
      WayLeadsThere(p, [bit] + rest);
      ParentHolds(id);
      BranchNode(p);
      WalkOne(NodeOf(Left(p - 40)), NodeOf(Right(p - 40)), p, bit, rest);
    }
  }

  lemma BranchNode(p: nat)
    requires 40 <= p < NODES
    ensures NodeOf(p) == Join(NodeOf(Left(p - 40)), NodeOf(Right(p - 40)), p)
  {
    hide RowAt, Left, Right;
  }

  lemma WalkOne(left: Node<FieldOp>, right: Node<FieldOp>, num: nat, bit: bool, rest: BitString)
    ensures Walk(Join(left, right, num), [bit] + rest) == Walk(if bit then right else left, rest)
  {
    BoolRoundTrip(bit, rest);
    hide ReadBool;
  }

  /** The bits of each operation, by its place in the table, lead to it. */
  lemma OperationAt(i: nat, rest: BitString)
    requires i < 40
    ensures Walk(HuffmanTree(DESCRIPTORS), WayTo(i) + rest) == Ok(DESCRIPTORS[i].1, rest)
  {
    hide RowAt, Walk, HuffmanTree;
    TreeOfDecoder();
    WayLeadsThere(i, rest);
    LeafNode(i);
    WalkLeaf(DESCRIPTORS[i].0, i, DESCRIPTORS[i].1, rest);
  }

  lemma WalkLeaf(weight: nat, num: nat, op: FieldOp, rest: BitString)
    ensures Walk(Leaf(weight, num, op), rest) == Ok(op, rest)
  {
  }

  // ---- the frequent operations, bit by bit

  const O: bool := false
  const I: bool := true

  lemma WayFromParent(id: nat, p: nat, bit: bool, way: BitString, all: BitString)
    requires id < 78 && p == 40 + RowAt(id).when / 2 && bit == (RowAt(id).when % 2 == 1) && p < NODES && WayTo(p) == way
    requires all == way + [bit]
    ensures WayTo(id) == all
  {
    hide RowAt;
    assert Parent(id) == p;
    hide Parent;
    assert WayTo(id) == WayTo(p) + [bit];
  }

  lemma Root()
    ensures WayTo(78) == []
  {
  }

  // the inner nodes on the way
  lemma InnerWays0()
    ensures WayTo(77) == [I]
    ensures WayTo(76) == [I, I]
  {
    hide WayTo;
    Root();
    WayFromParent(77, 78, I, [], [I]);
    WayFromParent(76, 77, I, [I], [I, I]);
  }

  lemma InnerWays1()
    ensures WayTo(74) == [I, I, O]
    ensures WayTo(75) == [I, I, I]
  {
    hide WayTo;
    InnerWays0();
    WayFromParent(74, 76, O, [I, I], [I, I, O]);
    WayFromParent(75, 76, I, [I, I], [I, I, I]);
  }

  lemma InnerWays2()
    ensures WayTo(72) == [I, I, O, O]
    ensures WayTo(73) == [I, I, O, I]
  {
    hide WayTo;
    InnerWays1();
    WayFromParent(72, 74, O, [I, I, O], [I, I, O, O]);
    WayFromParent(73, 74, I, [I, I, O], [I, I, O, I]);
  }

  lemma InnerWays3()
    ensures WayTo(70) == [I, I, O, O, I]
    ensures WayTo(71) == [I, I, O, I, I]
  {
    hide WayTo;
    InnerWays2();
    WayFromParent(70, 72, I, [I, I, O, O], [I, I, O, O, I]);
    WayFromParent(71, 73, I, [I, I, O, I], [I, I, O, I, I]);
  }

  lemma InnerWays4()
    ensures WayTo(68) == [I, I, O, I, I, O]
    ensures WayTo(69) == [I, I, O, I, I, I]
  {
    hide WayTo;
    InnerWays3();
    WayFromParent(68, 71, O, [I, I, O, I, I], [I, I, O, I, I, O]);
    WayFromParent(69, 71, I, [I, I, O, I, I], [I, I, O, I, I, I]);
  }

  lemma InnerWays5()
    ensures WayTo(64) == [I, I, O, I, I, O, O]
    ensures WayTo(65) == [I, I, O, I, I, O, I]
  {
    hide WayTo;
    InnerWays4();
    WayFromParent(64, 68, O, [I, I, O, I, I, O], [I, I, O, I, I, O, O]);
    WayFromParent(65, 68, I, [I, I, O, I, I, O], [I, I, O, I, I, O, I]);
  }

  lemma InnerWays6()
    ensures WayTo(66) == [I, I, O, I, I, I, O]
    ensures WayTo(67) == [I, I, O, I, I, I, I]
  {
    hide WayTo;
    InnerWays4();
    WayFromParent(66, 69, O, [I, I, O, I, I, I], [I, I, O, I, I, I, O]);
    WayFromParent(67, 69, I, [I, I, O, I, I, I], [I, I, O, I, I, I, I]);
  }

  lemma InnerWays7()
    ensures WayTo(61) == [I, I, O, I, I, O, O, O]
    ensures WayTo(62) == [I, I, O, I, I, O, I, I]
  {
    hide WayTo;
    InnerWays5();
    WayFromParent(61, 64, O, [I, I, O, I, I, O, O], [I, I, O, I, I, O, O, O]);
    WayFromParent(62, 65, I, [I, I, O, I, I, O, I], [I, I, O, I, I, O, I, I]);
  }

  lemma InnerWays8()
    ensures WayTo(63) == [I, I, O, I, I, I, O, I]
    ensures WayTo(60) == [I, I, O, I, I, O, O, O, I]
  {
    hide WayTo;
    InnerWays6();
    InnerWays7();
    WayFromParent(63, 66, I, [I, I, O, I, I, I, O], [I, I, O, I, I, I, O, I]);
    WayFromParent(60, 61, I, [I, I, O, I, I, O, O, O], [I, I, O, I, I, O, O, O, I]);
  }

  lemma InnerWays9()
    ensures WayTo(59) == [I, I, O, I, I, O, O, O, I, I]
  {
    hide WayTo;
    InnerWays8();
    WayFromParent(59, 60, I, [I, I, O, I, I, O, O, O, I], [I, I, O, I, I, O, O, O, I, I]);
  }

  /** The twenty operations that the table gives a weight of 76 or more. */
  function FrequentCode(op: FieldOp): Option<BitString>
  {
    match op
    case PlusOne => Some([O])
    case FieldPathEncodeFinish => Some([I, O])
    case PushOneLeftDeltaNRightNonZeroPack6Bits => Some([I, I, I, I])
    case PlusTwo => Some([I, I, I, O])
    case PlusN => Some([I, I, O, I, O])
    case PushOneLeftDeltaOneRightNonZero => Some([I, I, O, O, O])
    case PopAllButOnePlusOne => Some([I, I, O, O, I, I])
    case PlusThree => Some([I, I, O, O, I, O])
    case PlusFour => Some([I, I, O, I, I, I, I, I])
    case PopAllButOnePlusNPack6Bits => Some([I, I, O, I, I, I, I, O])
    case PushOneLeftDeltaNRightZero => Some([I, I, O, I, I, I, O, O])
    case PushOneLeftDeltaOneRightZero => Some([I, I, O, I, I, O, I, O])
    case PushOneLeftDeltaNRightNonZero => Some([I, I, O, I, I, O, O, I])
    case PushNAndNonTopographical => Some([I, I, O, I, I, I, O, I, I])
    case PopAllButOnePlusNPack3Bits => Some([I, I, O, I, I, I, O, I, O])
    case NonTopoPenultimatePlusOne => Some([I, I, O, I, I, O, I, I, I])
    case PushOneLeftDeltaNRightNonZeroPack8Bits => Some([I, I, O, I, I, O, I, I, O])
    case PopAllButOnePlusN => Some([I, I, O, I, I, O, O, O, O])
    case NonTopoComplexPack4Bits => Some([I, I, O, I, I, O, O, O, I, O])
    case NonTopoComplex => Some([I, I, O, I, I, O, O, O, I, I, I])
    case _ => None
  }

  /** Where an operation stands in the table. */
  function PlaceOf(op: FieldOp): nat
  {
    match op
    case PlusOne => 0
    case PlusTwo => 1
    case PlusThree => 2
    case PlusFour => 3
    case PlusN => 4
    case PushOneLeftDeltaZeroRightZero => 5
    case PushOneLeftDeltaZeroRightNonZero => 6
    case PushOneLeftDeltaOneRightZero => 7
    case PushOneLeftDeltaOneRightNonZero => 8
    case PushOneLeftDeltaNRightZero => 9
    case PushOneLeftDeltaNRightNonZero => 10
    case PushOneLeftDeltaNRightNonZeroPack6Bits => 11
    case PushOneLeftDeltaNRightNonZeroPack8Bits => 12
    case PushTwoLeftDeltaZero => 13
    case PushTwoPack5LeftDeltaZero => 14
    case PushThreeLeftDeltaZero => 15
    case PushThreePack5LeftDeltaZero => 16
    case PushTwoLeftDeltaOne => 17
    case PushTwoPack5LeftDeltaOne => 18
    case PushThreeLeftDeltaOne => 19
    case PushThreePack5LeftDeltaOne => 20
    case PushTwoLeftDeltaN => 21
    case PushTwoPack5LeftDeltaN => 22
    case PushThreeLeftDeltaN => 23
    case PushThreePack5LeftDeltaN => 24
    case PushN => 25
    case PushNAndNonTopographical => 26
    case PopOnePlusOne => 27
    case PopOnePlusN => 28
    case PopAllButOnePlusOne => 29
    case PopAllButOnePlusN => 30
    case PopAllButOnePlusNPack3Bits => 31
    case PopAllButOnePlusNPack6Bits => 32
    case PopNPlusOne => 33
    case PopNPlusN => 34
    case PopNAndNonTopographical => 35
    case NonTopoComplex => 36
    case NonTopoPenultimatePlusOne => 37
    case NonTopoComplexPack4Bits => 38
    case FieldPathEncodeFinish => 39
  }

  lemma PlaceInTable0(op: FieldOp)
    requires 0 <= PlaceOf(op) < 8
    ensures DESCRIPTORS[PlaceOf(op)].1 == op
  {
    match PlaceOf(op)
    case 0 => assert DESCRIPTORS[0].1 == PlusOne;
    case 1 => assert DESCRIPTORS[1].1 == PlusTwo;
    case 2 => assert DESCRIPTORS[2].1 == PlusThree;
    case 3 => assert DESCRIPTORS[3].1 == PlusFour;
    case 4 => assert DESCRIPTORS[4].1 == PlusN;
    case 5 => assert DESCRIPTORS[5].1 == PushOneLeftDeltaZeroRightZero;
    case 6 => assert DESCRIPTORS[6].1 == PushOneLeftDeltaZeroRightNonZero;
    case 7 => assert DESCRIPTORS[7].1 == PushOneLeftDeltaOneRightZero;
  }

  lemma PlaceInTable1(op: FieldOp)
    requires 8 <= PlaceOf(op) < 16
    ensures DESCRIPTORS[PlaceOf(op)].1 == op
  {
    match PlaceOf(op)
    case 8 => assert DESCRIPTORS[8].1 == PushOneLeftDeltaOneRightNonZero;
    case 9 => assert DESCRIPTORS[9].1 == PushOneLeftDeltaNRightZero;
    case 10 => assert DESCRIPTORS[10].1 == PushOneLeftDeltaNRightNonZero;
    case 11 => assert DESCRIPTORS[11].1 == PushOneLeftDeltaNRightNonZeroPack6Bits;
    case 12 => assert DESCRIPTORS[12].1 == PushOneLeftDeltaNRightNonZeroPack8Bits;
    case 13 => assert DESCRIPTORS[13].1 == PushTwoLeftDeltaZero;
    case 14 => assert DESCRIPTORS[14].1 == PushTwoPack5LeftDeltaZero;
    case 15 => assert DESCRIPTORS[15].1 == PushThreeLeftDeltaZero;
  }

  lemma PlaceInTable2(op: FieldOp)
    requires 16 <= PlaceOf(op) < 24
    ensures DESCRIPTORS[PlaceOf(op)].1 == op
  {
    match PlaceOf(op)
    case 16 => assert DESCRIPTORS[16].1 == PushThreePack5LeftDeltaZero;
    case 17 => assert DESCRIPTORS[17].1 == PushTwoLeftDeltaOne;
    case 18 => assert DESCRIPTORS[18].1 == PushTwoPack5LeftDeltaOne;
    case 19 => assert DESCRIPTORS[19].1 == PushThreeLeftDeltaOne;
    case 20 => assert DESCRIPTORS[20].1 == PushThreePack5LeftDeltaOne;
    case 21 => assert DESCRIPTORS[21].1 == PushTwoLeftDeltaN;
    case 22 => assert DESCRIPTORS[22].1 == PushTwoPack5LeftDeltaN;
    case 23 => assert DESCRIPTORS[23].1 == PushThreeLeftDeltaN;
  }

  lemma PlaceInTable3(op: FieldOp)
    requires 24 <= PlaceOf(op) < 32
    ensures DESCRIPTORS[PlaceOf(op)].1 == op
  {
    match PlaceOf(op)
    case 24 => assert DESCRIPTORS[24].1 == PushThreePack5LeftDeltaN;
    case 25 => assert DESCRIPTORS[25].1 == PushN;
    case 26 => assert DESCRIPTORS[26].1 == PushNAndNonTopographical;
    case 27 => assert DESCRIPTORS[27].1 == PopOnePlusOne;
    case 28 => assert DESCRIPTORS[28].1 == PopOnePlusN;
    case 29 => assert DESCRIPTORS[29].1 == PopAllButOnePlusOne;
    case 30 => assert DESCRIPTORS[30].1 == PopAllButOnePlusN;
    case 31 => assert DESCRIPTORS[31].1 == PopAllButOnePlusNPack3Bits;
  }

  lemma PlaceInTable4(op: FieldOp)
    requires 32 <= PlaceOf(op) < 40
    ensures DESCRIPTORS[PlaceOf(op)].1 == op
  {
    match PlaceOf(op)
    case 32 => assert DESCRIPTORS[32].1 == PopAllButOnePlusNPack6Bits;
    case 33 => assert DESCRIPTORS[33].1 == PopNPlusOne;
    case 34 => assert DESCRIPTORS[34].1 == PopNPlusN;
    case 35 => assert DESCRIPTORS[35].1 == PopNAndNonTopographical;
    case 36 => assert DESCRIPTORS[36].1 == NonTopoComplex;
    case 37 => assert DESCRIPTORS[37].1 == NonTopoPenultimatePlusOne;
    case 38 => assert DESCRIPTORS[38].1 == NonTopoComplexPack4Bits;
    case 39 => assert DESCRIPTORS[39].1 == FieldPathEncodeFinish;
  }

  lemma PlaceInTable(op: FieldOp)
    ensures PlaceOf(op) < 40 == |DESCRIPTORS| && DESCRIPTORS[PlaceOf(op)].1 == op
  {
    assert PlaceOf(op) < 40;
    hide PlaceOf;
    var i := PlaceOf(op);
    if i < 8 {
      PlaceInTable0(op);
    } else if i < 16 {
      PlaceInTable1(op);
    } else if i < 24 {
      PlaceInTable2(op);
    } else if i < 32 {
      PlaceInTable3(op);
    } else {
      PlaceInTable4(op);
    }
  }

  lemma FrequentWay0(op: FieldOp)
    requires op.PlusOne? || op.FieldPathEncodeFinish?
    ensures PlaceOf(op) < 40 && FrequentCode(op) == Some(WayTo(PlaceOf(op)))
  {
    hide WayTo;
    InnerWays0();
    Root();
    WayFromParent(0, 78, O, [], [O]);
    WayFromParent(39, 77, O, [I], [I, O]);
  }

  lemma FrequentWay1(op: FieldOp)
    requires op.PushOneLeftDeltaNRightNonZeroPack6Bits? || op.PlusTwo?
    ensures PlaceOf(op) < 40 && FrequentCode(op) == Some(WayTo(PlaceOf(op)))
  {
    hide WayTo;
    InnerWays1();
    WayFromParent(11, 75, I, [I, I, I], [I, I, I, I]);
    WayFromParent(1, 75, O, [I, I, I], [I, I, I, O]);
  }

  lemma FrequentWay2(op: FieldOp)
    requires op.PlusN? || op.PushOneLeftDeltaOneRightNonZero?
    ensures PlaceOf(op) < 40 && FrequentCode(op) == Some(WayTo(PlaceOf(op)))
  {
    hide WayTo;
    InnerWays2();
    WayFromParent(4, 73, O, [I, I, O, I], [I, I, O, I, O]);
    WayFromParent(8, 72, O, [I, I, O, O], [I, I, O, O, O]);
  }

  lemma FrequentWay3(op: FieldOp)
    requires op.PopAllButOnePlusOne? || op.PlusThree?
    ensures PlaceOf(op) < 40 && FrequentCode(op) == Some(WayTo(PlaceOf(op)))
  {
    hide WayTo;
    InnerWays3();
    WayFromParent(29, 70, I, [I, I, O, O, I], [I, I, O, O, I, I]);
    WayFromParent(2, 70, O, [I, I, O, O, I], [I, I, O, O, I, O]);
  }

  lemma FrequentWay4(op: FieldOp)
    requires op.PlusFour? || op.PopAllButOnePlusNPack6Bits?
    ensures PlaceOf(op) < 40 && FrequentCode(op) == Some(WayTo(PlaceOf(op)))
  {
    hide WayTo;
    InnerWays6();
    WayFromParent(3, 67, I, [I, I, O, I, I, I, I], [I, I, O, I, I, I, I, I]);
    WayFromParent(32, 67, O, [I, I, O, I, I, I, I], [I, I, O, I, I, I, I, O]);
  }

  lemma FrequentWay5(op: FieldOp)
    requires op.PushOneLeftDeltaNRightZero? || op.PushOneLeftDeltaOneRightZero?
    ensures PlaceOf(op) < 40 && FrequentCode(op) == Some(WayTo(PlaceOf(op)))
  {
    hide WayTo;
    InnerWays5();
    InnerWays6();
    WayFromParent(9, 66, O, [I, I, O, I, I, I, O], [I, I, O, I, I, I, O, O]);
    WayFromParent(7, 65, O, [I, I, O, I, I, O, I], [I, I, O, I, I, O, I, O]);
  }

  lemma FrequentWay6(op: FieldOp)
    requires op.PushOneLeftDeltaNRightNonZero? || op.PushNAndNonTopographical?
    ensures PlaceOf(op) < 40 && FrequentCode(op) == Some(WayTo(PlaceOf(op)))
  {
    hide WayTo;
    InnerWays5();
    InnerWays8();
    WayFromParent(10, 64, I, [I, I, O, I, I, O, O], [I, I, O, I, I, O, O, I]);
    WayFromParent(26, 63, I, [I, I, O, I, I, I, O, I], [I, I, O, I, I, I, O, I, I]);
  }

  lemma FrequentWay7(op: FieldOp)
    requires op.PopAllButOnePlusNPack3Bits? || op.NonTopoPenultimatePlusOne?
    ensures PlaceOf(op) < 40 && FrequentCode(op) == Some(WayTo(PlaceOf(op)))
  {
    hide WayTo;
    InnerWays7();
    InnerWays8();
    WayFromParent(31, 63, O, [I, I, O, I, I, I, O, I], [I, I, O, I, I, I, O, I, O]);
    WayFromParent(37, 62, I, [I, I, O, I, I, O, I, I], [I, I, O, I, I, O, I, I, I]);
  }

  lemma FrequentWay8(op: FieldOp)
    requires op.PushOneLeftDeltaNRightNonZeroPack8Bits? || op.PopAllButOnePlusN?
    ensures PlaceOf(op) < 40 && FrequentCode(op) == Some(WayTo(PlaceOf(op)))
  {
    hide WayTo;
    InnerWays7();
    WayFromParent(12, 62, O, [I, I, O, I, I, O, I, I], [I, I, O, I, I, O, I, I, O]);
    WayFromParent(30, 61, O, [I, I, O, I, I, O, O, O], [I, I, O, I, I, O, O, O, O]);
  }

  lemma FrequentWay9(op: FieldOp)
    requires op.NonTopoComplexPack4Bits? || op.NonTopoComplex?
    ensures PlaceOf(op) < 40 && FrequentCode(op) == Some(WayTo(PlaceOf(op)))
  {
    hide WayTo;
    InnerWays8();
    InnerWays9();
    WayFromParent(38, 60, O, [I, I, O, I, I, O, O, O, I], [I, I, O, I, I, O, O, O, I, O]);
    WayFromParent(36, 59, I, [I, I, O, I, I, O, O, O, I, I], [I, I, O, I, I, O, O, O, I, I, I]);
  }

  lemma FrequentWay(op: FieldOp)
    requires FrequentCode(op).Some?
    ensures PlaceOf(op) < 40 && FrequentCode(op) == Some(WayTo(PlaceOf(op)))
  {
    hide WayTo;
    match op
    case PlusOne => FrequentWay0(op);
    case FieldPathEncodeFinish => FrequentWay0(op);
    case PushOneLeftDeltaNRightNonZeroPack6Bits => FrequentWay1(op);
    case PlusTwo => FrequentWay1(op);
    case PlusN => FrequentWay2(op);
    case PushOneLeftDeltaOneRightNonZero => FrequentWay2(op);
    case PopAllButOnePlusOne => FrequentWay3(op);
    case PlusThree => FrequentWay3(op);
    case PlusFour => FrequentWay4(op);
    case PopAllButOnePlusNPack6Bits => FrequentWay4(op);
    case PushOneLeftDeltaNRightZero => FrequentWay5(op);
    case PushOneLeftDeltaOneRightZero => FrequentWay5(op);
    case PushOneLeftDeltaNRightNonZero => FrequentWay6(op);
    case PushNAndNonTopographical => FrequentWay6(op);
    case PopAllButOnePlusNPack3Bits => FrequentWay7(op);
    case NonTopoPenultimatePlusOne => FrequentWay7(op);
    case PushOneLeftDeltaNRightNonZeroPack8Bits => FrequentWay8(op);
    case PopAllButOnePlusN => FrequentWay8(op);
    case NonTopoComplexPack4Bits => FrequentWay9(op);
    case NonTopoComplex => FrequentWay9(op);
    case _ =>
  }

  function CodeOf(op: FieldOp): BitString
  {
    PlaceInTable(op);
    WayTo(PlaceOf(op))
  }

  /** Each operation has a code in the tree of the decoder, and the frequent ones have these bits. */
  lemma OperationIsRead(op: FieldOp, rest: BitString)
    ensures Walk(HuffmanTree(DESCRIPTORS), CodeOf(op) + rest) == Ok(op, rest)
    ensures FrequentCode(op).Some? ==> CodeOf(op) == FrequentCode(op).value
  {
    hide Walk, HuffmanTree, WayTo, FrequentCode, PlaceOf;
    PlaceInTable(op);
    OperationAt(PlaceOf(op), rest);
    if FrequentCode(op).Some? {
      FrequentWay(op);
    }
  }

  // ---- lists of paths

  /** One operation with its numbers. */
  datatype Step = Step(op: FieldOp, n: seq<int>, each: seq<Option<int>>)

  /** The components after a step, each modulo 256. */
  function Stepped(c: Bytes, step: Step): Bytes
    requires c != [] && Writable(step.op, |c|, step.n, step.each) && Meant(step.op, c, step.n, step.each).Some?
  {
    var d := Meant(step.op, c, step.n, step.each).value;
    seq(|d|, i requires 0 <= i < |d| => d[i] % 256)
  }

  /** From these components on every step is possible, and none is the last operation. */
  predicate Possible(c: Bytes, steps: seq<Step>)
    requires c != []
    decreases |steps|
  {
    steps != [] ==>
      && !steps[0].op.FieldPathEncodeFinish?
      && Writable(steps[0].op, |c|, steps[0].n, steps[0].each)
      && Meant(steps[0].op, c, steps[0].n, steps[0].each).Some?
      && Stepped(c, steps[0]) != [] && Possible(Stepped(c, steps[0]), steps[1..])
  }

  function StepBits(c: Bytes, steps: seq<Step>): BitString
    requires c != [] && Possible(c, steps)
    decreases |steps|
  {
    if steps == [] then CodeOf(FieldPathEncodeFinish)
    else
      CodeOf(steps[0].op) + (Written(steps[0].op, |c|, steps[0].n, steps[0].each)
                             + StepBits(Stepped(c, steps[0]), steps[1..]))
  }

  /** The components after each step. */
  function StepPaths(c: Bytes, steps: seq<Step>): (r: seq<Bytes>)
    requires c != [] && Possible(c, steps)
    ensures |r| == |steps|
    decreases |steps|
  {
    if steps == [] then [] else [Stepped(c, steps[0])] + StepPaths(Stepped(c, steps[0]), steps[1..])
  }

  ghost predicate ShowPaths(ps: seq<Path>, cs: seq<Bytes>)
  {
    |ps| == |cs| && forall i | 0 <= i < |ps| :: Clean(ps[i]) && Components(ps[i]) == cs[i]
  }

  ghost predicate ReadsCodes(tree: Node<FieldOp>)
  {
    forall op: FieldOp, rest: BitString :: Walk(tree, CodeOf(op) + rest) == Ok(op, rest)
  }

  /** What is written for the steps is read as the paths they lead to, and nothing beyond it is read. */
  ghost predicate StepsRead(tree: Node<FieldOp>, p: Path, steps: seq<Step>, room: nat, rest: BitString)
    requires tree.Branch? && Possible(Components(p), steps)
  {
    var r := ReadPaths(tree, p, room, StepBits(Components(p), steps) + rest);
    r.Ok? && r.rest == rest && ShowPaths(r.value, StepPaths(Components(p), steps))
  }

  /** Any steps, written with the codes of the decoder's tree, are read as the paths they lead to. */
  lemma {:induction false} StepsAreRead(tree: Node<FieldOp>, p: Path, steps: seq<Step>, room: nat, rest: BitString)
    requires tree.Branch? && ReadsCodes(tree)
    requires Clean(p) && Possible(Components(p), steps) && |steps| <= room
    ensures StepsRead(tree, p, steps, room, rest)
    decreases |steps|
  {
    hide Walk, HuffmanTree, CodeOf, ReadPaths, ApplyAll, Edits, Written, Meant, Writable;
    var c := Components(p);
    var all := StepBits(c, steps) + rest;
    if steps == [] {
      assert Walk(tree, CodeOf(FieldPathEncodeFinish) + rest) == Ok(FieldPathEncodeFinish, rest);
      PathsFinish(tree, p, room, all, rest);
    } else {
      var step, d := steps[0], Stepped(c, steps[0]);
      var later := StepBits(d, steps[1..]) + rest;
      var args := Written(step.op, |c|, step.n, step.each) + later;
      assert all == CodeOf(step.op) + args;
      assert Walk(tree, CodeOf(step.op) + args) == Ok(step.op, args);
      OperationMeans(step.op, p, step.n, step.each, later);
      var t := ApplyAll(Edits(step.op), p, args).value;
      assert Components(t) == d;
      StepsAreRead(tree, t, steps[1..], room - 1, rest);
      PathsNext(tree, p, room, all, step.op, args, t, later);
      ShownFirst(t, d, ReadPaths(tree, t, room - 1, later).value, StepPaths(d, steps[1..]));
    }
  }

  lemma ShownFirst(p: Path, c: Bytes, ps: seq<Path>, cs: seq<Bytes>)
    requires Clean(p) && Components(p) == c && ShowPaths(ps, cs)
    ensures ShowPaths([p] + ps, [c] + cs)
  {
    hide Clean, Components;
  }

  /** So is any list of steps from the start, over the tree that the decoder builds. */
  lemma DecoderReadsSteps(descriptors: seq<(nat, FieldOp)>, steps: seq<Step>, room: nat, rest: BitString)
    requires |descriptors| == 40 && descriptors == DESCRIPTORS
    requires Possible(Components(START), steps) && |steps| <= room
    ensures var tree := HuffmanTree(descriptors);
      tree.Branch? && StepsRead(tree, START, steps, room, rest)
  {
    hide RowAt, HuffmanTree, Possible, StepsRead, CodeOf, Walk;
    var tree := HuffmanTree(descriptors);
    forall op: FieldOp, more: BitString
      ensures Walk(tree, CodeOf(op) + more) == Ok(op, more)
    {
      OperationIsRead(op, more);
    }
    HuffmanBranch(descriptors);
    StepsAreRead(tree, START, steps, room, rest);
  }
}
