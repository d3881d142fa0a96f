/** What each of the forty operations does to the components of a path, and how its numbers are written: said
    without the programs of edits, and that reading the written numbers does it. */
module FieldPathOps {
  import opened Prelude
  import opened Bits
  import opened FieldPaths

  // ---- what an operation means: components as unbounded numbers

  /** Drops components, adds to the last that stays, pushes others; never fewer than one or more than seven. */
  function Moved(c: seq<int>, dropped: nat, plus: int, pushed: seq<int>): Option<seq<int>>
  {
    if dropped >= |c| || |c| - dropped + |pushed| > 7 then None
    else
      var last := |c| - dropped - 1;
      Some(c[..last] + [c[last] + plus] + pushed)
  }

  /** Drops components, adds `plus` more than is said to those of which something is said, pushes others. */
  function Shifted(c: seq<int>, dropped: nat, each: seq<Option<int>>, plus: int, pushed: seq<int>): Option<seq<int>>
    requires dropped < |c| ==> |each| == |c| - dropped
  {
    if dropped >= |c| || |c| - dropped + |pushed| > 7 then None
    else Some(seq(|each|, i requires 0 <= i < |each| => if each[i].Some? then c[i] + each[i].value + plus else c[i])
              + pushed)
  }

  /** The components after an operation, from those before it and the numbers in the bits. */
  function Meant(op: FieldOp, c: seq<int>, n: seq<int>, each: seq<Option<int>>): Option<seq<int>>
    requires c != [] && Writable(op, |c|, n, each)
  {
    match op
    case PlusOne => Moved(c, 0, 1, [])
    case PlusTwo => Moved(c, 0, 2, [])
    case PlusThree => Moved(c, 0, 3, [])
    case PlusFour => Moved(c, 0, 4, [])
    case PlusN => Moved(c, 0, n[0] + 5, [])
    case PushOneLeftDeltaZeroRightZero => Moved(c, 0, 0, [0])
    case PushOneLeftDeltaZeroRightNonZero => Moved(c, 0, 0, [n[0]])
    case PushOneLeftDeltaOneRightZero => Moved(c, 0, 1, [0])
    case PushOneLeftDeltaOneRightNonZero => Moved(c, 0, 1, [n[0]])
    case PushOneLeftDeltaNRightZero => Moved(c, 0, n[0], [0])
    case PushOneLeftDeltaNRightNonZero => Moved(c, 0, n[0] + 2, [n[1] + 1])
    case PushOneLeftDeltaNRightNonZeroPack6Bits => Moved(c, 0, n[0] + 2, [n[1] + 1])
    case PushOneLeftDeltaNRightNonZeroPack8Bits => Moved(c, 0, n[0] + 2, [n[1] + 1])
    case PushTwoLeftDeltaZero => Moved(c, 0, 0, n)
    case PushTwoPack5LeftDeltaZero => Moved(c, 0, 0, n)
    case PushThreeLeftDeltaZero => Moved(c, 0, 0, n)
    case PushThreePack5LeftDeltaZero => Moved(c, 0, 0, n)
    case PushTwoLeftDeltaOne => Moved(c, 0, 1, n)
    case PushTwoPack5LeftDeltaOne => Moved(c, 0, 1, n)
    case PushThreeLeftDeltaOne => Moved(c, 0, 1, n)
    case PushThreePack5LeftDeltaOne => Moved(c, 0, 1, n)
    case PushTwoLeftDeltaN => Moved(c, 0, n[0] + 2, n[1..])
    case PushTwoPack5LeftDeltaN => Moved(c, 0, n[0] + 2, n[1..])
    case PushThreeLeftDeltaN => Moved(c, 0, n[0] + 2, n[1..])
    case PushThreePack5LeftDeltaN => Moved(c, 0, n[0] + 2, n[1..])
    case PushN => Moved(c, 0, n[0], n[1..])
    case PushNAndNonTopographical => Shifted(c, 0, each, 1, n)
    case PopOnePlusOne => Moved(c, 1, 1, [])
    case PopOnePlusN => Moved(c, 1, n[0] + 1, [])
    case PopAllButOnePlusOne => Moved(c, |c| - 1, 1, [])
    case PopAllButOnePlusN => Moved(c, |c| - 1, n[0] + 1, [])
    case PopAllButOnePlusNPack3Bits => Moved(c, |c| - 1, n[0] + 1, [])
    case PopAllButOnePlusNPack6Bits => Moved(c, |c| - 1, n[0] + 1, [])
    case PopNPlusOne => Moved(c, n[0], 1, [])
    case PopNPlusN => Moved(c, n[0], n[1], [])
    case PopNAndNonTopographical => Shifted(c, n[0], each, 0, [])
    case NonTopoComplex => Shifted(c, 0, each, 0, [])
    case NonTopoPenultimatePlusOne => if |c| < 2 then None else Some(c[|c| - 2 := c[|c| - 2] + 1])
    case NonTopoComplexPack4Bits => Shifted(c, 0, each, -7, [])
    case FieldPathEncodeFinish => Some(c)
  }

  // ---- how the numbers are written

  predicate Within(n: seq<int>, bound: int)
  {
    forall i | 0 <= i < |n| :: 0 <= n[i] < bound
  }

  predicate Word32(v: int) { -0x8000_0000 <= v < 0x8000_0000 }

  predicate Words32(each: seq<Option<int>>)
  {
    forall i | 0 <= i < |each| && each[i].Some? :: Word32(each[i].value)
  }

  predicate Nibbles(each: seq<Option<int>>)
  {
    forall i | 0 <= i < |each| && each[i].Some? :: 0 <= each[i].value < 16
  }

  const U31: int := 0x8000_0000

  /** The numbers an operation takes on a path of `size` components. */
  predicate Writable(op: FieldOp, size: nat, n: seq<int>, each: seq<Option<int>>)
  {
    match op
    case PlusN => |n| == 1 && Within(n, U31)
    case PushOneLeftDeltaZeroRightNonZero => |n| == 1 && Within(n, U31)
    case PushOneLeftDeltaOneRightNonZero => |n| == 1 && Within(n, U31)
    case PushOneLeftDeltaNRightZero => |n| == 1 && Within(n, U31)
    case PushOneLeftDeltaNRightNonZero => |n| == 2 && Within(n, U31)
    case PushOneLeftDeltaNRightNonZeroPack6Bits => |n| == 2 && Within(n, 8)
    case PushOneLeftDeltaNRightNonZeroPack8Bits => |n| == 2 && Within(n, 16)
    case PushTwoLeftDeltaZero => |n| == 2 && Within(n, U31)
    case PushTwoPack5LeftDeltaZero => |n| == 2 && Within(n, 32)
    case PushThreeLeftDeltaZero => |n| == 3 && Within(n, U31)
    case PushThreePack5LeftDeltaZero => |n| == 3 && Within(n, 32)
    case PushTwoLeftDeltaOne => |n| == 2 && Within(n, U31)
    case PushTwoPack5LeftDeltaOne => |n| == 2 && Within(n, 32)
    case PushThreeLeftDeltaOne => |n| == 3 && Within(n, U31)
    case PushThreePack5LeftDeltaOne => |n| == 3 && Within(n, 32)
    case PushTwoLeftDeltaN => |n| == 3 && 0 <= n[0] < U32 && Within(n[1..], U31)
    case PushTwoPack5LeftDeltaN => |n| == 3 && 0 <= n[0] < U32 && Within(n[1..], 32)
    case PushThreeLeftDeltaN => |n| == 4 && 0 <= n[0] < U32 && Within(n[1..], U31)
    case PushThreePack5LeftDeltaN => |n| == 4 && 0 <= n[0] < U32 && Within(n[1..], 32)
    case PushN => 1 <= |n| <= U32 && 0 <= n[0] < U32 && Within(n[1..], U31)
    case PushNAndNonTopographical => |n| < U32 && Within(n, U31) && |each| == size && Words32(each)
    case PopOnePlusN => |n| == 1 && Within(n, U31)
    case PopAllButOnePlusN => |n| == 1 && Within(n, U31)
    case PopAllButOnePlusNPack3Bits => |n| == 1 && Within(n, 8)
    case PopAllButOnePlusNPack6Bits => |n| == 1 && Within(n, 64)
    case PopNPlusOne => |n| == 1 && Within(n, U31)
    case PopNPlusN => |n| == 2 && 0 <= n[0] < U31 && Word32(n[1])
    case PopNAndNonTopographical =>
      |n| == 1 && Within(n, U31) && (n[0] < size ==> |each| == size - n[0]) && Words32(each)
    case NonTopoComplex => n == [] && |each| == size && Words32(each)
    case NonTopoComplexPack4Bits => n == [] && |each| == size && Nibbles(each)
    case _ => n == []
  }

  /** Each with its own prefix for the width. */
  function Prefixed(n: seq<int>): BitString
    requires Within(n, U31)
  {
    if n == [] then [] else EncUbitvarfp(n[0]) + Prefixed(n[1..])
  }

  function Packed(width: nat, n: seq<int>): BitString
    requires forall i | 0 <= i < |n| :: n[i] >= 0
  {
    if n == [] then [] else OfNat(n[0], width) + Packed(width, n[1..])
  }

  /** One bit per component, a set one followed by the number. */
  function EachSigned(each: seq<Option<int>>): BitString
  {
    if each == [] then []
    else (if each[0].Some? then [true] + EncVarint32(each[0].value) else [false]) + EachSigned(each[1..])
  }

  function EachNibble(each: seq<Option<int>>): BitString
    requires Nibbles(each)
  {
    if each == [] then []
    else (if each[0].Some? then [true] + OfNat(each[0].value, 4) else [false]) + EachNibble(each[1..])
  }

  function Written(op: FieldOp, size: nat, n: seq<int>, each: seq<Option<int>>): BitString
    requires Writable(op, size, n, each)
  {
    match op
    case PlusN => Prefixed(n)
    case PushOneLeftDeltaZeroRightNonZero => Prefixed(n)
    case PushOneLeftDeltaOneRightNonZero => Prefixed(n)
    case PushOneLeftDeltaNRightZero => Prefixed(n)
    case PushOneLeftDeltaNRightNonZero => Prefixed(n)
    case PushOneLeftDeltaNRightNonZeroPack6Bits => Packed(3, n)
    case PushOneLeftDeltaNRightNonZeroPack8Bits => Packed(4, n)
    case PushTwoLeftDeltaZero => Prefixed(n)
    case PushTwoPack5LeftDeltaZero => Packed(5, n)
    case PushThreeLeftDeltaZero => Prefixed(n)
    case PushThreePack5LeftDeltaZero => Packed(5, n)
    case PushTwoLeftDeltaOne => Prefixed(n)
    case PushTwoPack5LeftDeltaOne => Packed(5, n)
    case PushThreeLeftDeltaOne => Prefixed(n)
    case PushThreePack5LeftDeltaOne => Packed(5, n)
    case PushTwoLeftDeltaN => EncUbitvar(n[0]) + Prefixed(n[1..])
    case PushTwoPack5LeftDeltaN => EncUbitvar(n[0]) + Packed(5, n[1..])
    case PushThreeLeftDeltaN => EncUbitvar(n[0]) + Prefixed(n[1..])
    case PushThreePack5LeftDeltaN => EncUbitvar(n[0]) + Packed(5, n[1..])
    case PushN => EncUbitvar(|n| - 1) + EncUbitvar(n[0]) + Prefixed(n[1..])
    case PushNAndNonTopographical => EachSigned(each) + EncUbitvar(|n|) + Prefixed(n)
    case PopOnePlusN => Prefixed(n)
    case PopAllButOnePlusN => Prefixed(n)
    case PopAllButOnePlusNPack3Bits => Packed(3, n)
    case PopAllButOnePlusNPack6Bits => Packed(6, n)
    case PopNPlusOne => Prefixed(n)
    case PopNPlusN => EncUbitvarfp(n[0]) + EncVarint32(n[1])
    case PopNAndNonTopographical => Prefixed(n) + EachSigned(each)
    case NonTopoComplex => EachSigned(each)
    case NonTopoComplexPack4Bits => EachNibble(each)
    case _ => []
  }

  // ---- the same for the edits that make up an operation

  /** `p` holds these components, each modulo 256. */
  ghost predicate Shows(p: Path, c: seq<int>)
  {
    Clean(p) && |c| == p.last + 1 && forall i | 0 <= i < |c| :: p.data[i] == c[i] % 256
  }

  /** The numbers of one edit. */
  datatype Arg = Arg(n: seq<int>, each: seq<Option<int>>)

  predicate AmountFits(a: Amount, v: int)
  {
    match a
    case Zero => v == 0
    case Var => 0 <= v < U32
    case VarFp => 0 <= v < U31
    case Pack(width) => 0 <= v < Pow2(width)
    case Signed => Word32(v)
  }

  function AmountBits(a: Amount, v: int): BitString
    requires AmountFits(a, v)
  {
    match a
    case Zero => []
    case Var => EncUbitvar(v)
    case VarFp => EncUbitvarfp(v)
    case Pack(width) => OfNat(v, width)
    case Signed => EncVarint32(v)
  }

  lemma AmountRoundTrip(a: Amount, v: int, rest: BitString)
    requires AmountFits(a, v)
    ensures ReadAmount(a, AmountBits(a, v) + rest) == Ok(v, rest)
  {
    hide ReadUbitvar, ReadUbitvarfp, ReadVarint32, ReadUbit, EncUbitvar, EncUbitvarfp, EncVarint32, OfNat;
    match a
    case Zero => assert [] + rest == rest;
    case Var => UbitvarRoundTrip(v, rest);
    case VarFp => UbitvarfpRoundTrip(v, rest);
    case Pack(width) => UbitRoundTrip(v, width, rest);
    case Signed => Varint32RoundTrip(v, rest);
  }

  predicate EachFits(a: Amount, each: seq<Option<int>>)
  {
    forall i | 0 <= i < |each| && each[i].Some? :: AmountFits(a, each[i].value)
  }

  function EachBits(a: Amount, each: seq<Option<int>>): BitString
    requires EachFits(a, each)
  {
    if each == [] then []
    else (if each[0].Some? then [true] + AmountBits(a, each[0].value) else [false]) + EachBits(a, each[1..])
  }

  predicate EditFits(e: Edit, size: nat, arg: Arg)
  {
    match e
    case IncLast(a, _) => |arg.n| == 1 && AmountFits(a, arg.n[0])
    case Push(a, _) => |arg.n| == 1 && AmountFits(a, arg.n[0])
    case Pop(a, _) => |arg.n| == 1 && AmountFits(a, arg.n[0]) && arg.n[0] >= 0
    case PopAllButOne => arg.n == []
    case IncEach(a, _) => arg.n == [] && |arg.each| == size && EachFits(a, arg.each)
    case IncPenultimate => arg.n == []
    case PushCounted(inc) =>
      if inc then 1 <= |arg.n| <= U32 && 0 <= arg.n[0] < U32 && Within(arg.n[1..], U31)
      else |arg.n| < U32 && Within(arg.n, U31)
  }

  function EditBits(e: Edit, size: nat, arg: Arg): BitString
    requires EditFits(e, size, arg)
  {
    match e
    case IncLast(a, _) => AmountBits(a, arg.n[0])
    case Push(a, _) => AmountBits(a, arg.n[0])
    case Pop(a, _) => AmountBits(a, arg.n[0])
    case PopAllButOne => []
    case IncEach(a, _) => EachBits(a, arg.each)
    case IncPenultimate => []
    case PushCounted(inc) =>
      if inc then EncUbitvar(|arg.n| - 1) + EncUbitvar(arg.n[0]) + Prefixed(arg.n[1..])
      else EncUbitvar(|arg.n|) + Prefixed(arg.n)
  }

  function Pushed(c: seq<int>, more: seq<int>): Option<seq<int>>
  {
    if |c| + |more| > 7 then None else Some(c + more)
  }

  function AddLast(c: seq<int>, v: int): seq<int>
    requires c != []
  {
    c[|c| - 1 := c[|c| - 1] + v]
  }

  /** The first `k` of the increments. */
  function AddEach(c: seq<int>, each: seq<Option<int>>, plus: int, k: nat): (r: seq<int>)
    requires |each| == |c|
    ensures |r| == |c|
  {
    seq(|c|, i requires 0 <= i < |c| => if i < k && each[i].Some? then c[i] + each[i].value + plus else c[i])
  }

  function EditEffect(e: Edit, c: seq<int>, arg: Arg): Option<seq<int>>
    requires c != [] && EditFits(e, |c|, arg)
  {
    match e
    case IncLast(_, plus) => Some(AddLast(c, arg.n[0] + plus))
    case Push(_, plus) => Pushed(c, [arg.n[0] + plus])
    case Pop(_, extra) => if arg.n[0] + extra >= |c| then None else Some(c[..|c| - arg.n[0] - extra])
    case PopAllButOne => Some(c[..1])
    case IncEach(_, plus) => Some(AddEach(c, arg.each, plus, |c|))
    case IncPenultimate => if |c| < 2 then None else Some(c[|c| - 2 := c[|c| - 2] + 1])
    case PushCounted(inc) => if inc then Pushed(AddLast(c, arg.n[0]), arg.n[1..]) else Pushed(c, arg.n)
  }

  // ---- one edit

  /** Reading gives a path that shows the components, or fails where there are none. */
  ghost predicate Gives(r: Read<Path>, c: Option<seq<int>>, rest: BitString)
  {
    match c
    case Some(d) => r.Ok? && r.rest == rest && Shows(r.value, d)
    case None => r.Fail?
  }

  lemma IncAtShows(p: Path, c: seq<int>, i: nat, v: int)
    requires Shows(p, c) && i < |c|
    ensures Shows(IncAt(p, i, v), c[i := c[i] + v])
  {
    assert (c[i] % 256 + v) % 256 == (c[i] + v) % 256;
  }

  lemma PushShows(p: Path, c: seq<int>, v: int, b: BitString)
    requires Shows(p, c)
    ensures Gives(PushValue(p, v, b), Pushed(c, [v]), b)
  {
  }

  lemma PopShows(p: Path, c: seq<int>, k: nat, b: BitString)
    requires Shows(p, c)
    ensures if k >= |c| then PopMany(p, k) == None else PopMany(p, k).Some? && Shows(PopMany(p, k).value, c[..|c| - k])
  {
    PopManyEffect(p, k);
    if k < |c| {
      var q := PopMany(p, k).value;
      forall i | 0 <= i < |c| - k
        ensures q.data[i] == c[i] % 256
      {
        assert q.data[i] == q.data[..q.last + 1][i] && p.data[i] == p.data[..q.last + 1][i];
      }
    }
  }

  lemma {:induction false} PushTimesShows(p: Path, c: seq<int>, n: seq<int>, rest: BitString)
    requires Shows(p, c) && Within(n, U31)
    ensures Gives(PushTimes(|n|, p, Prefixed(n) + rest), Pushed(c, n), rest)
    decreases |n|
  {
    hide ReadUbitvarfp, EncUbitvarfp, Shows;
    var b := Prefixed(n) + rest;
    if n == [] {
      assert b == rest && c + n == c;
      ShownSize(p, c);
    } else {
      var more := Prefixed(n[1..]) + rest;
      assert b == EncUbitvarfp(n[0]) + more;
      UbitvarfpRoundTrip(n[0], more);
      PushShows(p, c, n[0], more);
      if |c| < 7 {
        PushTimesShows(PushValue(p, n[0], more).value, c + [n[0]], n[1..], rest);
        assert c + [n[0]] + n[1..] == c + n;
      }
    }
  }

  lemma ShownSize(p: Path, c: seq<int>)
    requires Shows(p, c)
    ensures 1 <= |c| <= 7 && p.last == |c| - 1
  {
  }

  lemma NextSkipped(i: nat, a: Amount, plus: int, p: Path, b: BitString, more: BitString)
    requires i <= p.last && ReadBool(b) == Ok(false, more)
    ensures IncEachFrom(i, a, plus, p, b) == IncEachFrom(i + 1, a, plus, p, more)
  {
    hide ReadBool;
  }

  lemma NextAdded(i: nat, a: Amount, plus: int, p: Path, b: BitString, b1: BitString, v: int, more: BitString)
    requires i <= p.last && ReadBool(b) == Ok(true, b1) && ReadAmount(a, b1) == Ok(v, more)
    ensures IncEachFrom(i, a, plus, p, b) == IncEachFrom(i + 1, a, plus, IncAt(p, i, v + plus), more)
  {
    hide ReadBool, ReadAmount, IncAt;
  }

  lemma EachDone(i: nat, a: Amount, plus: int, p: Path, b: BitString)
    requires i > p.last
    ensures IncEachFrom(i, a, plus, p, b) == Ok(p, b)
  {
  }

  lemma EachBitsNext(a: Amount, each: seq<Option<int>>, i: nat, rest: BitString)
    requires i < |each| && EachFits(a, each)
    ensures EachFits(a, each[i..]) && EachFits(a, each[i + 1..])
    ensures var more := EachBits(a, each[i + 1..]) + rest;
      && (each[i].None? ==> EachBits(a, each[i..]) + rest == [false] + more)
      && (each[i].Some? ==>
            && AmountFits(a, each[i].value)
            && EachBits(a, each[i..]) + rest == [true] + (AmountBits(a, each[i].value) + more))
  {
    hide AmountBits, AmountFits;
    assert each[i..][0] == each[i] && each[i..][1..] == each[i + 1..];
  }

  lemma AddEachNext(c: seq<int>, each: seq<Option<int>>, plus: int, i: nat)
    requires i < |c| == |each|
    ensures var d := AddEach(c, each, plus, i);
      && (each[i].None? ==> AddEach(c, each, plus, i + 1) == d)
      && (each[i].Some? ==> AddEach(c, each, plus, i + 1) == d[i := d[i] + (each[i].value + plus)])
  {
  }

  lemma {:induction false} EachShows(i: nat, a: Amount, plus: int, p: Path, c: seq<int>, each: seq<Option<int>>,
      rest: BitString)
    requires |each| == |c| && i <= |c| && EachFits(a, each) && EachFits(a, each[i..])
    requires Shows(p, AddEach(c, each, plus, i))
    ensures Gives(IncEachFrom(i, a, plus, p, EachBits(a, each[i..]) + rest), Some(AddEach(c, each, plus, |c|)), rest)
    decreases |c| - i
  {
    hide ReadAmount, AmountBits, AmountFits, ReadBool, Shows, IncEachFrom, EachFits, AddEach, IncAt;
    var d, b := AddEach(c, each, plus, i), EachBits(a, each[i..]) + rest;
    ShownSize(p, d);
    if i == |c| {
      assert b == rest;
      EachDone(i, a, plus, p, b);
    } else {
      EachBitsNext(a, each, i, rest);
      AddEachNext(c, each, plus, i);
      hide EachBits;
      var more := EachBits(a, each[i + 1..]) + rest;
      match each[i]
      case None =>
        BoolRoundTrip(false, more);
        NextSkipped(i, a, plus, p, b, more);
        EachShows(i + 1, a, plus, p, c, each, rest);
      case Some(v) =>
        BoolRoundTrip(true, AmountBits(a, v) + more);
        AmountRoundTrip(a, v, more);
        NextAdded(i, a, plus, p, b, AmountBits(a, v) + more, v, more);
        IncAtShows(p, d, i, v + plus);
        EachShows(i + 1, a, plus, IncAt(p, i, v + plus), c, each, rest);
    }
  }

  lemma EditMeans(e: Edit, p: Path, c: seq<int>, arg: Arg, rest: BitString)
    requires Shows(p, c) && EditFits(e, |c|, arg)
    ensures Gives(Apply(e, p, EditBits(e, |c|, arg) + rest), EditEffect(e, c, arg), rest)
  {
    hide Shows, ReadAmount, AmountBits, AmountFits, PopMany, IncEachFrom, PushTimes, ReadUbitvar, EncUbitvar, Prefixed;
    ShownSize(p, c);
    var b := EditBits(e, |c|, arg) + rest;
    match e
    case IncLast(a, plus) =>
      AmountRoundTrip(a, arg.n[0], rest);
      IncAtShows(p, c, p.last, arg.n[0] + plus);
    case Push(a, plus) =>
      AmountRoundTrip(a, arg.n[0], rest);
      PushShows(p, c, arg.n[0] + plus, rest);
    case Pop(a, extra) =>
      AmountRoundTrip(a, arg.n[0], rest);
      PopShows(p, c, arg.n[0] + extra, rest);
    case PopAllButOne =>
      assert b == rest;
      PopShows(p, c, p.last, rest);
    case IncEach(a, plus) =>
      assert AddEach(c, arg.each, plus, 0) == c && arg.each[0..] == arg.each;
      EachShows(0, a, plus, p, c, arg.each, rest);
    case IncPenultimate =>
      assert b == rest;
      if |c| >= 2 { IncAtShows(p, c, p.last - 1, 1); }
    case PushCounted(inc) => CountedMeans(inc, p, c, arg, rest);
  }

  lemma CountedMeans(inc: bool, p: Path, c: seq<int>, arg: Arg, rest: BitString)
    requires Shows(p, c) && EditFits(PushCounted(inc), |c|, arg)
    ensures Gives(Apply(PushCounted(inc), p, EditBits(PushCounted(inc), |c|, arg) + rest),
                  EditEffect(PushCounted(inc), c, arg), rest)
  {
    hide Shows, PushTimes, ReadUbitvar, EncUbitvar, Prefixed;
    ShownSize(p, c);
    var b := EditBits(PushCounted(inc), |c|, arg) + rest;
    if inc {
      var more := Prefixed(arg.n[1..]) + rest;
      assert b == EncUbitvar(|arg.n| - 1) + (EncUbitvar(arg.n[0]) + more);
      UbitvarRoundTrip(|arg.n| - 1, EncUbitvar(arg.n[0]) + more);
      UbitvarRoundTrip(arg.n[0], more);
      IncAtShows(p, c, p.last, arg.n[0]);
      PushTimesShows(IncAt(p, p.last, arg.n[0]), AddLast(c, arg.n[0]), arg.n[1..], rest);
    } else {
      assert b == EncUbitvar(|arg.n|) + (Prefixed(arg.n) + rest);
      UbitvarRoundTrip(|arg.n|, Prefixed(arg.n) + rest);
      PushTimesShows(p, c, arg.n, rest);
    }
  }

  // ---- the edits of an operation

  predicate EditsFit(es: seq<Edit>, c: seq<int>, args: seq<Arg>)
    requires c != []
    decreases |es|
  {
    |args| == |es| &&
    (es != [] ==>
      && EditFits(es[0], |c|, args[0])
      && match EditEffect(es[0], c, args[0])
         case Some(d) => d != [] && EditsFit(es[1..], d, args[1..])
         case None => true)
  }

  /** What is written up to the edit that fails, if one does. */
  function EditsBits(es: seq<Edit>, c: seq<int>, args: seq<Arg>): BitString
    requires c != [] && EditsFit(es, c, args)
    decreases |es|
  {
    if es == [] then []
    else
      EditBits(es[0], |c|, args[0])
      + match EditEffect(es[0], c, args[0])
        case Some(d) => EditsBits(es[1..], d, args[1..])
        case None => []
  }

  function EditsEffect(es: seq<Edit>, c: seq<int>, args: seq<Arg>): Option<seq<int>>
    requires c != [] && EditsFit(es, c, args)
    decreases |es|
  {
    if es == [] then Some(c)
    else
      match EditEffect(es[0], c, args[0])
      case Some(d) => EditsEffect(es[1..], d, args[1..])
      case None => None
  }

  lemma {:induction false} EditsMean(es: seq<Edit>, p: Path, c: seq<int>, args: seq<Arg>, rest: BitString)
    requires Shows(p, c) && c != [] && EditsFit(es, c, args)
    ensures Gives(ApplyAll(es, p, EditsBits(es, c, args) + rest), EditsEffect(es, c, args), rest)
    decreases |es|
  {
    hide Shows, Apply, EditBits, EditEffect, EditFits;
    var b := EditsBits(es, c, args) + rest;
    if es == [] {
      assert b == rest;
    } else {
      match EditEffect(es[0], c, args[0])
      case Some(d) =>
        var more := EditsBits(es[1..], d, args[1..]) + rest;
        assert b == EditBits(es[0], |c|, args[0]) + more;
        EditMeans(es[0], p, c, args[0], more);
        EditsMean(es[1..], Apply(es[0], p, b).value, d, args[1..], rest);
      case None =>
        assert b == EditBits(es[0], |c|, args[0]) + rest;
        EditMeans(es[0], p, c, args[0], rest);
    }
  }

  // ---- each operation is its edits

  /** With these numbers the edits have this effect and are written as `bits`, or start so when one fails. */
  ghost predicate Makes(es: seq<Edit>, c: seq<int>, args: seq<Arg>, bits: BitString, effect: Option<seq<int>>)
    requires c != []
  {
    && EditsFit(es, c, args) && EditsEffect(es, c, args) == effect
    && (if effect.Some? then EditsBits(es, c, args) == bits else EditsBits(es, c, args) <= bits)
  }

  lemma MakesNone(c: seq<int>)
    requires c != []
    ensures Makes([], c, [], [], Some(c))
  {
  }

  /** An edit in front of others. */
  lemma MakesMore(e: Edit, arg: Arg, c: seq<int>, es: seq<Edit>, args: seq<Arg>, bits: BitString,
      effect: Option<seq<int>>)
    requires c != [] && EditFits(e, |c|, arg) && |args| == |es|
    requires match EditEffect(e, c, arg)
             case Some(d) => d != [] && Makes(es, d, args, bits, effect)
             case None => effect == None
    ensures Makes([e] + es, c, [arg] + args, EditBits(e, |c|, arg) + bits, effect)
  {
    hide EditBits, EditEffect, EditFits;
    assert ([e] + es)[1..] == es && ([arg] + args)[1..] == args;
    match EditEffect(e, c, arg)
    case Some(d) =>
    case None => assert EditBits(e, |c|, arg) + [] == EditBits(e, |c|, arg);
  }

  lemma MakesOne(e: Edit, arg: Arg, c: seq<int>)
    requires c != [] && EditFits(e, |c|, arg)
    requires EditEffect(e, c, arg).Some? ==> EditEffect(e, c, arg).value != []
    ensures Makes([e], c, [arg], EditBits(e, |c|, arg), EditEffect(e, c, arg))
  {
    hide EditBits, EditEffect, EditFits, Makes;
    match EditEffect(e, c, arg)
    case Some(d) => MakesNone(d); MakesMore(e, arg, c, [], [], [], Some(d)); Alone(e, arg, EditBits(e, |c|, arg));
    case None => MakesMore(e, arg, c, [], [], [], None); Alone(e, arg, EditBits(e, |c|, arg));
  }

  lemma Alone(e: Edit, arg: Arg, bits: BitString)
    ensures [e] + [] == [e] && [arg] + [] == [arg] && bits + [] == bits
  {
  }

  function One(v: int): Arg { Arg([v], []) }

  function PushEdits(a: Amount, k: nat): seq<Edit>
  {
    if k == 0 then [] else [Push(a, 0)] + PushEdits(a, k - 1)
  }

  function PushArgs(n: seq<int>): (r: seq<Arg>)
    ensures |r| == |n|
  {
    if n == [] then [] else [One(n[0])] + PushArgs(n[1..])
  }

  function AmountsBits(a: Amount, n: seq<int>): BitString
    requires forall i | 0 <= i < |n| :: AmountFits(a, n[i])
  {
    if n == [] then [] else AmountBits(a, n[0]) + AmountsBits(a, n[1..])
  }

  lemma {:induction false} PushEditsSize(a: Amount, k: nat)
    ensures |PushEdits(a, k)| == k
  {
    if k > 0 { PushEditsSize(a, k - 1); }
  }

  lemma {:induction false} MakesPushes(a: Amount, n: seq<int>, c: seq<int>)
    requires 1 <= |c| <= 7 && forall i | 0 <= i < |n| :: AmountFits(a, n[i])
    ensures Makes(PushEdits(a, |n|), c, PushArgs(n), AmountsBits(a, n), Pushed(c, n))
    decreases |n|
  {
    hide AmountFits, AmountBits, Makes;
    PushEditsSize(a, |n|);
    if n == [] {
      MakesNone(c);
      assert c + n == c;
    } else {
      var more := n[1..];
      PushEditsSize(a, |more|);
      if |c| < 7 {
        MakesPushes(a, more, c + [n[0]]);
        assert c + [n[0]] + more == c + n;
        Trimmed(n[0]);
      }
      MakesMore(Push(a, 0), One(n[0]), c, PushEdits(a, |more|), PushArgs(more), AmountsBits(a, more), Pushed(c, n));
    }
  }

  lemma Trimmed(v: int)
    ensures [v + 0] == [v]
  {
  }

  lemma {:induction false} PrefixedAreAmounts(n: seq<int>)
    requires Within(n, U31)
    ensures (forall i | 0 <= i < |n| :: AmountFits(VarFp, n[i])) && AmountsBits(VarFp, n) == Prefixed(n)
  {
    if n != [] { PrefixedAreAmounts(n[1..]); }
  }

  lemma {:induction false} PackedAreAmounts(width: nat, n: seq<int>)
    requires Within(n, Pow2(width))
    ensures forall i | 0 <= i < |n| :: AmountFits(Pack(width), n[i])
    ensures AmountsBits(Pack(width), n) == Packed(width, n)
  {
    hide OfNat;
    if n != [] { PackedAreAmounts(width, n[1..]); }
  }

  /** Left delta, then pushes. */
  lemma MakesLeftPushes(a: Amount, plus: int, v: int, b: Amount, n: seq<int>, c: seq<int>)
    requires 1 <= |c| <= 7 && AmountFits(a, v) && forall i | 0 <= i < |n| :: AmountFits(b, n[i])
    ensures Makes([IncLast(a, plus)] + PushEdits(b, |n|), c, [One(v)] + PushArgs(n),
                  AmountBits(a, v) + AmountsBits(b, n), Moved(c, 0, v + plus, n))
  {
    hide AmountFits, AmountBits, AmountsBits, Makes;
    PushEditsSize(b, |n|);
    var d := AddLast(c, v + plus);
    assert d == c[..|c| - 1] + [c[|c| - 1] + (v + plus)];
    MakesPushes(b, n, d);
    MakesMore(IncLast(a, plus), One(v), c, PushEdits(b, |n|), PushArgs(n), AmountsBits(b, n), Moved(c, 0, v + plus, n));
  }

  /** Left and right delta. */
  lemma MakesLeftRight(a: Amount, plus: int, v: int, b: Amount, more: int, w: int, c: seq<int>)
    requires 1 <= |c| <= 7 && AmountFits(a, v) && AmountFits(b, w)
    ensures Makes([IncLast(a, plus), Push(b, more)], c, [One(v), One(w)], AmountBits(a, v) + AmountBits(b, w),
                  Moved(c, 0, v + plus, [w + more]))
  {
    hide AmountFits, AmountBits, Makes;
    var d := AddLast(c, v + plus);
    assert d == c[..|c| - 1] + [c[|c| - 1] + (v + plus)];
    MakesOne(Push(b, more), One(w), d);
    MakesMore(IncLast(a, plus), One(v), c, [Push(b, more)], [One(w)], AmountBits(b, w),
              Moved(c, 0, v + plus, [w + more]));
    assert [IncLast(a, plus)] + [Push(b, more)] == [IncLast(a, plus), Push(b, more)];
    assert [One(v)] + [One(w)] == [One(v), One(w)];
  }

  lemma MakesLeft(a: Amount, plus: int, v: int, c: seq<int>)
    requires 1 <= |c| <= 7 && AmountFits(a, v)
    ensures Makes([IncLast(a, plus)], c, [One(v)], AmountBits(a, v), Moved(c, 0, v + plus, []))
  {
    hide AmountFits, AmountBits, Makes;
    assert AddLast(c, v + plus) == c[..|c| - 1] + [c[|c| - 1] + (v + plus)] + [];
    MakesOne(IncLast(a, plus), One(v), c);
  }

  lemma MakesRight(b: Amount, w: int, c: seq<int>)
    requires 1 <= |c| <= 7 && AmountFits(b, w)
    ensures Makes([Push(b, 0)], c, [One(w)], AmountBits(b, w), Moved(c, 0, 0, [w]))
  {
    hide AmountFits, AmountBits, Makes;
    assert c[..|c| - 1] + [c[|c| - 1] + 0] == c;
    Trimmed(w);
    MakesOne(Push(b, 0), One(w), c);
  }

  lemma MovedCut(c: seq<int>, k: nat, plus: int)
    requires k < |c| <= 7
    ensures Moved(c[..|c| - k], 0, plus, []) == Moved(c, k, plus, [])
  {
    assert c[..|c| - k][..|c| - k - 1] == c[..|c| - k - 1];
  }

  /** Dropping, then a delta. */
  lemma MakesPop(a: Amount, extra: nat, k: int, b: Amount, plus: int, v: int, c: seq<int>)
    requires 1 <= |c| <= 7 && AmountFits(a, k) && k >= 0 && AmountFits(b, v)
    ensures Makes([Pop(a, extra), IncLast(b, plus)], c, [One(k), One(v)], AmountBits(a, k) + AmountBits(b, v),
                  Moved(c, k + extra, v + plus, []))
  {
    hide AmountFits, AmountBits, Makes;
    if k + extra < |c| {
      MakesLeft(b, plus, v, c[..|c| - k - extra]);
      MovedCut(c, k + extra, v + plus);
    }
    MakesMore(Pop(a, extra), One(k), c, [IncLast(b, plus)], [One(v)], AmountBits(b, v),
              Moved(c, k + extra, v + plus, []));
    assert [Pop(a, extra)] + [IncLast(b, plus)] == [Pop(a, extra), IncLast(b, plus)];
    assert [One(k)] + [One(v)] == [One(k), One(v)];
  }

  lemma MakesPopAll(b: Amount, plus: int, v: int, c: seq<int>)
    requires 1 <= |c| <= 7 && AmountFits(b, v)
    ensures Makes([PopAllButOne, IncLast(b, plus)], c, [Arg([], []), One(v)], AmountBits(b, v),
                  Moved(c, |c| - 1, v + plus, []))
  {
    hide AmountFits, AmountBits, Makes;
    MakesLeft(b, plus, v, c[..1]);
    MovedCut(c, |c| - 1, v + plus);
    MakesMore(PopAllButOne, Arg([], []), c, [IncLast(b, plus)], [One(v)], AmountBits(b, v),
              Moved(c, |c| - 1, v + plus, []));
    assert [PopAllButOne] + [IncLast(b, plus)] == [PopAllButOne, IncLast(b, plus)];
    assert [Arg([], [])] + [One(v)] == [Arg([], []), One(v)];
    assert [] + AmountBits(b, v) == AmountBits(b, v);
  }

  // ---- per component

  lemma {:induction false} SignedIsEach(each: seq<Option<int>>)
    requires Words32(each)
    ensures EachFits(Signed, each) && EachBits(Signed, each) == EachSigned(each)
  {
    hide EncVarint32;
    if each != [] { SignedIsEach(each[1..]); }
  }

  lemma {:induction false} NibbleIsEach(each: seq<Option<int>>)
    requires Nibbles(each)
    ensures EachFits(Pack(4), each) && EachBits(Pack(4), each) == EachNibble(each)
  {
    var four := 4;
    assert Pow2(four) == 16;
    hide OfNat, Pow2;
    if each != [] { NibbleIsEach(each[1..]); }
  }

  lemma ShiftedIsAdded(c: seq<int>, each: seq<Option<int>>, plus: int)
    requires |each| == |c|
    ensures AddEach(c, each, plus, |c|)
      == seq(|each|, i requires 0 <= i < |each| => if each[i].Some? then c[i] + each[i].value + plus else c[i])
  {
  }

  lemma MakesEach(a: Amount, plus: int, each: seq<Option<int>>, c: seq<int>)
    requires 1 <= |c| <= 7 && |each| == |c| && EachFits(a, each)
    ensures Makes([IncEach(a, plus)], c, [Arg([], each)], EachBits(a, each), Shifted(c, 0, each, plus, []))
  {
    hide AmountFits, AmountBits, EachFits, EachBits, Makes;
    ShiftedIsAdded(c, each, plus);
    assert AddEach(c, each, plus, |c|) + [] == AddEach(c, each, plus, |c|);
    MakesOne(IncEach(a, plus), Arg([], each), c);
  }

  lemma MakesEachPushes(each: seq<Option<int>>, n: seq<int>, c: seq<int>)
    requires 1 <= |c| <= 7 && |each| == |c| && EachFits(Signed, each) && |n| < U32 && Within(n, U31)
    ensures Makes([IncEach(Signed, 1), PushCounted(false)], c, [Arg([], each), Arg(n, [])],
                  EachBits(Signed, each) + (EncUbitvar(|n|) + Prefixed(n)), Shifted(c, 0, each, 1, n))
  {
    hide AmountFits, AmountBits, EachFits, EachBits, Makes, EncUbitvar, Prefixed;
    ShiftedIsAdded(c, each, 1);
    var d := AddEach(c, each, 1, |c|);
    MakesOne(PushCounted(false), Arg(n, []), d);
    MakesMore(IncEach(Signed, 1), Arg([], each), c, [PushCounted(false)], [Arg(n, [])], EncUbitvar(|n|) + Prefixed(n),
              Shifted(c, 0, each, 1, n));
    assert [IncEach(Signed, 1)] + [PushCounted(false)] == [IncEach(Signed, 1), PushCounted(false)];
    assert [Arg([], each)] + [Arg(n, [])] == [Arg([], each), Arg(n, [])];
  }

  lemma MakesPopEach(k: int, each: seq<Option<int>>, c: seq<int>)
    requires 1 <= |c| <= 7 && 0 <= k < U31 && EachFits(Signed, each) && (k < |c| ==> |each| == |c| - k)
    ensures Makes([Pop(VarFp, 0), IncEach(Signed, 0)], c, [One(k), Arg([], each)],
                  EncUbitvarfp(k) + EachBits(Signed, each), Shifted(c, k, each, 0, []))
  {
    hide EachFits, EachBits, Makes, EncUbitvarfp;
    if k < |c| {
      var d := c[..|c| - k];
      MakesEach(Signed, 0, each, d);
      assert Shifted(d, 0, each, 0, []).value == Shifted(c, k, each, 0, []).value;
    }
    assert k - 0 == k;
    MakesMore(Pop(VarFp, 0), One(k), c, [IncEach(Signed, 0)], [Arg([], each)], EachBits(Signed, each),
              Shifted(c, k, each, 0, []));
    assert [Pop(VarFp, 0)] + [IncEach(Signed, 0)] == [Pop(VarFp, 0), IncEach(Signed, 0)];
    assert [One(k)] + [Arg([], each)] == [One(k), Arg([], each)];
  }

  lemma MakesCounted(n: seq<int>, c: seq<int>)
    requires 1 <= |c| <= 7 && 1 <= |n| <= U32 && 0 <= n[0] < U32 && Within(n[1..], U31)
    ensures Makes([PushCounted(true)], c, [Arg(n, [])], EncUbitvar(|n| - 1) + EncUbitvar(n[0]) + Prefixed(n[1..]),
                  Moved(c, 0, n[0], n[1..]))
  {
    hide Makes, EncUbitvar, Prefixed;
    assert AddLast(c, n[0]) == c[..|c| - 1] + [c[|c| - 1] + n[0]];
    MakesOne(PushCounted(true), Arg(n, []), c);
  }

  /** An operation, its numbers as arguments of its edits. */
  ghost predicate IsMade(op: FieldOp, c: seq<int>, n: seq<int>, each: seq<Option<int>>)
    requires c != [] && Writable(op, |c|, n, each)
  {
    exists args :: Makes(Edits(op), c, args, Written(op, |c|, n, each), Meant(op, c, n, each))
  }

  lemma Made(op: FieldOp, c: seq<int>, n: seq<int>, each: seq<Option<int>>, args: seq<Arg>)
    requires c != [] && Writable(op, |c|, n, each)
    requires Makes(Edits(op), c, args, Written(op, |c|, n, each), Meant(op, c, n, each))
    ensures IsMade(op, c, n, each)
  {
  }

  lemma TwoAndThree(a: Amount)
    ensures PushEdits(a, 2) == [Push(a, 0), Push(a, 0)]
    ensures PushEdits(a, 3) == [Push(a, 0), Push(a, 0), Push(a, 0)]
  {
    assert PushEdits(a, 1) == [Push(a, 0)];
  }

  lemma OneNumber(n: seq<int>)
    requires |n| == 1
    ensures n == [n[0]] && n[1..] == []
  {
  }

  lemma TwoNumbers(n: seq<int>)
    requires |n| == 2
    ensures n == [n[0], n[1]] && n[1..] == [n[1]] && n[1..][1..] == []
  {
  }

  lemma NothingElse(b: BitString)
    ensures b + [] == b && [] + b == b
  {
  }

  lemma PrefixedOne(n: seq<int>)
    requires |n| == 1 && Within(n, U31)
    ensures Prefixed(n) == EncUbitvarfp(n[0])
    ensures EncUbitvarfp(n[0]) + [] == EncUbitvarfp(n[0]) && [] + EncUbitvarfp(n[0]) == EncUbitvarfp(n[0])
  {
    hide EncUbitvarfp;
    OneNumber(n);
    NothingElse(EncUbitvarfp(n[0]));
  }

  lemma PrefixedTwo(n: seq<int>)
    requires |n| == 2 && Within(n, U31)
    ensures Prefixed(n) == EncUbitvarfp(n[0]) + EncUbitvarfp(n[1])
  {
    hide EncUbitvarfp;
    TwoNumbers(n);
    PrefixedOne(n[1..]);
  }

  lemma PackedOne(width: nat, n: seq<int>)
    requires |n| == 1 && n[0] >= 0
    ensures Packed(width, n) == OfNat(n[0], width)
  {
    hide OfNat;
    OneNumber(n);
    NothingElse(OfNat(n[0], width));
  }

  lemma PackedTwo(width: nat, n: seq<int>)
    requires |n| == 2 && n[0] >= 0 && n[1] >= 0
    ensures Packed(width, n) == OfNat(n[0], width) + OfNat(n[1], width)
  {
    hide OfNat;
    TwoNumbers(n);
    PackedOne(width, n[1..]);
  }

  lemma SmallWidths()
    ensures Pow2(3) == 8 && Pow2(4) == 16 && Pow2(5) == 32 && Pow2(6) == 64
  {
  }

  /** A left delta. */
  lemma PlusIsMade(op: FieldOp, c: seq<int>, n: seq<int>, each: seq<Option<int>>)
    requires 1 <= |c| <= 7 && Writable(op, |c|, n, each)
    requires op.PlusOne? || op.PlusTwo? || op.PlusThree? || op.PlusFour? || op.PlusN?
    ensures IsMade(op, c, n, each)
  {
    hide IsMade, Makes, Moved, Shifted, EncUbitvarfp;
    if n != [] { PrefixedOne(n); }
    match op
    case PlusOne =>
      MakesLeft(Zero, 1, 0, c);
      Made(op, c, n, each, [One(0)]);
    case PlusTwo =>
      MakesLeft(Zero, 2, 0, c);
      Made(op, c, n, each, [One(0)]);
    case PlusThree =>
      MakesLeft(Zero, 3, 0, c);
      Made(op, c, n, each, [One(0)]);
    case PlusFour =>
      MakesLeft(Zero, 4, 0, c);
      Made(op, c, n, each, [One(0)]);
    case PlusN =>
      MakesLeft(VarFp, 5, n[0], c);
      Made(op, c, n, each, [One(n[0])]);
  }

  /** One push. */
  lemma PushIsMade(op: FieldOp, c: seq<int>, n: seq<int>, each: seq<Option<int>>)
    requires 1 <= |c| <= 7 && Writable(op, |c|, n, each)
    requires op.PushOneLeftDeltaZeroRightZero? || op.PushOneLeftDeltaZeroRightNonZero?
    ensures IsMade(op, c, n, each)
  {
    hide IsMade, Makes, Moved, Shifted, EncUbitvarfp;
    if n != [] { PrefixedOne(n); }
    match op
    case PushOneLeftDeltaZeroRightZero =>
      MakesRight(Zero, 0, c);
      Made(op, c, n, each, [One(0)]);
    case PushOneLeftDeltaZeroRightNonZero =>
      MakesRight(VarFp, n[0], c);
      Made(op, c, n, each, [One(n[0])]);
  }

  /** A left delta and a push, at most one of them written. */
  lemma DeltaOneZeroIsMade(op: FieldOp, c: seq<int>, n: seq<int>, each: seq<Option<int>>)
    requires 1 <= |c| <= 7 && Writable(op, |c|, n, each)
    requires op.PushOneLeftDeltaOneRightZero?
    ensures IsMade(op, c, n, each)
  {
    hide IsMade, Makes, Moved, Shifted, EncUbitvarfp;
    NothingElse([]);
    MakesLeftRight(Zero, 1, 0, Zero, 0, 0, c);
    Made(op, c, n, each, [One(0), One(0)]);
  }

  lemma DeltaOneNonZeroIsMade(op: FieldOp, c: seq<int>, n: seq<int>, each: seq<Option<int>>)
    requires 1 <= |c| <= 7 && Writable(op, |c|, n, each)
    requires op.PushOneLeftDeltaOneRightNonZero?
    ensures IsMade(op, c, n, each)
  {
    hide IsMade, Makes, Moved, Shifted, EncUbitvarfp;
    NothingElse([]);
    PrefixedOne(n);
    MakesLeftRight(Zero, 1, 0, VarFp, 0, n[0], c);
    Made(op, c, n, each, [One(0), One(n[0])]);
  }

  lemma DeltaNZeroIsMade(op: FieldOp, c: seq<int>, n: seq<int>, each: seq<Option<int>>)
    requires 1 <= |c| <= 7 && Writable(op, |c|, n, each)
    requires op.PushOneLeftDeltaNRightZero?
    ensures IsMade(op, c, n, each)
  {
    hide IsMade, Makes, Moved, Shifted, EncUbitvarfp;
    NothingElse([]);
    PrefixedOne(n);
    MakesLeftRight(VarFp, 0, n[0], Zero, 0, 0, c);
    Made(op, c, n, each, [One(n[0]), One(0)]);
  }

  /** Both written. */
  lemma DeltaNNonZeroIsMade(op: FieldOp, c: seq<int>, n: seq<int>, each: seq<Option<int>>)
    requires 1 <= |c| <= 7 && Writable(op, |c|, n, each)
    requires op.PushOneLeftDeltaNRightNonZero?
    ensures IsMade(op, c, n, each)
  {
    hide IsMade, Makes, Moved, Shifted, EncUbitvarfp, OfNat, Prefixed, Packed;
    SmallWidths();
    PrefixedTwo(n);
    MakesLeftRight(VarFp, 2, n[0], VarFp, 1, n[1], c);
    Made(op, c, n, each, [One(n[0]), One(n[1])]);
  }

  lemma DeltaNPack6IsMade(op: FieldOp, c: seq<int>, n: seq<int>, each: seq<Option<int>>)
    requires 1 <= |c| <= 7 && Writable(op, |c|, n, each)
    requires op.PushOneLeftDeltaNRightNonZeroPack6Bits?
    ensures IsMade(op, c, n, each)
  {
    hide IsMade, Makes, Moved, Shifted, EncUbitvarfp, OfNat, Prefixed, Packed;
    SmallWidths();
    PackedTwo(3, n);
    MakesLeftRight(Pack(3), 2, n[0], Pack(3), 1, n[1], c);
    Made(op, c, n, each, [One(n[0]), One(n[1])]);
  }

  lemma DeltaNPack8IsMade(op: FieldOp, c: seq<int>, n: seq<int>, each: seq<Option<int>>)
    requires 1 <= |c| <= 7 && Writable(op, |c|, n, each)
    requires op.PushOneLeftDeltaNRightNonZeroPack8Bits?
    ensures IsMade(op, c, n, each)
  {
    hide IsMade, Makes, Moved, Shifted, EncUbitvarfp, OfNat, Prefixed, Packed;
    SmallWidths();
    PackedTwo(4, n);
    MakesLeftRight(Pack(4), 2, n[0], Pack(4), 1, n[1], c);
    Made(op, c, n, each, [One(n[0]), One(n[1])]);
  }

  lemma PushedIsMoved(c: seq<int>, n: seq<int>)
    requires c != []
    ensures Moved(c, 0, 0, n) == Pushed(c, n)
  {
    assert c[..|c| - 1] + [c[|c| - 1] + 0] == c;
  }

  /** Two or three pushes. */
  lemma PushesAreMade(op: FieldOp, c: seq<int>, n: seq<int>, each: seq<Option<int>>)
    requires 1 <= |c| <= 7 && Writable(op, |c|, n, each)
    requires op.PushTwoLeftDeltaZero? || op.PushThreeLeftDeltaZero?
    ensures IsMade(op, c, n, each)
  {
    hide IsMade, Makes, Moved, Shifted, EncUbitvarfp, EncUbitvar, OfNat, Prefixed, Packed, AmountsBits, AmountFits,
      Pushed;
    PrefixedAreAmounts(n);
    TwoAndThree(VarFp);
    PushedIsMoved(c, n);
    MakesPushes(VarFp, n, c);
    Made(op, c, n, each, PushArgs(n));
  }

  lemma PackedPushesAreMade(op: FieldOp, c: seq<int>, n: seq<int>, each: seq<Option<int>>)
    requires 1 <= |c| <= 7 && Writable(op, |c|, n, each)
    requires op.PushTwoPack5LeftDeltaZero? || op.PushThreePack5LeftDeltaZero?
    ensures IsMade(op, c, n, each)
  {
    hide IsMade, Makes, Moved, Shifted, EncUbitvarfp, EncUbitvar, OfNat, Prefixed, Packed, AmountsBits, AmountFits,
      Pushed;
    SmallWidths();
    PackedAreAmounts(5, n);
    TwoAndThree(Pack(5));
    PushedIsMoved(c, n);
    MakesPushes(Pack(5), n, c);
    Made(op, c, n, each, PushArgs(n));
  }

  lemma FrontEdit(e: Edit, b: Amount)
    ensures [e] + PushEdits(b, 2) == [e, Push(b, 0), Push(b, 0)]
    ensures [e] + PushEdits(b, 3) == [e, Push(b, 0), Push(b, 0), Push(b, 0)]
  {
    TwoAndThree(b);
  }

  /** A left delta, then two or three pushes. */
  lemma DeltaOneTwoAreMade(op: FieldOp, c: seq<int>, n: seq<int>, each: seq<Option<int>>)
    requires 1 <= |c| <= 7 && Writable(op, |c|, n, each)
    requires op.PushTwoLeftDeltaOne?
    ensures IsMade(op, c, n, each)
  {
    hide IsMade, Makes, Moved, Shifted, EncUbitvarfp, EncUbitvar, OfNat, Prefixed, Packed, AmountsBits;
    PrefixedAreAmounts(n);
    NothingElse(AmountsBits(VarFp, n));
    FrontEdit(IncLast(Zero, 1), VarFp);
    MakesLeftPushes(Zero, 1, 0, VarFp, n, c);
    Made(op, c, n, each, [One(0)] + PushArgs(n));
  }

  lemma DeltaOneThreeAreMade(op: FieldOp, c: seq<int>, n: seq<int>, each: seq<Option<int>>)
    requires 1 <= |c| <= 7 && Writable(op, |c|, n, each)
    requires op.PushThreeLeftDeltaOne?
    ensures IsMade(op, c, n, each)
  {
    hide IsMade, Makes, Moved, Shifted, EncUbitvarfp, EncUbitvar, OfNat, Prefixed, Packed, AmountsBits;
    PrefixedAreAmounts(n);
    NothingElse(AmountsBits(VarFp, n));
    FrontEdit(IncLast(Zero, 1), VarFp);
    MakesLeftPushes(Zero, 1, 0, VarFp, n, c);
    Made(op, c, n, each, [One(0)] + PushArgs(n));
  }

  lemma DeltaOnePackedTwoAreMade(op: FieldOp, c: seq<int>, n: seq<int>, each: seq<Option<int>>)
    requires 1 <= |c| <= 7 && Writable(op, |c|, n, each)
    requires op.PushTwoPack5LeftDeltaOne?
    ensures IsMade(op, c, n, each)
  {
    hide IsMade, Makes, Moved, Shifted, EncUbitvarfp, EncUbitvar, OfNat, Prefixed, Packed, AmountsBits;
    SmallWidths();
    PackedAreAmounts(5, n);
    NothingElse(AmountsBits(Pack(5), n));
    FrontEdit(IncLast(Zero, 1), Pack(5));
    MakesLeftPushes(Zero, 1, 0, Pack(5), n, c);
    Made(op, c, n, each, [One(0)] + PushArgs(n));
  }

  lemma DeltaOnePackedThreeAreMade(op: FieldOp, c: seq<int>, n: seq<int>, each: seq<Option<int>>)
    requires 1 <= |c| <= 7 && Writable(op, |c|, n, each)
    requires op.PushThreePack5LeftDeltaOne?
    ensures IsMade(op, c, n, each)
  {
    hide IsMade, Makes, Moved, Shifted, EncUbitvarfp, EncUbitvar, OfNat, Prefixed, Packed, AmountsBits;
    SmallWidths();
    PackedAreAmounts(5, n);
    NothingElse(AmountsBits(Pack(5), n));
    FrontEdit(IncLast(Zero, 1), Pack(5));
    MakesLeftPushes(Zero, 1, 0, Pack(5), n, c);
    Made(op, c, n, each, [One(0)] + PushArgs(n));
  }

  lemma DeltaNTwoAreMade(op: FieldOp, c: seq<int>, n: seq<int>, each: seq<Option<int>>)
    requires 1 <= |c| <= 7 && Writable(op, |c|, n, each)
    requires op.PushTwoLeftDeltaN?
    ensures IsMade(op, c, n, each)
  {
    hide IsMade, Makes, Moved, Shifted, EncUbitvarfp, EncUbitvar, OfNat, Prefixed, Packed, AmountsBits;
    PrefixedAreAmounts(n[1..]);
    NothingElse(AmountsBits(VarFp, n[1..]));
    FrontEdit(IncLast(Var, 2), VarFp);
    MakesLeftPushes(Var, 2, n[0], VarFp, n[1..], c);
    Made(op, c, n, each, [One(n[0])] + PushArgs(n[1..]));
  }

  lemma DeltaNThreeAreMade(op: FieldOp, c: seq<int>, n: seq<int>, each: seq<Option<int>>)
    requires 1 <= |c| <= 7 && Writable(op, |c|, n, each)
    requires op.PushThreeLeftDeltaN?
    ensures IsMade(op, c, n, each)
  {
    hide IsMade, Makes, Moved, Shifted, EncUbitvarfp, EncUbitvar, OfNat, Prefixed, Packed, AmountsBits;
    PrefixedAreAmounts(n[1..]);
    NothingElse(AmountsBits(VarFp, n[1..]));
    FrontEdit(IncLast(Var, 2), VarFp);
    MakesLeftPushes(Var, 2, n[0], VarFp, n[1..], c);
    Made(op, c, n, each, [One(n[0])] + PushArgs(n[1..]));
  }

  lemma DeltaNPackedTwoAreMade(op: FieldOp, c: seq<int>, n: seq<int>, each: seq<Option<int>>)
    requires 1 <= |c| <= 7 && Writable(op, |c|, n, each)
    requires op.PushTwoPack5LeftDeltaN?
    ensures IsMade(op, c, n, each)
  {
    hide IsMade, Makes, Moved, Shifted, EncUbitvarfp, EncUbitvar, OfNat, Prefixed, Packed, AmountsBits;
    SmallWidths();
    PackedAreAmounts(5, n[1..]);
    NothingElse(AmountsBits(Pack(5), n[1..]));
    FrontEdit(IncLast(Var, 2), Pack(5));
    MakesLeftPushes(Var, 2, n[0], Pack(5), n[1..], c);
    Made(op, c, n, each, [One(n[0])] + PushArgs(n[1..]));
  }

  lemma DeltaNPackedThreeAreMade(op: FieldOp, c: seq<int>, n: seq<int>, each: seq<Option<int>>)
    requires 1 <= |c| <= 7 && Writable(op, |c|, n, each)
    requires op.PushThreePack5LeftDeltaN?
    ensures IsMade(op, c, n, each)
  {
    hide IsMade, Makes, Moved, Shifted, EncUbitvarfp, EncUbitvar, OfNat, Prefixed, Packed, AmountsBits;
    SmallWidths();
    PackedAreAmounts(5, n[1..]);
    NothingElse(AmountsBits(Pack(5), n[1..]));
    FrontEdit(IncLast(Var, 2), Pack(5));
    MakesLeftPushes(Var, 2, n[0], Pack(5), n[1..], c);
    Made(op, c, n, each, [One(n[0])] + PushArgs(n[1..]));
  }

  /** Dropping first. */
  lemma PopOnePlusOneIsMade(op: FieldOp, c: seq<int>, n: seq<int>, each: seq<Option<int>>)
    requires 1 <= |c| <= 7 && Writable(op, |c|, n, each)
    requires op.PopOnePlusOne?
    ensures IsMade(op, c, n, each)
  {
    hide IsMade, Makes, Moved, Shifted, EncUbitvarfp;
    NothingElse([]);
    MakesPop(Zero, 1, 0, Zero, 1, 0, c);
    Made(op, c, n, each, [One(0), One(0)]);
  }

  lemma PopOnePlusNIsMade(op: FieldOp, c: seq<int>, n: seq<int>, each: seq<Option<int>>)
    requires 1 <= |c| <= 7 && Writable(op, |c|, n, each)
    requires op.PopOnePlusN?
    ensures IsMade(op, c, n, each)
  {
    hide IsMade, Makes, Moved, Shifted, EncUbitvarfp;
    NothingElse([]);
    PrefixedOne(n);
    MakesPop(Zero, 1, 0, VarFp, 1, n[0], c);
    Made(op, c, n, each, [One(0), One(n[0])]);
  }

  lemma PopAllPlusOneIsMade(op: FieldOp, c: seq<int>, n: seq<int>, each: seq<Option<int>>)
    requires 1 <= |c| <= 7 && Writable(op, |c|, n, each)
    requires op.PopAllButOnePlusOne?
    ensures IsMade(op, c, n, each)
  {
    hide IsMade, Makes, Moved, Shifted, EncUbitvarfp;
    MakesPopAll(Zero, 1, 0, c);
    Made(op, c, n, each, [Arg([], []), One(0)]);
  }

  lemma PopAllPlusNIsMade(op: FieldOp, c: seq<int>, n: seq<int>, each: seq<Option<int>>)
    requires 1 <= |c| <= 7 && Writable(op, |c|, n, each)
    requires op.PopAllButOnePlusN?
    ensures IsMade(op, c, n, each)
  {
    hide IsMade, Makes, Moved, Shifted, EncUbitvarfp;
    PrefixedOne(n);
    MakesPopAll(VarFp, 1, n[0], c);
    Made(op, c, n, each, [Arg([], []), One(n[0])]);
  }

  lemma PopAllPackedIsMade(op: FieldOp, c: seq<int>, n: seq<int>, each: seq<Option<int>>)
    requires 1 <= |c| <= 7 && Writable(op, |c|, n, each)
    requires op.PopAllButOnePlusNPack3Bits? || op.PopAllButOnePlusNPack6Bits?
    ensures IsMade(op, c, n, each)
  {
    hide IsMade, Makes, Moved, Shifted, OfNat, Packed;
    SmallWidths();
    match op
    case PopAllButOnePlusNPack3Bits =>
      PackedOne(3, n);
      MakesPopAll(Pack(3), 1, n[0], c);
      Made(op, c, n, each, [Arg([], []), One(n[0])]);
    case PopAllButOnePlusNPack6Bits =>
      PackedOne(6, n);
      MakesPopAll(Pack(6), 1, n[0], c);
      Made(op, c, n, each, [Arg([], []), One(n[0])]);
  }

  lemma PopNPlusOneIsMade(op: FieldOp, c: seq<int>, n: seq<int>, each: seq<Option<int>>)
    requires 1 <= |c| <= 7 && Writable(op, |c|, n, each)
    requires op.PopNPlusOne?
    ensures IsMade(op, c, n, each)
  {
    hide IsMade, Makes, Moved, Shifted, EncUbitvarfp, EncVarint32;
    PrefixedOne(n);
    MakesPop(VarFp, 0, n[0], Zero, 1, 0, c);
    Made(op, c, n, each, [One(n[0]), One(0)]);
  }

  lemma PopNPlusNIsMade(op: FieldOp, c: seq<int>, n: seq<int>, each: seq<Option<int>>)
    requires 1 <= |c| <= 7 && Writable(op, |c|, n, each)
    requires op.PopNPlusN?
    ensures IsMade(op, c, n, each)
  {
    hide IsMade, Makes, Moved, Shifted, EncUbitvarfp, EncVarint32;
    MakesPop(VarFp, 0, n[0], Signed, 0, n[1], c);
    Made(op, c, n, each, [One(n[0]), One(n[1])]);
  }

  /** Component by component. */
  lemma PopEachIsMade(op: FieldOp, c: seq<int>, n: seq<int>, each: seq<Option<int>>)
    requires 1 <= |c| <= 7 && Writable(op, |c|, n, each)
    requires op.PopNAndNonTopographical?
    ensures IsMade(op, c, n, each)
  {
    hide IsMade, Makes, Moved, Shifted, EncUbitvarfp, EncUbitvar, EachBits, EachFits, EachSigned, EachNibble,
      Words32, Nibbles;
    SignedIsEach(each);
    PrefixedOne(n);
    MakesPopEach(n[0], each, c);
    Made(op, c, n, each, [One(n[0]), Arg([], each)]);
  }

  lemma EachIsMade(op: FieldOp, c: seq<int>, n: seq<int>, each: seq<Option<int>>)
    requires 1 <= |c| <= 7 && Writable(op, |c|, n, each)
    requires op.NonTopoComplex? || op.NonTopoComplexPack4Bits?
    ensures IsMade(op, c, n, each)
  {
    hide IsMade, Makes, Moved, Shifted, EncUbitvarfp, EncUbitvar, EachBits, EachFits, EachSigned, EachNibble,
      Words32, Nibbles;
    match op
    case NonTopoComplex =>
      SignedIsEach(each);
      MakesEach(Signed, 0, each, c);
      Made(op, c, n, each, [Arg([], each)]);
    case NonTopoComplexPack4Bits =>
      NibbleIsEach(each);
      MakesEach(Pack(4), -7, each, c);
      Made(op, c, n, each, [Arg([], each)]);
  }

  lemma EachPushesAreMade(op: FieldOp, c: seq<int>, n: seq<int>, each: seq<Option<int>>)
    requires 1 <= |c| <= 7 && Writable(op, |c|, n, each)
    requires op.PushNAndNonTopographical?
    ensures IsMade(op, c, n, each)
  {
    hide IsMade, Makes, Moved, Shifted, EncUbitvarfp, EncUbitvar, EachBits, EachFits, EachSigned, EachNibble,
      Words32, Nibbles, Prefixed;
    SignedIsEach(each);
    MakesEachPushes(each, n, c);
    var signed, count, pushed := EachSigned(each), EncUbitvar(|n|), Prefixed(n);
    assert signed + count + pushed == signed + (count + pushed);
    Made(op, c, n, each, [Arg([], each), Arg(n, [])]);
  }

  lemma CountedIsMade(op: FieldOp, c: seq<int>, n: seq<int>, each: seq<Option<int>>)
    requires 1 <= |c| <= 7 && Writable(op, |c|, n, each)
    requires op.PushN?
    ensures IsMade(op, c, n, each)
  {
    hide IsMade, Makes, Moved, Shifted, EncUbitvar, Prefixed;
    MakesCounted(n, c);
    Made(op, c, n, each, [Arg(n, [])]);
  }

  lemma PenultimateIsMade(op: FieldOp, c: seq<int>, n: seq<int>, each: seq<Option<int>>)
    requires 1 <= |c| <= 7 && Writable(op, |c|, n, each)
    requires op.NonTopoPenultimatePlusOne? || op.FieldPathEncodeFinish?
    ensures IsMade(op, c, n, each)
  {
    hide IsMade, Makes, Moved, Shifted, EncUbitvar;
    match op
    case NonTopoPenultimatePlusOne =>
      MakesOne(IncPenultimate, Arg([], []), c);
      Made(op, c, n, each, [Arg([], [])]);
    case FieldPathEncodeFinish =>
      MakesNone(c);
      Made(op, c, n, each, []);
  }

  lemma EveryOpIsMade(op: FieldOp, c: seq<int>, n: seq<int>, each: seq<Option<int>>)
    requires 1 <= |c| <= 7 && Writable(op, |c|, n, each)
    ensures IsMade(op, c, n, each)
  {
    hide IsMade, Writable, Meant, Written;
    match op
    case PlusOne => PlusIsMade(op, c, n, each);
    case PlusTwo => PlusIsMade(op, c, n, each);
    case PlusThree => PlusIsMade(op, c, n, each);
    case PlusFour => PlusIsMade(op, c, n, each);
    case PlusN => PlusIsMade(op, c, n, each);
    case PushOneLeftDeltaZeroRightZero => PushIsMade(op, c, n, each);
    case PushOneLeftDeltaZeroRightNonZero => PushIsMade(op, c, n, each);
    case PushOneLeftDeltaOneRightZero => DeltaOneZeroIsMade(op, c, n, each);
    case PushOneLeftDeltaOneRightNonZero => DeltaOneNonZeroIsMade(op, c, n, each);
    case PushOneLeftDeltaNRightZero => DeltaNZeroIsMade(op, c, n, each);
    case PushOneLeftDeltaNRightNonZero => DeltaNNonZeroIsMade(op, c, n, each);
    case PushOneLeftDeltaNRightNonZeroPack6Bits => DeltaNPack6IsMade(op, c, n, each);
    case PushOneLeftDeltaNRightNonZeroPack8Bits => DeltaNPack8IsMade(op, c, n, each);
    case PushTwoLeftDeltaZero => PushesAreMade(op, c, n, each);
    case PushThreeLeftDeltaZero => PushesAreMade(op, c, n, each);
    case PushTwoPack5LeftDeltaZero => PackedPushesAreMade(op, c, n, each);
    case PushThreePack5LeftDeltaZero => PackedPushesAreMade(op, c, n, each);
    case PushTwoLeftDeltaOne => DeltaOneTwoAreMade(op, c, n, each);
    case PushThreeLeftDeltaOne => DeltaOneThreeAreMade(op, c, n, each);
    case PushTwoPack5LeftDeltaOne => DeltaOnePackedTwoAreMade(op, c, n, each);
    case PushThreePack5LeftDeltaOne => DeltaOnePackedThreeAreMade(op, c, n, each);
    case PushTwoLeftDeltaN => DeltaNTwoAreMade(op, c, n, each);
    case PushThreeLeftDeltaN => DeltaNThreeAreMade(op, c, n, each);
    case PushTwoPack5LeftDeltaN => DeltaNPackedTwoAreMade(op, c, n, each);
    case PushThreePack5LeftDeltaN => DeltaNPackedThreeAreMade(op, c, n, each);
    case PopOnePlusOne => PopOnePlusOneIsMade(op, c, n, each);
    case PopOnePlusN => PopOnePlusNIsMade(op, c, n, each);
    case PopAllButOnePlusOne => PopAllPlusOneIsMade(op, c, n, each);
    case PopAllButOnePlusN => PopAllPlusNIsMade(op, c, n, each);
    case PopAllButOnePlusNPack3Bits => PopAllPackedIsMade(op, c, n, each);
    case PopAllButOnePlusNPack6Bits => PopAllPackedIsMade(op, c, n, each);
    case PopNPlusOne => PopNPlusOneIsMade(op, c, n, each);
    case PopNPlusN => PopNPlusNIsMade(op, c, n, each);
    case PopNAndNonTopographical => PopEachIsMade(op, c, n, each);
    case NonTopoComplex => EachIsMade(op, c, n, each);
    case NonTopoComplexPack4Bits => EachIsMade(op, c, n, each);
    case PushNAndNonTopographical => EachPushesAreMade(op, c, n, each);
    case PushN => CountedIsMade(op, c, n, each);
    case NonTopoPenultimatePlusOne => PenultimateIsMade(op, c, n, each);
    case FieldPathEncodeFinish => PenultimateIsMade(op, c, n, each);
  }

  // ---- the result

  /** The components of a path. */
  function Components(p: Path): Bytes
  {
    p.data[..p.last + 1]
  }

  /** For every operation, path and numbers it takes: reading what is written gives the path with the components
      meant, modulo 256, and consumes exactly the numbers; where fewer than one or more than seven components would
      be left it fails. */
  lemma OperationMeans(op: FieldOp, p: Path, n: seq<int>, each: seq<Option<int>>, rest: BitString)
    requires Clean(p) && Writable(op, p.last + 1, n, each)
    ensures var r := ApplyAll(Edits(op), p, Written(op, p.last + 1, n, each) + rest);
      match Meant(op, Components(p), n, each)
      case Some(d) =>
        && r.Ok? && r.rest == rest && Clean(r.value)
        && |Components(r.value)| == |d| && forall i | 0 <= i < |d| :: Components(r.value)[i] == d[i] % 256
      case None => r.Fail?
  {
    hide Edits, Written, Meant, Writable, Makes, ApplyAll;
    var c: seq<int> := Components(p);
    assert Shows(p, c);
    EveryOpIsMade(op, c, n, each);
    var args :| Makes(Edits(op), c, args, Written(op, |c|, n, each), Meant(op, c, n, each));
    MadeMeans(Edits(op), p, c, args, Written(op, |c|, n, each), Meant(op, c, n, each), rest);
  }

  lemma MadeMeans(es: seq<Edit>, p: Path, c: seq<int>, args: seq<Arg>, bits: BitString, effect: Option<seq<int>>,
      rest: BitString)
    requires c != [] && Shows(p, c) && Makes(es, c, args, bits, effect)
    ensures Gives(ApplyAll(es, p, bits + rest), effect, rest)
  {
    hide ApplyAll, EditsFit, EditsBits, EditsEffect, Shows;
    var first := EditsBits(es, c, args);
    if effect.Some? {
      EditsMean(es, p, c, args, rest);
    } else {
      var tail := bits[|first|..];
      assert bits == first + tail && bits + rest == first + (tail + rest);
      EditsMean(es, p, c, args, tail + rest);
    }
  }
}
