/** Field paths and the forty operations that edit them. */
module FieldPaths {
  import opened Prelude
  import opened Bits

  /** The contents of a field path: seven components, of which `data[..=last]` are in use. */
  datatype PathData = Path(data: Bytes, last: nat)

  type Path = p: PathData | |p.data| == 7 && p.last < 7
    witness Path([255, 0, 0, 0, 0, 0, 0], 0)

  const START: Path := Path([255, 0, 0, 0, 0, 0, 0], 0)

  /** Slots above `last` are zero. */
  predicate Clean(p: Path)
  {
    forall i | p.last < i < 7 :: p.data[i] == 0
  }

  function IncAt(p: Path, i: nat, v: int): Path
    requires i < 7
  {
    p.(data := p.data[i := (p.data[i] + v) % 256])
  }

  // ---- operations as short programs of edits

  /** Where an edit takes its number from. */
  datatype Amount = Zero | Var | VarFp | Pack(width: nat) | Signed

  datatype Edit =
    | IncLast(amount: Amount, plus: int)
    | Push(amount: Amount, plus: int)
    | Pop(amount: Amount, extra: nat)
    | PopAllButOne
    /** One bool per component in use; a set one is followed by the increment. */
    | IncEach(amount: Amount, plus: int)
    | IncPenultimate
    /** A count `n`, then (if `inc`) an increment of the last component, then `n` pushes. */
    | PushCounted(inc: bool)

  datatype FieldOp =
    | PlusOne | PlusTwo | PlusThree | PlusFour | PlusN
    | PushOneLeftDeltaZeroRightZero | PushOneLeftDeltaZeroRightNonZero
    | PushOneLeftDeltaOneRightZero | PushOneLeftDeltaOneRightNonZero
    | PushOneLeftDeltaNRightZero | PushOneLeftDeltaNRightNonZero
    | PushOneLeftDeltaNRightNonZeroPack6Bits | PushOneLeftDeltaNRightNonZeroPack8Bits
    | PushTwoLeftDeltaZero | PushTwoPack5LeftDeltaZero | PushThreeLeftDeltaZero | PushThreePack5LeftDeltaZero
    | PushTwoLeftDeltaOne | PushTwoPack5LeftDeltaOne | PushThreeLeftDeltaOne | PushThreePack5LeftDeltaOne
    | PushTwoLeftDeltaN | PushTwoPack5LeftDeltaN | PushThreeLeftDeltaN | PushThreePack5LeftDeltaN
    | PushN | PushNAndNonTopographical
    | PopOnePlusOne | PopOnePlusN
    | PopAllButOnePlusOne | PopAllButOnePlusN | PopAllButOnePlusNPack3Bits | PopAllButOnePlusNPack6Bits
    | PopNPlusOne | PopNPlusN | PopNAndNonTopographical
    | NonTopoComplex | NonTopoPenultimatePlusOne | NonTopoComplexPack4Bits
    | FieldPathEncodeFinish

  function Edits(op: FieldOp): seq<Edit>
  {
    match op
    case PlusOne => [IncLast(Zero, 1)]
    case PlusTwo => [IncLast(Zero, 2)]
    case PlusThree => [IncLast(Zero, 3)]
    case PlusFour => [IncLast(Zero, 4)]
    case PlusN => [IncLast(VarFp, 5)]
    case PushOneLeftDeltaZeroRightZero => [Push(Zero, 0)]
    case PushOneLeftDeltaZeroRightNonZero => [Push(VarFp, 0)]
    case PushOneLeftDeltaOneRightZero => [IncLast(Zero, 1), Push(Zero, 0)]
    case PushOneLeftDeltaOneRightNonZero => [IncLast(Zero, 1), Push(VarFp, 0)]
    case PushOneLeftDeltaNRightZero => [IncLast(VarFp, 0), Push(Zero, 0)]
    case PushOneLeftDeltaNRightNonZero => [IncLast(VarFp, 2), Push(VarFp, 1)]
    case PushOneLeftDeltaNRightNonZeroPack6Bits => [IncLast(Pack(3), 2), Push(Pack(3), 1)]
    case PushOneLeftDeltaNRightNonZeroPack8Bits => [IncLast(Pack(4), 2), Push(Pack(4), 1)]
    case PushTwoLeftDeltaZero => [Push(VarFp, 0), Push(VarFp, 0)]
    case PushTwoPack5LeftDeltaZero => [Push(Pack(5), 0), Push(Pack(5), 0)]
    case PushThreeLeftDeltaZero => [Push(VarFp, 0), Push(VarFp, 0), Push(VarFp, 0)]
    case PushThreePack5LeftDeltaZero => [Push(Pack(5), 0), Push(Pack(5), 0), Push(Pack(5), 0)]
    case PushTwoLeftDeltaOne => [IncLast(Zero, 1), Push(VarFp, 0), Push(VarFp, 0)]
    case PushTwoPack5LeftDeltaOne => [IncLast(Zero, 1), Push(Pack(5), 0), Push(Pack(5), 0)]
    case PushThreeLeftDeltaOne => [IncLast(Zero, 1), Push(VarFp, 0), Push(VarFp, 0), Push(VarFp, 0)]
    case PushThreePack5LeftDeltaOne => [IncLast(Zero, 1), Push(Pack(5), 0), Push(Pack(5), 0), Push(Pack(5), 0)]
    case PushTwoLeftDeltaN => [IncLast(Var, 2), Push(VarFp, 0), Push(VarFp, 0)]
    case PushTwoPack5LeftDeltaN => [IncLast(Var, 2), Push(Pack(5), 0), Push(Pack(5), 0)]
    case PushThreeLeftDeltaN => [IncLast(Var, 2), Push(VarFp, 0), Push(VarFp, 0), Push(VarFp, 0)]
    case PushThreePack5LeftDeltaN => [IncLast(Var, 2), Push(Pack(5), 0), Push(Pack(5), 0), Push(Pack(5), 0)]
    case PushN => [PushCounted(true)]
    case PushNAndNonTopographical => [IncEach(Signed, 1), PushCounted(false)]
    case PopOnePlusOne => [Pop(Zero, 1), IncLast(Zero, 1)]
    case PopOnePlusN => [Pop(Zero, 1), IncLast(VarFp, 1)]
    case PopAllButOnePlusOne => [PopAllButOne, IncLast(Zero, 1)]
    case PopAllButOnePlusN => [PopAllButOne, IncLast(VarFp, 1)]
    case PopAllButOnePlusNPack3Bits => [PopAllButOne, IncLast(Pack(3), 1)]
    case PopAllButOnePlusNPack6Bits => [PopAllButOne, IncLast(Pack(6), 1)]
    case PopNPlusOne => [Pop(VarFp, 0), IncLast(Zero, 1)]
    case PopNPlusN => [Pop(VarFp, 0), IncLast(Signed, 0)]
    case PopNAndNonTopographical => [Pop(VarFp, 0), IncEach(Signed, 0)]
    case NonTopoComplex => [IncEach(Signed, 0)]
    case NonTopoPenultimatePlusOne => [IncPenultimate]
    case NonTopoComplexPack4Bits => [IncEach(Pack(4), -7)]
    case FieldPathEncodeFinish => []
  }

  const DESCRIPTORS: seq<(nat, FieldOp)> := [
    (36271, PlusOne), (10334, PlusTwo), (1375, PlusThree), (646, PlusFour), (4128, PlusN),
    (35, PushOneLeftDeltaZeroRightZero), (3, PushOneLeftDeltaZeroRightNonZero),
    (521, PushOneLeftDeltaOneRightZero), (2942, PushOneLeftDeltaOneRightNonZero),
    (560, PushOneLeftDeltaNRightZero), (471, PushOneLeftDeltaNRightNonZero),
    (10530, PushOneLeftDeltaNRightNonZeroPack6Bits), (251, PushOneLeftDeltaNRightNonZeroPack8Bits),
    (1, PushTwoLeftDeltaZero), (1, PushTwoPack5LeftDeltaZero),
    (1, PushThreeLeftDeltaZero), (1, PushThreePack5LeftDeltaZero),
    (1, PushTwoLeftDeltaOne), (1, PushTwoPack5LeftDeltaOne),
    (1, PushThreeLeftDeltaOne), (1, PushThreePack5LeftDeltaOne),
    (1, PushTwoLeftDeltaN), (1, PushTwoPack5LeftDeltaN),
    (1, PushThreeLeftDeltaN), (1, PushThreePack5LeftDeltaN),
    (1, PushN), (310, PushNAndNonTopographical), (2, PopOnePlusOne), (1, PopOnePlusN),
    (1837, PopAllButOnePlusOne), (149, PopAllButOnePlusN),
    (300, PopAllButOnePlusNPack3Bits), (634, PopAllButOnePlusNPack6Bits),
    (1, PopNPlusOne), (1, PopNPlusN), (1, PopNAndNonTopographical),
    (76, NonTopoComplex), (271, NonTopoPenultimatePlusOne), (99, NonTopoComplexPack4Bits),
    (25474, FieldPathEncodeFinish)
  ]

  // ---- what the edits do; popping below zero or pushing past seven components aborts

  function ReadAmount(a: Amount, b: BitString): (r: Read<int>)
    ensures r.Ok? ==> |r.rest| <= |b|
    ensures r.Ok? && !a.Signed? ==> r.value >= 0
  {
    match a
    case Zero => Ok(0, b)
    case Var => ReadUbitvar(b)
    case VarFp => ReadUbitvarfp(b)
    case Pack(width) => ReadUbit(width, b)
    case Signed => ReadVarint32(b)
  }

  function PushValue(p: Path, v: int, b: BitString): Read<Path>
  {
    if p.last == 6 then Fail else Ok(Path(p.data[p.last + 1 := v % 256], p.last + 1), b)
  }

  function PopMany(p: Path, n: nat): Option<Path>
    decreases n
  {
    if n == 0 then Some(p)
    else if p.last == 0 then None
    else PopMany(Path(p.data[p.last := 0], p.last - 1), n - 1)
  }

  function IncEachFrom(i: nat, a: Amount, plus: int, p: Path, b: BitString): (r: Read<Path>)
    ensures r.Ok? ==> |r.rest| <= |b| && r.value.last == p.last
    decreases 7 - i
  {
    if i > p.last then Ok(p, b) else
    var (flag, b1) :- ReadBool(b);
    if !flag then IncEachFrom(i + 1, a, plus, p, b1) else
    var (v, b2) :- ReadAmount(a, b1);
    IncEachFrom(i + 1, a, plus, IncAt(p, i, v + plus), b2)
  }

  function PushTimes(n: nat, p: Path, b: BitString): (r: Read<Path>)
    ensures r.Ok? ==> |r.rest| <= |b|
    decreases n
  {
    if n == 0 then Ok(p, b) else
    var (v, b1) :- ReadUbitvarfp(b);
    var (q, b2) :- PushValue(p, v, b1);
    PushTimes(n - 1, q, b2)
  }

  function Apply(e: Edit, p: Path, b: BitString): (r: Read<Path>)
    ensures r.Ok? ==> |r.rest| <= |b|
  {
    match e
    case IncLast(a, plus) =>
      var (v, b1) :- ReadAmount(a, b);
      Ok(IncAt(p, p.last, v + plus), b1)
    case Push(a, plus) =>
      var (v, b1) :- ReadAmount(a, b);
      PushValue(p, v + plus, b1)
    case Pop(a, plus) =>
      var (n, b1) :- ReadAmount(a, b);
      (match if n + plus < 0 then None else PopMany(p, n + plus)
       case Some(q) => Ok(q, b1)
       case None => Fail)
    case PopAllButOne =>
      (match PopMany(p, p.last)
       case Some(q) => Ok(q, b)
       case None => Fail)
    case IncEach(a, plus) => IncEachFrom(0, a, plus, p, b)
    case IncPenultimate => if p.last == 0 then Fail else Ok(IncAt(p, p.last - 1, 1), b)
    case PushCounted(inc) =>
      var (n, b1) :- ReadUbitvar(b);
      if inc then
        var (v, b2) :- ReadUbitvar(b1);
        PushTimes(n, IncAt(p, p.last, v), b2)
      else
        PushTimes(n, p, b1)
  }

  function ApplyAll(es: seq<Edit>, p: Path, b: BitString): (r: Read<Path>)
    ensures r.Ok? ==> |r.rest| <= |b|
  {
    if es == [] then Ok(p, b) else
    var (q, b1) :- Apply(es[0], p, b);
    ApplyAll(es[1..], q, b1)
  }

  // ---- slots above `last` stay zero

  lemma {:induction false} PopManyEffect(p: Path, n: nat)
    requires Clean(p)
    ensures PopMany(p, n).Some? <==> n <= p.last
    ensures PopMany(p, n).Some? ==>
      var q := PopMany(p, n).value;
      Clean(q) && q.last == p.last - n && q.data[..q.last + 1] == p.data[..q.last + 1]
    decreases n
  {
    if n > 0 && p.last > 0 {
      PopManyEffect(Path(p.data[p.last := 0], p.last - 1), n - 1);
    }
  }

  lemma IncAtClean(p: Path, i: nat, v: int)
    requires Clean(p) && i <= p.last
    ensures Clean(IncAt(p, i, v))
  {
  }

  lemma {:induction false} IncEachClean(i: nat, a: Amount, plus: int, p: Path, b: BitString)
    requires Clean(p)
    ensures var r := IncEachFrom(i, a, plus, p, b); r.Ok? ==> Clean(r.value)
    decreases 7 - i
  {
    hide ReadBool, ReadAmount, IncAt, Clean;
    if i <= p.last && ReadBool(b).Ok? {
      var flag, b1 := ReadBool(b).value, ReadBool(b).rest;
      if !flag {
        IncEachClean(i + 1, a, plus, p, b1);
      } else if ReadAmount(a, b1).Ok? {
        var v, b2 := ReadAmount(a, b1).value, ReadAmount(a, b1).rest;
        IncAtClean(p, i, v + plus);
        IncEachClean(i + 1, a, plus, IncAt(p, i, v + plus), b2);
      }
    }
  }

  lemma {:induction false} PushTimesClean(n: nat, p: Path, b: BitString)
    requires Clean(p)
    ensures var r := PushTimes(n, p, b); r.Ok? ==> Clean(r.value)
    decreases n
  {
    hide ReadUbitvarfp;
    if n > 0 {
      match ReadUbitvarfp(b)
      case Ok(v, b1) =>
        match PushValue(p, v, b1) {
          case Ok(q, b2) => PushTimesClean(n - 1, q, b2);
          case Fail =>
        }
      case Fail =>
    }
  }

  lemma ApplyClean(e: Edit, p: Path, b: BitString)
    requires Clean(p)
    ensures Apply(e, p, b).Ok? ==> Clean(Apply(e, p, b).value)
  {
    hide ReadAmount, ReadUbitvar, PopMany, IncEachFrom, PushTimes;
    match e
    case IncLast(_, _) =>
    case Push(_, _) =>
    case Pop(a, plus) =>
      match ReadAmount(a, b) {
        case Ok(n, _) =>
          if n + plus >= 0 {
            PopManyEffect(p, n + plus);
          }
        case Fail =>
      }
    case PopAllButOne => PopManyEffect(p, p.last);
    case IncEach(a, plus) => IncEachClean(0, a, plus, p, b);
    case IncPenultimate =>
    case PushCounted(inc) =>
      match ReadUbitvar(b)
      case Ok(n, b1) =>
        PushTimesClean(n, p, b1);
        match ReadUbitvar(b1) {
          case Ok(v, b2) => PushTimesClean(n, IncAt(p, p.last, v), b2);
          case Fail =>
        }
      case Fail =>
  }

  lemma {:induction false} ApplyAllClean(es: seq<Edit>, p: Path, b: BitString)
    requires Clean(p)
    ensures ApplyAll(es, p, b).Ok? ==> Clean(ApplyAll(es, p, b).value)
  {
    if es != [] {
      ApplyClean(es[0], p, b);
      match Apply(es[0], p, b)
      case Ok(q, b1) => ApplyAllClean(es[1..], q, b1);
      case Fail =>
    }
  }
}
