/** The field path as an object that the operations edit in place. */
module FieldPathEditing {
  import opened Prelude
  import opened Bits
  import opened BitReaders
  import opened FieldPaths
  import P = FieldPaths

  class FieldPath {
    const data: array<Byte>
    var last: nat
    var finished: bool

    ghost predicate Valid()
      reads this
    {
      data.Length == 7 && last < 7
    }

    function View(): Path
      requires Valid()
      reads this, data
    {
      Path(data[..], last)
    }

    constructor ()
      ensures Valid() && View() == START && !finished
      ensures fresh(data)
    {
      data := new Byte[7](i => if i == 0 then 255 else 0);
      last := 0;
      finished := false;
      new;
      assert data[..] == START.data;
    }

    method IncAt(i: nat, v: int)
      requires Valid() && i < 7
      modifies data
      ensures View() == P.IncAt(old(View()), i, v)
    {
      data[i] := (data[i] + v) % 256;
    }

    method IncLast(v: int)
      requires Valid()
      modifies data
      ensures View() == P.IncAt(old(View()), last, v)
    {
      IncAt(last, v);
    }

    method Push(v: int) returns (ok: bool)
      requires Valid()
      modifies this`last, data
      ensures Valid()
      ensures ok <==> old(last) < 6
      ensures ok ==> View() == Path(old(data[..])[old(last) + 1 := v % 256], old(last) + 1)
    {
      ok := last < 6;
      if ok {
        last := last + 1;
        data[last] := v % 256;
      }
    }

    method Pop(n: nat) returns (ok: bool)
      requires Valid()
      modifies this`last, data
      ensures Valid()
      ensures match PopMany(old(View()), n)
              case Some(q) => ok && View() == q
              case None => !ok
    {
      ok := true;
      for i := 0 to n
        invariant Valid()
        invariant PopMany(View(), n - i) == PopMany(old(View()), n)
      {
        if last == 0 {
          return false;
        }
        data[last] := 0;
        last := last - 1;
      }
    }

    method ReadAmount(a: Amount, br: BitReader) returns (r: Option<int>)
      requires Valid()
      modifies br
      ensures br.Did(r, P.ReadAmount(a, old(br.unread)))
      ensures |br.unread| <= old(|br.unread|)
    {
      match a {
        case Zero => r := Some(0);
        case Var => var v := br.ReadUbitvar(); r := if v.None? then None else Some(v.value);
        case VarFp => var v := br.ReadUbitvarfp(); r := if v.None? then None else Some(v.value);
        case Pack(width) => var v := br.ReadUbit(width); r := if v.None? then None else Some(v.value);
        case Signed => r := br.ReadVarint32();
      }
    }

    method IncEach(a: Amount, plus: int, br: BitReader) returns (ok: bool)
      requires Valid()
      modifies data, br
      ensures Valid() && |br.unread| <= old(|br.unread|)
      ensures match IncEachFrom(0, a, plus, old(View()), old(br.unread))
              case Ok(q, rest) => ok && View() == q && br.unread == rest
              case Fail => !ok
    {
      hide ReadBool, P.ReadAmount, P.IncAt;
      for i := 0 to last + 1
        invariant Valid() && |br.unread| <= old(|br.unread|)
        invariant IncEachFrom(i, a, plus, View(), br.unread) == IncEachFrom(0, a, plus, old(View()), old(br.unread))
      {
        var flag := br.ReadBool();
        if flag.None? { return false; }
        if flag.value {
          var v := ReadAmount(a, br);
          if v.None? { return false; }
          IncAt(i, v.value + plus);
        }
      }
      ok := true;
    }

    method PushTimes(n: nat, br: BitReader) returns (ok: bool)
      requires Valid()
      modifies this`last, data, br
      ensures Valid() && |br.unread| <= old(|br.unread|)
      ensures match P.PushTimes(n, old(View()), old(br.unread))
              case Ok(q, rest) => ok && View() == q && br.unread == rest
              case Fail => !ok
    {
      hide ReadUbitvarfp;
      for i := 0 to n
        invariant Valid() && |br.unread| <= old(|br.unread|)
        invariant P.PushTimes(n - i, View(), br.unread) == P.PushTimes(n, old(View()), old(br.unread))
      {
        var v := br.ReadUbitvarfp();
        if v.None? { return false; }
        var pushed := Push(v.value);
        if !pushed { return false; }
      }
      ok := true;
    }

    method Edit(e: Edit, br: BitReader) returns (ok: bool)
      requires Valid()
      modifies this`last, data, br
      ensures Valid() && |br.unread| <= old(|br.unread|)
      ensures match Apply(e, old(View()), old(br.unread))
              case Ok(q, rest) => ok && View() == q && br.unread == rest
              case Fail => !ok
    {
      ok := true;
      match e {
        case IncLast(a, plus) =>
          var v := ReadAmount(a, br);
          if v.None? { return false; }
          IncLast(v.value + plus);
        case Push(a, plus) =>
          var v := ReadAmount(a, br);
          if v.None? { return false; }
          ok := Push(v.value + plus);
        case Pop(a, plus) =>
          var n := ReadAmount(a, br);
          if n.None? || n.value + plus < 0 { return false; }
          ok := Pop(n.value + plus);
        case PopAllButOne => ok := Pop(last);
        case IncEach(a, plus) => ok := IncEach(a, plus, br);
        case IncPenultimate =>
          if last == 0 { return false; }
          IncAt(last - 1, 1);
        case PushCounted(inc) =>
          var n := br.ReadUbitvar();
          if n.None? { return false; }
          if inc {
            var v := br.ReadUbitvar();
            if v.None? { return false; }
            IncLast(v.value);
          }
          ok := PushTimes(n.value, br);
      }
    }

    /** Runs one operation; the finish operation only raises the flag. */
    method Run(op: FieldOp, br: BitReader) returns (ok: bool)
      requires Valid()
      modifies this, data, br
      ensures Valid() && |br.unread| <= old(|br.unread|)
      ensures finished == (old(finished) || op.FieldPathEncodeFinish?)
      ensures match ApplyAll(Edits(op), old(View()), old(br.unread))
              case Ok(q, rest) => ok && View() == q && br.unread == rest
              case Fail => !ok
    {
      if op.FieldPathEncodeFinish? {
        finished := true;
      }
      var es := Edits(op);
      ok := true;
      for i := 0 to |es|
        invariant Valid() && |br.unread| <= old(|br.unread|)
        invariant finished == (old(finished) || op.FieldPathEncodeFinish?)
        invariant ApplyAll(es[i..], View(), br.unread) == ApplyAll(es, old(View()), old(br.unread))
      {
        assert es[i..][0] == es[i] && es[i..][1..] == es[i + 1..];
        ok := Edit(es[i], br);
        if !ok { return; }
      }
    }
  }
}
