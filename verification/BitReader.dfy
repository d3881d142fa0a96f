/** The bit reader as an object whose position moves.  Each method is proved to return, and to
    leave unread, exactly what the function of the same name in `Bits` says. */
module BitReaders {
  import opened Prelude
  import Bits

  /** `was` with `s` written over it from index `at` on. */
  function Overlaid(was: Bytes, at: nat, s: Bytes): Bytes
    requires at + |s| <= |was|
  {
    was[..at] + s + was[at + |s|..]
  }

  lemma OverlayNext(was: Bytes, at: nat, s: Bytes, v: Byte)
    requires at + |s| < |was|
    ensures Overlaid(was, at, s)[at + |s| := v] == Overlaid(was, at, s + [v])
  {
  }

  class BitReader {
    const size: nat
    var unread: Bits.BitString

    constructor (data: Bits.BitString)
      ensures unread == data && size == |data|
    {
      size := |data|;
      unread := data;
    }

    ghost predicate Valid()
      reads this
    {
      |unread| <= size
    }

    /** `r` and the new position are what `spec` says.  After a failure the position is
        unspecified: every caller gives up. */
    ghost predicate Did<T>(r: Option<T>, spec: Bits.Read<T>)
      reads this
    {
      match spec
      case Ok(v, rest) => r == Some(v) && unread == rest
      case Fail => r == None
    }

    function NumBitsRead(): nat
      requires Valid()
      reads this
    {
      size - |unread|
    }

    // ---- delegated to the underlying reader

    method ReadUbit(n: nat) returns (r: Option<nat>)
      modifies this
      ensures Did(r, Bits.ReadUbit(n, old(unread)))
      ensures |unread| <= old(|unread|)
    {
      r := None;
      match Bits.ReadUbit(n, unread) {
        case Ok(v, rest) => unread := rest; r := Some(v);
        case Fail =>
      }
    }

    method ReadBool() returns (r: Option<bool>)
      modifies this
      ensures Did(r, Bits.ReadBool(old(unread)))
      ensures |unread| <= old(|unread|)
    {
      r := None;
      match Bits.ReadBool(unread) {
        case Ok(v, rest) => unread := rest; r := Some(v);
        case Fail =>
      }
    }

    method ReadByte() returns (r: Option<Byte>)
      modifies this
      ensures Did(r, Bits.ReadByte(old(unread)))
      ensures |unread| <= old(|unread|)
    {
      r := None;
      match Bits.ReadByte(unread) {
        case Ok(v, rest) => unread := rest; r := Some(v);
        case Fail =>
      }
    }

    method ReadBytes(n: nat) returns (r: Option<Bytes>)
      modifies this
      ensures Did(r, Bits.ReadBytes(n, old(unread)))
      ensures |unread| <= old(|unread|)
    {
      r := None;
      match Bits.ReadBytes(n, unread) {
        case Ok(v, rest) => unread := rest; r := Some(v);
        case Fail =>
      }
    }

    method ReadUvarint32() returns (r: Option<nat>)
      modifies this
      ensures Did(r, Bits.ReadUvarint32(old(unread)))
      ensures |unread| <= old(|unread|)
    {
      r := None;
      match Bits.ReadUvarint32(unread) {
        case Ok(v, rest) => unread := rest; r := Some(v);
        case Fail =>
      }
    }

    method ReadUvarint64() returns (r: Option<nat>)
      modifies this
      ensures Did(r, Bits.ReadUvarint64(old(unread)))
      ensures |unread| <= old(|unread|)
    {
      r := None;
      match Bits.ReadUvarint64(unread) {
        case Ok(v, rest) => unread := rest; r := Some(v);
        case Fail =>
      }
    }

    method ReadVarint32() returns (r: Option<int>)
      modifies this
      ensures Did(r, Bits.ReadVarint32(old(unread)))
      ensures |unread| <= old(|unread|)
    {
      r := None;
      match Bits.ReadVarint32(unread) {
        case Ok(v, rest) => unread := rest; r := Some(v);
        case Fail =>
      }
    }

    method ReadVarint64() returns (r: Option<int>)
      modifies this
      ensures Did(r, Bits.ReadVarint64(old(unread)))
      ensures |unread| <= old(|unread|)
    {
      r := None;
      match Bits.ReadVarint64(unread) {
        case Ok(v, rest) => unread := rest; r := Some(v);
        case Fail =>
      }
    }

    method SkipBits(n: nat) returns (r: Option<()>)
      modifies this
      ensures Did(r, Bits.SkipBits(n, old(unread)))
      ensures |unread| <= old(|unread|)
    {
      r := None;
      match Bits.SkipBits(n, unread) {
        case Ok(v, rest) => unread := rest; r := Some(v);
        case Fail =>
      }
    }

    // ---- composed from the reads above

    method ReadUbitvar() returns (r: Option<nat>)
      modifies this
      ensures Did(r, Bits.ReadUbitvar(old(unread)))
      ensures |unread| <= old(|unread|)
    {
      r := None;
      var head := ReadUbit(6);
      if head.None? { return; }
      var ret := head.value;
      var more: Option<nat>;
      match ret / 16 {
        case 1 => more := ReadUbit(4);
        case 2 => more := ReadUbit(8);
        case 3 => more := ReadUbit(32 - 4);
        case _ => return Some(ret);
      }
      if more.None? { return; }
      r := Some(ret % 16 + 16 * more.value);
    }

    method ReadUbitvarfp() returns (r: Option<nat>)
      modifies this
      ensures Did(r, Bits.ReadUbitvarfp(old(unread)))
      ensures |unread| <= old(|unread|)
    {
      r := None;
      ghost var spec := Bits.ReadUbitvarfp(unread);
      assert spec == Bits.ReadPrefixed([2, 4, 10, 17, 31], unread);
      var flag := ReadBool();
      if flag.None? { return; }
      if flag.value { r := ReadUbit(2); return; }
      assert [2, 4, 10, 17, 31][1..] == [4, 10, 17, 31];
      assert spec == Bits.ReadPrefixed([4, 10, 17, 31], unread);
      flag := ReadBool();
      if flag.None? { return; }
      if flag.value { r := ReadUbit(4); return; }
      assert [4, 10, 17, 31][1..] == [10, 17, 31];
      assert spec == Bits.ReadPrefixed([10, 17, 31], unread);
      flag := ReadBool();
      if flag.None? { return; }
      if flag.value { r := ReadUbit(10); return; }
      assert [10, 17, 31][1..] == [17, 31];
      assert spec == Bits.ReadPrefixed([17, 31], unread);
      flag := ReadBool();
      if flag.None? { return; }
      if flag.value { r := ReadUbit(17); return; }
      assert [17, 31][1..] == [31];
      r := ReadUbit(31);
    }

    /** Reads into `buf` from index `at` on; fails, having read the whole string, when the
        characters and a NUL do not fit. */
    method ReadString(buf: array<Byte>, at: nat, line: bool) returns (r: Option<nat>)
      requires at <= buf.Length
      modifies this, buf
      ensures |unread| <= old(|unread|)
      ensures match Bits.ReadText(line, old(unread))
              case Ok(s, rest) =>
                if |s| < buf.Length - at
                then r == Some(|s|) && unread == rest && buf[..] == Overlaid(old(buf[..]), at, s + [0])
                else r == None
              case Fail => r == None
    {
      assert Overlaid(buf[..], at, []) == buf[..];
      hide Bits.ReadText, Bits.ReadByte, Bits.Ends, Overlaid;
      r := None;
      if at == buf.Length { return; }
      var tooSmall := false;
      var numChars := 0;
      ghost var was := buf[..];
      ghost var start := unread;
      ghost var seen: Bytes := [];
      Bits.InTextStart(line, start);
      while true
        invariant |unread| <= |start|
        invariant numChars <= buf.Length - 1 - at
        invariant tooSmall <==> |seen| > buf.Length - 1 - at
        invariant !tooSmall ==> numChars == |seen|
        invariant !tooSmall ==> buf[..] == Overlaid(was, at, seen)
        invariant Bits.InText(line, start, seen, unread)
        decreases |unread|
      {
        Bits.InTextNext(line, start, seen, unread);
        var val := ReadByte();
        if val.None? { return; }
        if Bits.Ends(line, val.value) { break; }
        if numChars < buf.Length - 1 - at {
          if !tooSmall { OverlayNext(was, at, seen, val.value); }
          buf[at + numChars] := val.value;
          numChars := numChars + 1;
        } else {
          tooSmall := true;
        }
        seen := seen + [val.value];
      }
      if !tooSmall { OverlayNext(was, at, seen, 0); }
      buf[at + numChars] := 0;
      if tooSmall { return; }
      r := Some(numChars);
    }

    method ReadStringToEnd(line: bool) returns (r: Option<Bytes>)
      modifies this
      ensures Did(r, Bits.ReadText(line, old(unread)))
      ensures |unread| <= old(|unread|)
    {
      r := None;
      var buf: Bytes := [];
      ghost var start := unread;
      Bits.InTextStart(line, start);
      while true
        invariant |unread| <= |start|
        invariant Bits.InText(line, start, buf, unread)
        decreases |unread|
      {
        Bits.InTextNext(line, start, buf, unread);
        var val := ReadByte();
        if val.None? { return; }
        if Bits.Ends(line, val.value) { break; }
        buf := buf + [val.value];
      }
      r := Some(buf);
    }
  }
}
