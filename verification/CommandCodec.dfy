/** Commands written to bytes, and that both streams give them back. */
module CommandCodecs {
  import opened Prelude
  import opened PacketChannels

  // ---- varints

  /** The number with these digits in base 128, low ones first. */
  function ValueOf(groups: seq<nat>): nat
  {
    if groups == [] then 0 else groups[0] + 128 * ValueOf(groups[1..])
  }

  predicate Digits(groups: seq<nat>)
  {
    forall i | 0 <= i < |groups| :: groups[i] < 128
  }

  /** One digit a byte; the bytes before the last are marked. */
  function Marked(groups: seq<nat>): (r: Bytes)
    requires Digits(groups)
    ensures |r| == |groups|
  {
    if groups == [] then []
    else if |groups| == 1 then [groups[0]]
    else [128 + groups[0]] + Marked(groups[1..])
  }

  /** The place of digit `k`, as a literal. */
  function Place(k: nat): nat
    requires k < 5
  {
    match k
    case 0 => 1
    case 1 => 128
    case 2 => 16384
    case 3 => 2097152
    case _ => 268435456
  }

  lemma PlaceIsPow2(k: nat)
    requires k < 5
    ensures Pow2(7 * k) == Place(k)
  {
    var i := 0;
    while i < k
      invariant i <= k && Pow2(7 * i) == Place(i)
    {
      var seven := 7;
      Pow2Add(7 * i, seven);
      assert Pow2(seven) == 128;
      i := i + 1;
    }
  }

  lemma Remainder(x: nat, q: nat, r: nat)
    requires x == U32 * q + r && r < U32
    ensures x % U32 == r
  {
  }

  /** A digit and the number behind it, as far as 32 bits go. */
  lemma DigitThenRest0(d: nat, w: nat)
    requires d < 128
    ensures d % U32 + w * 128 % U32 == (d + 128 * w) % U32
  {
    var q, left := w / 33554432, w % 33554432;
    Remainder(w * 128, q, left * 128);
    Remainder((d + 128 * w), q, d + left * 128);
  }

  lemma DigitThenRest1(d: nat, w: nat)
    requires d < 128
    ensures d * 128 % U32 + w * 16384 % U32 == (d + 128 * w) * 128 % U32
  {
    var q, left := w / 262144, w % 262144;
    Remainder(w * 16384, q, left * 16384);
    Remainder((d + 128 * w) * 128, q, d * 128 + left * 16384);
  }

  lemma DigitThenRest2(d: nat, w: nat)
    requires d < 128
    ensures d * 16384 % U32 + w * 2097152 % U32 == (d + 128 * w) * 16384 % U32
  {
    var q, left := w / 2048, w % 2048;
    Remainder(w * 2097152, q, left * 2097152);
    Remainder((d + 128 * w) * 16384, q, d * 16384 + left * 2097152);
  }

  lemma DigitThenRest3(d: nat, w: nat)
    requires d < 128
    ensures d * 2097152 % U32 + w * 268435456 % U32 == (d + 128 * w) * 2097152 % U32
  {
    var q, left := w / 16, w % 16;
    Remainder(w * 268435456, q, left * 268435456);
    Remainder((d + 128 * w) * 2097152, q, d * 2097152 + left * 268435456);
  }

  lemma DigitThenRest(d: nat, w: nat, k: nat)
    requires d < 128 && k < 4
    ensures d * Place(k) % U32 + w * Place(k + 1) % U32 == (d + 128 * w) * Place(k) % U32
  {
    match k
    case 0 => DigitThenRest0(d, w);
    case 1 => DigitThenRest1(d, w);
    case 2 => DigitThenRest2(d, w);
    case 3 => DigitThenRest3(d, w);
  }

  /** The first byte of a varint. */
  lemma VarintAt(u: Bytes, k: nat)
    requires u != [] && k < 5
    ensures u[0] < 128 ==> VarintFrom(u, k) == Got(u[0] * Place(k) % U32, 1)
    ensures u[0] >= 128 && k == 4 ==> VarintFrom(u, k) == Bad(VarintTooLarge, 1)
    ensures u[0] >= 128 && k < 4 ==>
      VarintFrom(u, k) ==
        match VarintFrom(u[1..], k + 1)
        case Got(v, n) => Got((u[0] - 128) * Place(k) % U32 + v, n + 1)
        case Bad(e, n) => Bad(e, n + 1)
  {
    PlaceIsPow2(k);
    hide Pow2, Place;
    assert u[0] >= 128 ==> u[0] % 128 == u[0] - 128;
  }

  lemma {:induction false} VarintOfDigits(groups: seq<nat>, more: Bytes, k: nat)
    requires groups != [] && Digits(groups) && |groups| + k <= 5
    ensures VarintFrom(Marked(groups) + more, k) == Got(ValueOf(groups) * Place(k) % U32, |groups|)
    decreases |groups|
  {
    var u := Marked(groups) + more;
    VarintAt(u, k);
    hide VarintFrom, Place;
    if |groups| == 1 {
      assert ValueOf(groups) == groups[0] + 128 * ValueOf(groups[1..]);
      assert u[0] == groups[0];
    } else {
      var rest := groups[1..];
      assert u[0] == 128 + groups[0] && u[1..] == Marked(rest) + more;
      VarintOfDigits(rest, more, k + 1);
      DigitThenRest(groups[0], ValueOf(rest), k);
    }
  }

  /** Up to five bytes mean their digits in base 128, modulo 2^32; with more the varint is too large. */
  lemma VarintValue(groups: seq<nat>, more: Bytes)
    requires groups != [] && Digits(groups)
    ensures VarintFrom(Marked(groups) + more, 0) ==
      if |groups| <= 5 then Got(ValueOf(groups) % 0x1_0000_0000, |groups|) else Bad(VarintTooLarge, 5)
  {
    if |groups| <= 5 {
      VarintOfDigits(groups, more, 0);
    } else {
      TooManyDigits(groups, more, 0);
    }
  }

  lemma {:induction false} TooManyDigits(groups: seq<nat>, more: Bytes, k: nat)
    requires Digits(groups) && |groups| + k > 5 && k < 5
    ensures VarintFrom(Marked(groups) + more, k) == Bad(VarintTooLarge, 5 - k)
    decreases |groups|
  {
    hide Pow2;
    var u := Marked(groups) + more;
    assert u[0] == 128 + groups[0] && u[1..] == Marked(groups[1..]) + more;
    if k < 4 {
      TooManyDigits(groups[1..], more, k + 1);
    }
  }

  function DigitsOf(v: nat): (r: seq<nat>)
    ensures r != [] && Digits(r) && ValueOf(r) == v
  {
    if v < 128 then [v] else [v % 128] + DigitsOf(v / 128)
  }

  lemma {:induction false} DigitCount(v: nat, k: nat)
    requires k < 5 && v * Place(k) < U32
    ensures |DigitsOf(v)| <= 5 - k
    decreases v
  {
    if v >= 128 {
      DigitFits(v, k);
      DigitCount(v / 128, k + 1);
    }
  }

  lemma DigitFits(v: nat, k: nat)
    requires k < 5 && v * Place(k) < U32 && v >= 128
    ensures k < 4 && v / 128 * Place(k + 1) < U32
  {
    if k == 0 {
    } else if k == 1 {
    } else if k == 2 {
    } else if k == 3 {
    }
  }

  function EncVarint(v: nat): (r: Bytes)
    ensures r != []
  {
    Marked(DigitsOf(v))
  }

  lemma VarintRoundTrip(v: nat, more: Bytes)
    requires v < 0x1_0000_0000
    ensures VarintFrom(EncVarint(v) + more, 0) == Got(v, |EncVarint(v)|)
    ensures |EncVarint(v)| <= 5
  {
    hide VarintFrom;
    DigitCount(v, 0);
    VarintValue(DigitsOf(v), more);
  }

  // ---- command headers

  type I32 = x: int | -0x8000_0000 <= x < 0x8000_0000

  /** A tick as the word that is written: -1 is the largest. */
  function WordOf(v: I32): nat
  {
    if v < 0 then 0x1_0000_0000 + v else v
  }

  /** A command as a demo holds it: `packed` is what stands in the file, `plain` what it means. */
  datatype DemoCmd = DemoCmd(cmd: nat, compressed: bool, tick: I32, packed: Bytes, plain: Bytes)

  /** The command number leaves room for the flag, the numbers fit, and a compressed body can be decompressed. */
  predicate Writable(known: int -> bool, unsnap: Unsnap, c: DemoCmd)
  {
    && c.cmd < 64 && known(c.cmd) && |c.packed| < 0x1_0000_0000
    && (if c.compressed then unsnap(c.packed) == Some(c.plain) else c.plain == c.packed)
  }

  function EncHeader(c: DemoCmd): Bytes
  {
    EncVarint(c.cmd + if c.compressed then 64 else 0) + EncVarint(WordOf(c.tick)) + EncVarint(|c.packed|)
  }

  lemma HeaderRoundTrip(known: int -> bool, unsnap: Unsnap, c: DemoCmd, more: Bytes)
    requires Writable(known, unsnap, c)
    ensures |EncHeader(c)| <= 15
    ensures ParseHeader(known, EncHeader(c) + more)
         == Got(CmdHeader(c.cmd, c.compressed, c.tick, |c.packed|, |EncHeader(c)|), |EncHeader(c)|)
  {
    hide VarintFrom, EncVarint;
    var raw := c.cmd + if c.compressed then 64 else 0;
    var first, second, third := EncVarint(raw), EncVarint(WordOf(c.tick)), EncVarint(|c.packed|);
    var u := EncHeader(c) + more;
    assert u == first + (second + (third + more));
    VarintRoundTrip(raw, second + (third + more));
    assert u[|first|..] == second + (third + more);
    VarintRoundTrip(WordOf(c.tick), third + more);
    assert u[|first| + |second|..] == third + more;
    VarintRoundTrip(|c.packed|, more);
    assert CmdOf(raw) == c.cmd && IsCompressed(raw) == c.compressed;
  }

  // ---- whole streams

  function EncCmds(cmds: seq<DemoCmd>): Bytes
  {
    if cmds == [] then [] else EncHeader(cmds[0]) + cmds[0].packed + EncCmds(cmds[1..])
  }

  function GivenFor(c: DemoCmd): Cmd
  {
    Cmd(CmdHeader(c.cmd, c.compressed, c.tick, |c.packed|, |EncHeader(c)|), c.plain)
  }

  lemma CmdIsRead(known: int -> bool, unsnap: Unsnap, c: DemoCmd, more: Bytes)
    requires Writable(known, unsnap, c)
    ensures var u := EncHeader(c) + c.packed + more;
      var h := ParseHeader(known, u);
      && h == Got(GivenFor(c).header, |EncHeader(c)|)
      && ReadCmd(unsnap, h.value, Stream(true, u[h.taken..])) == Read(Got(c.plain, |c.packed|), Stream(true, more))
  {
    hide ParseHeader, EncHeader;
    var u := EncHeader(c) + c.packed + more;
    assert u == EncHeader(c) + (c.packed + more);
    HeaderRoundTrip(known, unsnap, c, c.packed + more);
    assert u[|EncHeader(c)|..] == c.packed + more;
    assert (c.packed + more)[..|c.packed|] == c.packed && (c.packed + more)[|c.packed|..] == more;
  }

  /** The whole-file reader gives exactly the commands written, decompressed, and then the end of the file. */
  lemma {:induction false} FileRoundTrip(known: int -> bool, unsnap: Unsnap, cmds: seq<DemoCmd>)
    requires forall i | 0 <= i < |cmds| :: Writable(known, unsnap, cmds[i])
    ensures PlayFile(known, unsnap, EncCmds(cmds))
         == Played(seq(|cmds|, i requires 0 <= i < |cmds| => GivenFor(cmds[i])), Eof)
    decreases |cmds|
  {
    hide ParseHeader, ReadCmd, EncHeader;
    if cmds == [] {
      NothingIsRead(known);
    } else {
      CmdIsRead(known, unsnap, cmds[0], EncCmds(cmds[1..]));
      FileRoundTrip(known, unsnap, cmds[1..]);
      var given := seq(|cmds|, i requires 0 <= i < |cmds| => GivenFor(cmds[i]));
      assert given == [GivenFor(cmds[0])] + PlayFile(known, unsnap, EncCmds(cmds[1..])).cmds;
    }
  }

  lemma NothingIsRead(known: int -> bool)
    ensures ParseHeader(known, []) == Bad(Eof, 0)
  {
  }

  /** There is room at every header exactly when the last command takes at least fifteen bytes. */
  lemma {:induction false} RoomIsLast(known: int -> bool, unsnap: Unsnap, cmds: seq<DemoCmd>)
    requires forall i | 0 <= i < |cmds| :: Writable(known, unsnap, cmds[i])
    ensures RoomAtHeaders(known, unsnap, EncCmds(cmds)) <==>
      (cmds != [] ==> var last := cmds[|cmds| - 1]; |EncHeader(last)| + |last.packed| >= 15)
    decreases |cmds|
  {
    hide ParseHeader, ReadCmd, EncHeader;
    if cmds == [] {
      NothingIsRead(known);
    } else {
      CmdIsRead(known, unsnap, cmds[0], EncCmds(cmds[1..]));
      RoomIsLast(known, unsnap, cmds[1..]);
      if |cmds| == 1 {
        assert EncCmds(cmds[1..]) == [];
      } else {
        assert cmds[1..][|cmds[1..]| - 1] == cmds[|cmds| - 1];
        if |EncCmds(cmds)| < 15 {
          TailIsShorter(cmds);
        }
      }
    }
  }

  lemma {:induction false} TailIsShorter(cmds: seq<DemoCmd>)
    requires cmds != []
    ensures var last := cmds[|cmds| - 1]; |EncHeader(last)| + |last.packed| <= |EncCmds(cmds)|
    decreases |cmds|
  {
    hide EncHeader;
    if |cmds| > 1 {
      TailIsShorter(cmds[1..]);
    }
  }

  /** Over any file header and any splitting the chunked reader gives the same, exactly when the last command
      takes at least fifteen bytes. */
  lemma ChunkedRoundTrip(known: int -> bool, unsnap: Unsnap, fileHeader: Bytes, cmds: seq<DemoCmd>)
    requires |fileHeader| == 16 && forall i | 0 <= i < |cmds| :: Writable(known, unsnap, cmds[i])
    ensures Play(known, unsnap, Stream(false, fileHeader + EncCmds(cmds)))
         == Played(seq(|cmds|, i requires 0 <= i < |cmds| => GivenFor(cmds[i])), Eof)
      <==> (cmds != [] ==> var last := cmds[|cmds| - 1]; |EncHeader(last)| + |last.packed| >= 15)
  {
    hide PlayFile, RoomAtHeaders, ParseHeader, ReadCmd;
    FileRoundTrip(known, unsnap, cmds);
    PlayAgreesIff(known, unsnap, EncCmds(cmds));
    RoomIsLast(known, unsnap, cmds);
    assert (fileHeader + EncCmds(cmds))[16..] == EncCmds(cmds);
    assert ReadCmdHeader(known, Stream(false, fileHeader + EncCmds(cmds)))
        == ReadCmdHeader(known, Stream(true, EncCmds(cmds)));
  }
}
