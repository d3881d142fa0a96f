/** When the visitor is told that a tick ended: read off the record alone, for runs, segments and seeks. */
module TickEnds {
  import opened Prelude
  import opened Player
  import opened Segments

  /** How many calls at the front are about messages. */
  function InsideLength(calls: seq<Call>): (n: nat)
    ensures n <= |calls| && Inside(calls[..n])
    ensures n < |calls| ==> calls[n].OnCmd? || calls[n].OnTickEnd?
  {
    if calls != [] && (calls[0].OnPacket? || calls[0].OnEntity?) then
      var n := InsideLength(calls[1..]);
      assert calls[..n + 1] == [calls[0]] + calls[1..][..n];
      n + 1
    else 0
  }

  /** Where in a run: in a seek it matters whether the sync tick was passed. */
  datatype Phase = Sequential | Seeking | Synced

  function After(phase: Phase, cmd: Command): Phase
  {
    if phase.Seeking? && cmd.body.SyncTick? then Synced else phase
  }

  /** A tick ends when it changed; after the sync tick of a seek a full packet ends its tick in any case. */
  predicate EndsTick(shown: Call, phase: Phase)
    requires shown.OnCmd?
  {
    shown.prevTick != shown.sight.tick || (phase.Synced? && shown.cmd.body.FullPacket?)
  }

  predicate IsEnd(end: Call, of: Call)
    requires of.OnCmd?
  {
    end.OnTickEnd? && end.sight.tick == of.sight.tick && end.sight.tables.Some? && end.sight.entities.Some?
  }

  /** The record is one block per command: `on_cmd`, the calls for its messages, and then, if its tick ends, one
      `on_tick_end` that sees everything at the command's tick. */
  predicate InBlocks(calls: seq<Call>, phase: Phase)
    decreases |calls|
  {
    calls == [] ||
    (calls[0].OnCmd? &&
     var n := 1 + InsideLength(calls[1..]);
     if EndsTick(calls[0], phase) then
       n < |calls| && IsEnd(calls[n], calls[0]) && InBlocks(calls[n + 1..], After(phase, calls[0].cmd))
     else InBlocks(calls[n..], After(phase, calls[0].cmd)))
  }

  function Changed(stamps: seq<Stamped>): seq<int>
  {
    if stamps == [] then []
    else (if stamps[0].tick != stamps[0].prevTick then [stamps[0].tick] else []) + Changed(stamps[1..])
  }

  function EndedTicks(calls: seq<Call>): seq<int>
  {
    if calls == [] then []
    else (if calls[0].OnTickEnd? then [calls[0].sight.tick] else []) + EndedTicks(calls[1..])
  }

  // ---- what a record in blocks means

  lemma {:induction false} InsideSkipped(inside: seq<Call>, more: seq<Call>)
    requires Inside(inside)
    ensures CommandCalls(inside + more) == CommandCalls(more) && EndedTicks(inside + more) == EndedTicks(more)
    decreases |inside|
  {
    if inside == [] {
      assert inside + more == more;
    } else {
      assert (inside + more)[0] == inside[0] && (inside + more)[1..] == inside[1..] + more;
      InsideSkipped(inside[1..], more);
    }
  }

  /** The ticks that end are those of the commands at which the tick changed, one each, in order. */
  lemma {:induction false} BlocksEndTicks(calls: seq<Call>)
    requires InBlocks(calls, Sequential)
    ensures EndedTicks(calls) == Changed(CommandCalls(calls))
    decreases |calls|
  {
    if calls != [] {
      var n := 1 + InsideLength(calls[1..]);
      var inside, rest := calls[1..][..n - 1], calls[n..];
      assert calls[1..] == inside + rest;
      InsideSkipped(inside, rest);
      var first := Stamped(calls[0].sight.tick, calls[0].prevTick, calls[0].cmd);
      assert CommandCalls(calls) == [first] + CommandCalls(rest) && EndedTicks(calls) == EndedTicks(rest);
      assert ([first] + CommandCalls(rest))[1..] == CommandCalls(rest);
      if EndsTick(calls[0], Sequential) {
        assert rest[0] == calls[n] && rest[1..] == calls[n + 1..];
        BlocksEndTicks(calls[n + 1..]);
        assert CommandCalls(rest) == CommandCalls(rest[1..]);
      } else {
        BlocksEndTicks(rest);
      }
    }
  }

  /** After a tick ended the next command comes. */
  lemma {:induction false} CommandAfterEnd(calls: seq<Call>, phase: Phase, i: nat)
    requires InBlocks(calls, phase) && i + 1 < |calls| && calls[i].OnTickEnd?
    ensures calls[i + 1].OnCmd?
    decreases |calls|
  {
    var n := 1 + InsideLength(calls[1..]);
    assert forall k | 1 <= k < n :: calls[k] == calls[1..][..n - 1][k - 1];
    var later := After(phase, calls[0].cmd);
    var m := if EndsTick(calls[0], phase) then n + 1 else n;
    if i >= m {
      CommandAfterEnd(calls[m..], later, i - m);
    } else {
      assert calls[m..][0] == calls[m];
    }
  }

  // ---- the records are in blocks

  lemma BlockOf(first: Call, inside: seq<Call>, tail: seq<Call>, phase: Phase)
    requires first.OnCmd? && Inside(inside)
    requires if EndsTick(first, phase)
      then tail != [] && IsEnd(tail[0], first) && InBlocks(tail[1..], After(phase, first.cmd))
      else InBlocks(tail, After(phase, first.cmd))
    ensures InBlocks([first] + inside + tail, phase)
  {
    hide InsideLength, EndsTick, After, Inside, IsEnd, InBlocks;
    TailStarts(first, tail, phase);
    InsideStops(inside, tail);
    var all, n := [first] + inside + tail, 1 + |inside|;
    assert all[0] == first && all[1..] == inside + tail && all[n..] == tail;
    assert tail != [] ==> all[n] == tail[0] && all[n + 1..] == tail[1..];
    FirstBlock(all, phase);
  }

  lemma TailStarts(first: Call, tail: seq<Call>, phase: Phase)
    requires first.OnCmd?
    requires if EndsTick(first, phase) then tail != [] && IsEnd(tail[0], first)
      else InBlocks(tail, After(phase, first.cmd))
    ensures tail == [] || tail[0].OnCmd? || tail[0].OnTickEnd?
  {
    if !EndsTick(first, phase) {
      MoreStarts(tail, After(phase, first.cmd));
    }
  }

  lemma FirstBlock(calls: seq<Call>, phase: Phase)
    requires calls != [] && calls[0].OnCmd?
    ensures var n, later := 1 + InsideLength(calls[1..]), After(phase, calls[0].cmd);
      InBlocks(calls, phase) <==>
        if EndsTick(calls[0], phase) then n < |calls| && IsEnd(calls[n], calls[0]) && InBlocks(calls[n + 1..], later)
        else InBlocks(calls[n..], later)
  {
    hide InsideLength, EndsTick, After, IsEnd;
  }

  /** One command. */
  lemma OneBlock(first: Call, inside: seq<Call>, end: seq<Call>, more: seq<Call>, phase: Phase)
    requires first.OnCmd? && Inside(inside) && InBlocks(more, After(phase, first.cmd))
    requires if EndsTick(first, phase) then |end| == 1 && IsEnd(end[0], first) else end == []
    ensures InBlocks([first] + inside + end + more, phase)
  {
    hide InBlocks, Inside, EndsTick, After;
    assert [first] + inside + end + more == [first] + inside + (end + more);
    if end == [] {
      assert end + more == more;
    } else {
      assert (end + more)[1..] == more;
    }
    BlockOf(first, inside, end + more, phase);
  }

  lemma MoreStarts(calls: seq<Call>, phase: Phase)
    requires InBlocks(calls, phase)
    ensures calls == [] || calls[0].OnCmd?
  {
  }

  lemma {:induction false} InsideStops(inside: seq<Call>, more: seq<Call>)
    requires Inside(inside) && (more == [] || more[0].OnCmd? || more[0].OnTickEnd?)
    ensures InsideLength(inside + more) == |inside|
    decreases |inside|
  {
    if inside == [] {
      assert inside + more == more;
    } else {
      assert (inside + more)[0] == inside[0] && (inside + more)[1..] == inside[1..] + more;
      InsideStops(inside[1..], more);
    }
  }

  lemma HandleInBlocks(env: Env, ctx: Context, cmd: Command, more: seq<Call>, phase: Phase)
    requires ctx.tick == cmd.tick && Handle(env, ctx, false, cmd).Some?
    requires phase.Synced? ==> !cmd.body.FullPacket?
    requires InBlocks(more, After(phase, cmd))
    ensures InBlocks(Handle(env, ctx, false, cmd).value.calls + more, phase)
    ensures Handle(env, ctx, false, cmd).value.ctx.tick == cmd.tick
  {
    hide HandleBody, InBlocks;
    BodyQuiet(env, ctx, false, cmd.body);
    var r := HandleBody(env, ctx, false, cmd.body).value;
    OneBlock(OnCmd(See(ctx, CommandScope(cmd)), ctx.prevTick, cmd), r.calls, TickEnd(r.ctx), more, phase);
  }

  lemma NoCalls(phase: Phase)
    ensures InBlocks([], phase)
  {
  }

  lemma {:induction false} RunInBlocks(env: Env, ctx: Context, cmds: seq<Command>)
    requires Run(env, ctx, cmds).Some?
    ensures InBlocks(Run(env, ctx, cmds).value.calls, Sequential)
    ensures CommandCalls(Run(env, ctx, cmds).value.calls) == StampAll(ctx.tick, cmds)
    decreases |cmds|
  {
    hide Handle, InBlocks;
    if cmds == [] {
      NoCalls(Sequential);
    } else {
      var ctx1, rest := Advance(ctx, cmds[0]), cmds[1..];
      var r := Handle(env, ctx1, false, cmds[0]).value;
      HandleShowsCommand(env, ctx1, false, cmds[0]);
      RunInBlocks(env, r.ctx, rest);
      var more := Run(env, r.ctx, rest).value.calls;
      HandleInBlocks(env, ctx1, cmds[0], more, Sequential);
      CommandCallsConcat(r.calls, more);
    }
  }

  lemma {:induction false} SegmentInBlocks(env: Env, ctx: Context, cmds: seq<Command>, clean: bool, ordinal: nat,
      seen: nat, collecting: bool)
    requires SegmentFrom(env, ctx, cmds, clean, ordinal, seen, collecting).Some?
    ensures InBlocks(SegmentFrom(env, ctx, cmds, clean, ordinal, seen, collecting).value.calls, Sequential)
    decreases |cmds|
  {
    hide Handle, InBlocks;
    NoCalls(Sequential);
    if cmds != [] {
      var cmd, rest := cmds[0], cmds[1..];
      var ctx1 := Advance(ctx, cmd);
      if cmd.body.FullPacket? && seen != ordinal {
        if seen < ordinal {
          SegmentInBlocks(env, ctx1, rest, clean, ordinal, seen + 1, collecting);
        }
      } else if cmd.body.FullPacket? || collecting {
        var later := if cmd.body.FullPacket? then seen + 1 else seen;
        var r := Handle(env, ctx1, false, cmd).value;
        SegmentInBlocks(env, r.ctx, rest, clean, ordinal, later, true);
        HandleInBlocks(env, ctx1, cmd, SegmentFrom(env, r.ctx, rest, clean, ordinal, later, true).value.calls,
                       Sequential);
      } else if IsInit(cmd.body) {
        SegmentInBlocks(env, Handle(env, ctx1, true, cmd).value.ctx, rest, clean, ordinal, seen, false);
      } else {
        SegmentInBlocks(env, ctx1, rest, clean, ordinal, seen, false);
      }
    }
  }

  lemma SeekFullPacketInBlocks(env: Env, ctx: Context, cmd: Command, target: int, more: seq<Call>)
    requires cmd.body.FullPacket? && ctx.tick == cmd.tick && SeekFullPacket(env, ctx, cmd, target).Some?
    requires InBlocks(more, Synced)
    ensures InBlocks(SeekFullPacket(env, ctx, cmd, target).value.calls + more, Synced)
  {
    hide InBlocks, HandleFullPacket, Ahead;
    var body := if Ahead(ctx, target) then cmd.body.(packet := None) else cmd.body;
    BodyQuiet(env, ctx, false, body);
    var r := HandleFullPacket(env, ctx, false, body.snapshots, body.packet).value;
    OneBlock(OnCmd(See(ctx, InitOnly), ctx.prevTick, cmd), r.calls, [OnTickEnd(See(r.ctx, Everything))], more, Synced);
  }

  lemma {:induction false} SeekInBlocks(env: Env, ctx: Context, cmds: seq<Command>, clean: bool, target: int,
      synced: bool, last: bool)
    requires SeekFrom(env, ctx, cmds, clean, target, synced, last).Some?
    ensures InBlocks(SeekFrom(env, ctx, cmds, clean, target, synced, last).value.calls,
                     if synced then Synced else Seeking)
    decreases |cmds|
  {
    hide Handle, SeekFullPacket, InBlocks, Ahead;
    var phase := if synced then Synced else Seeking;
    NoCalls(phase);
    if cmds != [] && cmds[0].tick <= target {
      var cmd, rest := cmds[0], cmds[1..];
      var ctx1 := Advance(ctx, cmd);
      if synced && cmd.body.FullPacket? {
        var r := SeekFullPacket(env, ctx1, cmd, target).value;
        SeekInBlocks(env, r.ctx, rest, clean, target, true, !Ahead(ctx1, target));
        var more := SeekFrom(env, r.ctx, rest, clean, target, true, !Ahead(ctx1, target)).value.calls;
        SeekFullPacketInBlocks(env, ctx1, cmd, target, more);
      } else if !synced || last {
        var r := Handle(env, ctx1, false, cmd).value;
        var later := synced || cmd.body.SyncTick?;
        SeekInBlocks(env, r.ctx, rest, clean, target, later, last);
        HandleInBlocks(env, ctx1, cmd, SeekFrom(env, r.ctx, rest, clean, target, later, last).value.calls, phase);
      } else {
        SeekInBlocks(env, ctx1, rest, clean, target, synced, last);
      }
    }
  }

  // ---- the results

  /** For every demo that runs through: the record is in blocks, one per command with the ticks of the file, so
      the visitor is told of the end of exactly the ticks at which the tick changed. */
  lemma RunEndsTicks(env: Env, ctx: Context, cmds: seq<Command>)
    requires Run(env, ctx, cmds).Some?
    ensures var calls := Run(env, ctx, cmds).value.calls;
      && InBlocks(calls, Sequential) && CommandCalls(calls) == StampAll(ctx.tick, cmds)
      && EndedTicks(calls) == Changed(StampAll(ctx.tick, cmds))
  {
    RunInBlocks(env, ctx, cmds);
    BlocksEndTicks(Run(env, ctx, cmds).value.calls);
  }

  /** The same for a segment and the commands it collects. */
  lemma SegmentEndsTicks(env: Env, ctx: Context, cmds: seq<Command>, clean: bool, ordinal: nat)
    requires Segment(env, ctx, cmds, clean, ordinal).Some?
    ensures var calls := Segment(env, ctx, cmds, clean, ordinal).value.calls;
      var collected := CollectFrom(-1, cmds, ordinal, 0, ordinal == 0);
      && InBlocks(calls, Sequential) && CommandCalls(calls) == collected && EndedTicks(calls) == Changed(collected)
  {
    SegmentShowsCollected(env, ResetContext(ctx), cmds, clean, ordinal, 0, ordinal == 0);
    SegmentInBlocks(env, ResetContext(ctx), cmds, clean, ordinal, 0, ordinal == 0);
    BlocksEndTicks(Segment(env, ctx, cmds, clean, ordinal).value.calls);
  }
}
