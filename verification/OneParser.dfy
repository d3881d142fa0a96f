/** One parser asked for the segments one after the other: what it keeps from segment to segment. */
module OneParser {
  import opened Prelude
  import opened StringTables
  import opened EntitySnapshots
  import opened Snapshots
  import opened Following
  import opened Segments
  import opened Player

  /** The records of segments `k` to `n - 1`, each parsed with the context that the one before left. */
  function InTurn(env: Env, ctx: Context, cmds: seq<Command>, k: nat, n: nat): Option<seq<Call>>
    decreases if k < n then n - k else 0, 0
  {
    if k >= n then Some([]) else ThenRest(env, Segment(env, ctx, cmds, true, k), cmds, k + 1, n)
  }

  function ThenRest(env: Env, o: Option<Out>, cmds: seq<Command>, k: nat, n: nat): Option<seq<Call>>
    decreases if k < n then n - k else 0, 1
  {
    match o
    case Some(r) => Joined(Some(r.calls), InTurn(env, r.ctx, cmds, k, n))
    case None => None
  }

  lemma ThenRestThen(env: Env, calls: seq<Call>, o: Option<Out>, cmds: seq<Command>, k: nat, n: nat)
    ensures ThenRest(env, Then(calls, o), cmds, k, n) == Joined(Some(calls), ThenRest(env, o, cmds, k, n))
  {
    hide Joined;
    match o
    case Some(r) => JoinedAssoc(calls, Some(r.calls), InTurn(env, r.ctx, cmds, k, n));
      assert Joined(Some(calls), Some(r.calls)) == Some(calls + r.calls) by { JoinedSome(calls, r.calls); }
    case None => assert Joined(Some(calls), None) == None by { JoinedNone(calls); }
  }

  lemma JoinedSome(a: seq<Call>, b: seq<Call>)
    ensures Joined(Some(a), Some(b)) == Some(a + b)
  {
  }

  lemma JoinedNone(a: seq<Call>)
    ensures Joined(Some(a), None) == None
  {
  }

  // ---- which tick interval the warm-up finds

  predicate Announces(ms: seq<Message>)
  {
    exists i :: 0 <= i < |ms| && ms[i].ServerInfo? && ms[i].interval.Some?
  }

  predicate AnnouncedIn(body: Body)
  {
    body.SignonPacket? && Announces(body.msgs)
  }

  /** The first `at` commands announce a tick interval where the warm-up sees it. */
  predicate AnnouncedBy(cmds: seq<Command>, at: nat)
    requires at <= |cmds|
  {
    at > 0 && (AnnouncedBy(cmds, at - 1) || AnnouncedIn(cmds[at - 1].body))
  }

  /** If the init commands announce a tick interval at all, the one in force at every full packet but the
      first is the last they announce; `base` is the one announced so far. */
  ghost predicate AnnouncedInForce(env: Env, ctx: Context, cmds: seq<Command>, entered: bool, base: Option<nat>)
    decreases |cmds|
  {
    cmds != [] ==>
      var cmd := cmds[0];
      && (entered && cmd.body.FullPacket? && base.Some? ==> ctx.interval == base.value)
      && var r := Handle(env, Advance(ctx, cmd), false, cmd);
         r.Some? ==> AnnouncedInForce(env, r.value.ctx, cmds[1..], entered || cmd.body.FullPacket?,
                                      BaseAfter(base, cmd.body, r.value.ctx.interval))
  }

  function BaseAfter(base: Option<nat>, body: Body, interval: nat): Option<nat>
  {
    if body.SignonPacket? && (base.Some? || AnnouncedIn(body)) then Some(interval) else base
  }

  // ---- the warm-up of a parser that knows more

  /** The context that the warm-up from `c` reaches before command `at`. */
  function WarmTo(env: Env, c: Context, cmds: seq<Command>, at: nat): Option<Context>
    requires at <= |cmds|
  {
    if at == 0 then Some(c) else
    match WarmTo(env, c, cmds, at - 1)
    case Some(b) => WarmUp(env, b, cmds[at - 1])
    case None => None
  }

  function SeenBy(cmds: seq<Command>, at: nat): nat
    requires at <= |cmds|
  {
    if at == 0 then 0 else SeenBy(cmds, at - 1) + (if cmds[at - 1].body.FullPacket? then 1 else 0)
  }

  /** `b`, with the classes and serializers of `o`, and its tick interval unless another was announced. */
  function Tuned(b: Context, o: Context, announced: bool): Context
  {
    b.(classes := o.classes, serializers := o.serializers,
       interval := if announced then b.interval else o.interval,
       fullPacketInterval := if announced then b.fullPacketInterval else o.fullPacketInterval)
  }

  /** What `b` knows of classes and serializers `o` knows too, and its baselines can be indexed. */
  ghost predicate Fits(b: Context, o: Context)
  {
    && (b.classes.Some? ==> o.classes == b.classes)
    && (b.serializers.Some? ==> o.serializers == b.serializers)
    && BaselinesIndexable(b.tables, ClassCount(o))
  }

  /** The tables of `us` come first in `ts`, with items under the same keys. */
  ghost predicate Extends(us: seq<Table>, ts: seq<Table>)
  {
    |us| <= |ts| && forall k | 0 <= k < |us| :: ts[k].cfg == us[k].cfg && ItemsBelow(us[k].items, ts[k].items)
  }

  lemma FindExtended(us: seq<Table>, ts: seq<Table>, name: string)
    requires Extends(us, ts) && FindTable(us, name).Some?
    ensures FindTable(ts, name) == FindTable(us, name)
  {
    hide ItemsBelow, FindTable;
    var k := FindTable(us, name).value;
    assert ts[k].cfg == us[k].cfg;
  }

  lemma IndexableExtended(us: seq<Table>, ts: seq<Table>, classes: Option<nat>)
    requires Extends(us, ts) && BaselinesIndexable(ts, classes)
    ensures BaselinesIndexable(us, classes)
  {
    if FindTable(us, BASELINE_TABLE).Some? {
      FindExtended(us, ts, BASELINE_TABLE);
    }
  }

  lemma FitsLess(b: Context, later: Context, o: Context)
    requires Fits(later, o) && Extends(b.tables, later.tables)
    requires b.classes.Some? ==> later.classes == b.classes
    requires b.serializers.Some? ==> later.serializers == b.serializers
    ensures Fits(b, o)
  {
    hide Extends, BaselinesIndexable;
    IndexableExtended(b.tables, later.tables, ClassCount(o));
  }

  /** A message met while warming up, with what is known later already known. */
  lemma MessageTuned(env: Env, b: Context, o: Context, announced: bool, m: Message)
    requires ApplyMessage(env, b, true, m).Some? && Fits(ApplyMessage(env, b, true, m).value, o)
    ensures Fits(b, o)
    ensures ApplyMessage(env, Tuned(b, o, announced), true, m)
         == Some(Tuned(ApplyMessage(env, b, true, m).value, o, announced || (m.ServerInfo? && m.interval.Some?)))
  {
    hide ParseUpdate, FindTable, BaselinesIndexable, ItemsBelow;
    var later := ApplyMessage(env, b, true, m).value;
    MessageExtends(env, b, m);
    FitsLess(b, later, o);
  }

  lemma MessageExtends(env: Env, b: Context, m: Message)
    requires ApplyMessage(env, b, true, m).Some?
    ensures Extends(b.tables, ApplyMessage(env, b, true, m).value.tables)
  {
    hide FindTable, BaselinesIndexable, ParseUpdate;
    match m
    case UpdateTable(id, n, data) => UpdateGrows(b.tables[id], env.unsnap, n, data);
    case _ =>
  }

  lemma {:induction false} MessagesTuned(env: Env, b: Context, o: Context, announced: bool, ms: seq<Message>)
    requires HandleMessages(env, b, true, ms, Everything).Some?
    requires Fits(HandleMessages(env, b, true, ms, Everything).value.ctx, o)
    ensures Fits(b, o) && HandleMessages(env, Tuned(b, o, announced), true, ms, Everything).Some?
    ensures HandleMessages(env, Tuned(b, o, announced), true, ms, Everything).value.ctx
         == Tuned(HandleMessages(env, b, true, ms, Everything).value.ctx, o, announced || Announces(ms))
    decreases |ms|
  {
    hide ApplyMessage, MessageCalls, Tuned, Fits;
    if ms != [] {
      var now := ms[0].ServerInfo? && ms[0].interval.Some?;
      AnnouncesNext(ms);
      MessagesTuned(env, ApplyMessage(env, b, true, ms[0]).value, o, announced || now, ms[1..]);
      MessageTuned(env, b, o, announced, ms[0]);
    } else {
      assert !Announces(ms);
    }
  }

  lemma AnnouncesNext(ms: seq<Message>)
    requires ms != []
    ensures Announces(ms) <==> (ms[0].ServerInfo? && ms[0].interval.Some?) || Announces(ms[1..])
  {
    forall i | 0 <= i < |ms[1..]|
      ensures ms[1..][i] == ms[i + 1]
    {
    }
    if i :| 0 <= i < |ms| && ms[i].ServerInfo? && ms[i].interval.Some? {
      if i > 0 {
        assert ms[1..][i - 1].ServerInfo?;
      }
    }
  }

  lemma AdvanceTuned(b: Context, o: Context, announced: bool, cmd: Command)
    ensures Advance(Tuned(b, o, announced), cmd) == Tuned(Advance(b, cmd), o, announced)
    ensures Fits(Advance(b, cmd), o) ==> Fits(b, o)
  {
    hide BaselinesIndexable;
  }

  lemma InitTuned(env: Env, b: Context, o: Context, announced: bool, body: Body)
    requires (body.SendTables? || body.ClassInfo?) && HandleBody(env, b, true, body).Some?
    requires Fits(HandleBody(env, b, true, body).value.ctx, o)
    ensures Fits(b, o) && HandleBody(env, Tuned(b, o, announced), true, body).Some?
    ensures HandleBody(env, Tuned(b, o, announced), true, body).value.ctx
         == Tuned(HandleBody(env, b, true, body).value.ctx, o, announced)
  {
    hide BaselinesIndexable;
  }

  /** A command met while warming up. */
  lemma WarmUpTuned(env: Env, b: Context, o: Context, announced: bool, cmd: Command)
    requires WarmUp(env, b, cmd).Some? && Fits(WarmUp(env, b, cmd).value, o)
    ensures Fits(b, o)
    ensures WarmUp(env, Tuned(b, o, announced), cmd)
         == Some(Tuned(WarmUp(env, b, cmd).value, o, announced || AnnouncedIn(cmd.body)))
  {
    hide HandleMessages, HandleSendTables, HandleClassInfo, Tuned, Fits, See, Announces;
    var b1 := Advance(b, cmd);
    AdvanceTuned(b, o, announced, cmd);
    match cmd.body
    case SignonPacket(ms) => MessagesTuned(env, b1, o, announced, ms);
    case SendTables(_) => InitTuned(env, b1, o, announced, cmd.body);
    case ClassInfo(_) => InitTuned(env, b1, o, announced, cmd.body);
    case _ =>
  }

  /** Started from `o`, the warm-up reaches what it reaches from `ctx`, with what `o` knows. */
  lemma {:induction false} WarmToTuned(env: Env, ctx: Context, o: Context, cmds: seq<Command>, at: nat)
    requires at <= |cmds| && WarmTo(env, ResetContext(ctx), cmds, at).Some?
    requires Fits(WarmTo(env, ResetContext(ctx), cmds, at).value, o)
    ensures WarmTo(env, ResetContext(o), cmds, at)
         == Some(Tuned(WarmTo(env, ResetContext(ctx), cmds, at).value, o, AnnouncedBy(cmds, at)))
  {
    hide WarmUp, Fits, AnnouncedIn;
    if at > 0 {
      var b := WarmTo(env, ResetContext(ctx), cmds, at - 1).value;
      WarmUpTuned(env, b, o, AnnouncedBy(cmds, at - 1), cmds[at - 1]);
      WarmToTuned(env, ctx, o, cmds, at - 1);
    }
  }

  /** A segment begins with its warm-up. */
  lemma {:induction false} SegmentFromWarm(env: Env, c: Context, cmds: seq<Command>, at: nat, k: nat)
    requires at <= |cmds| && WarmTo(env, c, cmds, at).Some? && SeenBy(cmds, at) <= k
    ensures SegmentFrom(env, c, cmds, true, k, 0, false)
         == SegmentFrom(env, WarmTo(env, c, cmds, at).value, cmds[at..], true, k, SeenBy(cmds, at), false)
  {
    hide Handle;
    if at > 0 {
      SegmentFromWarm(env, c, cmds, at - 1, k);
      assert cmds[at - 1..][0] == cmds[at - 1] && cmds[at - 1..][1..] == cmds[at..];
    } else {
      assert cmds[0..] == cmds;
    }
  }

  // ---- the warm-up can index its baselines

  lemma FindAppended(ts: seq<Table>, t: Table, name: string)
    requires t.cfg.name != name
    ensures FindTable(ts + [t], name) == FindTable(ts, name)
  {
    var all := ts + [t];
    match FindTable(ts, name)
    case Some(k) => assert all[k].cfg.name == name && forall i | 0 <= i < k :: all[i].cfg == ts[i].cfg;
    case None => assert forall i | 0 <= i < |ts| :: all[i].cfg == ts[i].cfg;
  }

  lemma MessageIndexable(env: Env, b: Context, m: Message)
    requires Indexable(b) && ApplyMessage(env, b, true, m).Some?
    ensures Indexable(ApplyMessage(env, b, true, m).value)
  {
    hide ParseUpdate, KeysOk, FindTable;
    var later := ApplyMessage(env, b, true, m).value;
    match m
    case CreateTable(cfg, n, data) =>
      if cfg.name != BASELINE_TABLE {
        ParseKeepsConfig(NewTable(cfg), env.unsnap, n, data.value);
        FindAppended(b.tables, ParseUpdate(NewTable(cfg), env.unsnap, n, data.value).value, BASELINE_TABLE);
      }
    case UpdateTable(id, n, data) =>
      ParseKeepsConfig(b.tables[id], env.unsnap, n, data);
      FindSame(later.tables, b.tables, BASELINE_TABLE);
    case _ =>
  }

  lemma {:induction false} MessagesIndexable(env: Env, b: Context, ms: seq<Message>)
    requires Indexable(b) && HandleMessages(env, b, true, ms, Everything).Some?
    ensures Indexable(HandleMessages(env, b, true, ms, Everything).value.ctx)
    decreases |ms|
  {
    hide ApplyMessage, MessageCalls, Indexable;
    if ms != [] {
      MessageIndexable(env, b, ms[0]);
      MessagesIndexable(env, ApplyMessage(env, b, true, ms[0]).value, ms[1..]);
    }
  }

  lemma WarmUpIndexable(env: Env, b: Context, cmd: Command)
    requires Indexable(b) && WarmUp(env, b, cmd).Some?
    ensures Indexable(WarmUp(env, b, cmd).value)
  {
    hide HandleMessages, BaselinesIndexable, See;
    if cmd.body.SignonPacket? {
      MessagesIndexable(env, Advance(b, cmd), cmd.body.msgs);
    }
  }

  // ---- the segments in turn

  /** The next segment reaches its full packet warmed up as `b`, but for the tick interval. */
  lemma NextSegment(env: Env, ctx: Context, s: Context, cmds: seq<Command>, at: nat, k: nat)
    requires at <= |cmds| && k == SeenBy(cmds, at) && k > 0
    requires WarmTo(env, ResetContext(ctx), cmds, at).Some? && Fits(WarmTo(env, ResetContext(ctx), cmds, at).value, s)
    ensures Segment(env, Stopped(s), cmds, true, k)
         == SegmentFrom(env, Tuned(WarmTo(env, ResetContext(ctx), cmds, at).value, s, AnnouncedBy(cmds, at)),
                        cmds[at..], true, k, k, false)
  {
    hide SegmentFrom, WarmTo, Fits, AnnouncedBy, SeenBy;
    WarmToTuned(env, ctx, s, cmds, at);
    SegmentFromWarm(env, ResetContext(s), cmds, at, k);
    assert ResetContext(Stopped(s)) == ResetContext(s);
  }

  /** A warm context, with the classes and serializers of the run, and its tick interval or the announced one. */
  lemma TunedWarm(a: Context, s: Context, b: Context, announced: bool)
    requires InStep(a, s, map[]) && Warm(a, b, true) && Indexable(b)
    ensures Fits(b, s)
    ensures Warm(a, Tuned(b, s, announced), true)
  {
    hide BaselinesIndexable, TablesBelow, CacheBelow, Live, Agree, SameItems;
  }

  /** What is still to be shown: the rest of the segment at hand from `s`, and then the later ones in turn. */
  function Rest(env: Env, s: Context, cmds: seq<Command>, at: nat, n: nat): Option<seq<Call>>
    requires at <= |cmds| && SeenBy(cmds, at) > 0
  {
    var seen := SeenBy(cmds, at);
    ThenRest(env, SegmentFrom(env, s, cmds[at..], true, seen - 1, seen, true), cmds, seen, n)
  }

  lemma RestAtEnd(env: Env, s: Context, cmds: seq<Command>)
    requires SeenBy(cmds, |cmds|) > 0
    ensures Rest(env, s, cmds, |cmds|, SeenBy(cmds, |cmds|)) == Some([])
  {
    hide SegmentFrom, Handle;
    var seen := SeenBy(cmds, |cmds|);
    assert cmds[|cmds|..] == [];
    NothingLeft(env, s, seen - 1, seen);
    assert InTurn(env, s, cmds, seen, seen) == Some([]);
    JoinedNothing(Some([]));
  }

  lemma NothingLeft(env: Env, s: Context, ordinal: nat, seen: nat)
    ensures SegmentFrom(env, s, [], true, ordinal, seen, true) == Some(Out(s, []))
  {
  }

  lemma RestNext(env: Env, s: Context, cmds: seq<Command>, at: nat, n: nat)
    requires at < |cmds| && SeenBy(cmds, at) > 0 && !cmds[at].body.FullPacket?
    requires Handle(env, Advance(s, cmds[at]), false, cmds[at]).Some?
    ensures var r := Handle(env, Advance(s, cmds[at]), false, cmds[at]).value;
      Rest(env, s, cmds, at, n) == Joined(Some(r.calls), Rest(env, r.ctx, cmds, at + 1, n))
  {
    hide Handle, ThenRest, Joined;
    assert cmds[at..][0] == cmds[at] && cmds[at..][1..] == cmds[at + 1..];
    var seen := SeenBy(cmds, at);
    var r := Handle(env, Advance(s, cmds[at]), false, cmds[at]).value;
    ThenRestThen(env, r.calls, SegmentFrom(env, r.ctx, cmds[at + 1..], true, seen - 1, seen, true), cmds, seen, n);
  }

  /** At a full packet the segment at hand ends and the next one, `b` being its warm-up, begins. */
  lemma RestAtFullPacket(env: Env, s: Context, b: Context, cmds: seq<Command>, at: nat, n: nat)
    requires at < |cmds| && 0 < SeenBy(cmds, at) < n && cmds[at].body.FullPacket?
    requires Segment(env, Stopped(s), cmds, true, SeenBy(cmds, at))
          == SegmentFrom(env, b, cmds[at..], true, SeenBy(cmds, at), SeenBy(cmds, at), false)
    ensures var r := Handle(env, Advance(b, cmds[at]), false, cmds[at]);
      Rest(env, s, cmds, at, n) ==
        if r.None? then None else Joined(Some(r.value.calls), Rest(env, r.value.ctx, cmds, at + 1, n))
  {
    hide Handle, Segment, ThenRest;
    assert cmds[at..][0] == cmds[at] && cmds[at..][1..] == cmds[at + 1..];
    var seen, r := SeenBy(cmds, at), Handle(env, Advance(b, cmds[at]), false, cmds[at]);
    EndsHere(env, s, cmds, seen, n);
    if r.Some? {
      ThenRestThen(env, r.value.calls, SegmentFrom(env, r.value.ctx, cmds[at + 1..], true, seen, seen + 1, true), cmds,
                   seen + 1, n);
    } else {
      assert ThenRest(env, None, cmds, seen + 1, n) == None by { NoRest(env, cmds, seen + 1, n); }
    }
  }

  lemma NoRest(env: Env, cmds: seq<Command>, k: nat, n: nat)
    ensures ThenRest(env, None, cmds, k, n) == None
  {
  }

  lemma EndsHere(env: Env, s: Context, cmds: seq<Command>, k: nat, n: nat)
    requires k < n
    ensures ThenRest(env, Some(Out(Stopped(s), [])), cmds, k, n)
         == ThenRest(env, Segment(env, Stopped(s), cmds, true, k), cmds, k + 1, n)
  {
    hide Segment;
    JoinedNothing(InTurn(env, Stopped(s), cmds, k, n));
  }

  /** The segment at hand in step with the run, the later ones still to be warmed up one after the other. */
  lemma {:induction false} RestFollows(env: Env, ctx: Context, a: Context, s: Context, cmds: seq<Command>, at: nat,
                                       n: nat)
    requires at <= |cmds| && SeenBy(cmds, at) > 0 && n == SeenBy(cmds, |cmds|)
    requires WarmTo(env, ResetContext(ctx), cmds, at).Some?
    requires Sound(env, a) && InStep(a, s, map[]) && Good(env, a, cmds[at..], true, true)
    requires var b := WarmTo(env, ResetContext(ctx), cmds, at).value; Warm(a, b, true) && Indexable(b)
    requires Run(env, a, cmds[at..]).Some?
    ensures
      var base := if AnnouncedBy(cmds, at) then Some(WarmTo(env, ResetContext(ctx), cmds, at).value.interval) else None;
      AnnouncedInForce(env, a, cmds[at..], true, base) <==>
        Rest(env, s, cmds, at, n) == CallsOf(Run(env, a, cmds[at..]))
    decreases |cmds| - at, 1
  {
    hide Handle, GoodCommand, Sound, InStep, Warm, WarmUp, Joined, Indexable, Rest, Segment, Tuned, Fits, AnnouncedIn;
    hide ResetContext;
    if at == |cmds| {
      RestAtEnd(env, s, cmds);
    } else {
      var cmd, rest := cmds[at], cmds[at + 1..];
      assert cmds[at..][0] == cmd && cmds[at..][1..] == rest;
      var b := WarmTo(env, ResetContext(ctx), cmds, at).value;
      var a1, s1 := Advance(a, cmd), Advance(s, cmd);
      AdvanceSound(env, a, cmd);
      WarmFollows(env, a, b, cmd, true, true);
      WarmUpIndexable(env, b, cmd);
      HandleSound(env, a1, cmd, true, true);
      NotSignon(env, a1, cmd);
      var ra := Handle(env, a1, false, cmd).value;
      ThenCalls(ra.calls, Run(env, ra.ctx, rest));
      if cmd.body.FullPacket? {
        FullPacketFollows(env, ctx, a, s, cmds, at, n);
      } else {
        AdvanceInStep(a, s, cmd);
        HandleInStep(env, a1, s1, cmd, true);
        var rs := Handle(env, s1, false, cmd).value;
        RestNext(env, s, cmds, at, n);
        RestFollows(env, ctx, ra.ctx, rs.ctx, cmds, at + 1, n);
        JoinedCancel(rs.calls, Rest(env, rs.ctx, cmds, at + 1, n), CallsOf(Run(env, ra.ctx, rest)));
      }
    }
  }

  lemma {:induction false} SeenGrows(cmds: seq<Command>, i: nat, j: nat)
    requires i <= j <= |cmds|
    ensures SeenBy(cmds, i) <= SeenBy(cmds, j)
    decreases j
  {
    if i < j {
      SeenGrows(cmds, i, j - 1);
    }
  }

  /** The step of `RestFollows` at a full packet. */
  lemma FullPacketFollows(env: Env, ctx: Context, a: Context, s: Context, cmds: seq<Command>, at: nat, n: nat)
    requires at < |cmds| && cmds[at].body.FullPacket? && SeenBy(cmds, at) > 0 && n == SeenBy(cmds, |cmds|)
    requires WarmTo(env, ResetContext(ctx), cmds, at).Some?
    requires Sound(env, a) && InStep(a, s, map[]) && Good(env, a, cmds[at..], true, true)
    requires var b := WarmTo(env, ResetContext(ctx), cmds, at).value; Warm(a, b, true) && Indexable(b)
    requires Run(env, a, cmds[at..]).Some?
    ensures
      var base := if AnnouncedBy(cmds, at) then Some(WarmTo(env, ResetContext(ctx), cmds, at).value.interval) else None;
      AnnouncedInForce(env, a, cmds[at..], true, base) <==>
        Rest(env, s, cmds, at, n) == CallsOf(Run(env, a, cmds[at..]))
    decreases |cmds| - at, 0
  {
    hide Handle, GoodCommand, Sound, Warm, WarmUp, Joined, Indexable, Rest, Segment, Fits, AnnouncedIn;
    hide ResetContext, Agree, CacheBelow, SameItems;
    var cmd, rest := cmds[at], cmds[at + 1..];
    assert cmds[at..][0] == cmd && cmds[at..][1..] == rest;
    var b := WarmTo(env, ResetContext(ctx), cmds, at).value;
    var a1 := Advance(a, cmd);
    AdvanceSound(env, a, cmd);
    WarmFollows(env, a, b, cmd, true, true);
    WarmUpIndexable(env, b, cmd);
    HandleSound(env, a1, cmd, true, true);
    NotSignon(env, a1, cmd);
    var ra := Handle(env, a1, false, cmd).value;
    ThenCalls(ra.calls, Run(env, ra.ctx, rest));
    SeenGrows(cmds, at + 1, |cmds|);
    var b' := Tuned(b, s, AnnouncedBy(cmds, at));
    TunedWarm(a, s, b, AnnouncedBy(cmds, at));
    NextSegment(env, ctx, s, cmds, at, SeenBy(cmds, at));
    RestAtFullPacket(env, s, b', cmds, at, n);
    if a.interval == b'.interval {
      WarmBehind(a, b', cmd);
      HandleCatchesUp(env, a1, Advance(b', cmd), cmd, true);
      var rb := Handle(env, Advance(b', cmd), false, cmd).value;
      RestFollows(env, ctx, ra.ctx, rb.ctx, cmds, at + 1, n);
      JoinedCancel(rb.calls, Rest(env, rb.ctx, cmds, at + 1, n), CallsOf(Run(env, ra.ctx, rest)));
    } else if Handle(env, Advance(b', cmd), false, cmd).Some? {
      var rb := Handle(env, Advance(b', cmd), false, cmd).value;
      OtherIntervalShows(env, a1, Advance(b', cmd), cmd, CallsOf(Run(env, ra.ctx, rest)),
                         Rest(env, rb.ctx, cmds, at + 1, n));
    }
  }

  lemma NotSignon(env: Env, ctx: Context, cmd: Command)
    requires GoodCommand(env, ctx, cmd, true, true)
    ensures !cmd.body.SignonPacket? && !AnnouncedIn(cmd.body)
  {
  }

  /** Before the first full packet: the first segment is the sequential run itself. */
  lemma {:induction false} FirstFollows(env: Env, ctx: Context, a: Context, cmds: seq<Command>, at: nat, started: bool,
                                        n: nat)
    requires at <= |cmds| && SeenBy(cmds, at) == 0 && n == SeenBy(cmds, |cmds|) && n > 0
    requires WarmTo(env, ResetContext(ctx), cmds, at).Some?
    requires Sound(env, a) && Good(env, a, cmds[at..], started, false)
    requires var b := WarmTo(env, ResetContext(ctx), cmds, at).value; Warm(a, b, started) && Indexable(b)
    requires Run(env, a, cmds[at..]).Some?
    ensures
      var base := if AnnouncedBy(cmds, at) then Some(WarmTo(env, ResetContext(ctx), cmds, at).value.interval) else None;
      AnnouncedInForce(env, a, cmds[at..], false, base) <==>
        ThenRest(env, SegmentFrom(env, a, cmds[at..], true, 0, 0, true), cmds, 1, n) == CallsOf(Run(env, a, cmds[at..]))
    decreases |cmds| - at
  {
    hide Handle, GoodCommand, Sound, InStep, Warm, WarmUp, Joined, Indexable, Announces, ResetContext, ThenRest;
    if at < |cmds| {
      var cmd, rest := cmds[at], cmds[at + 1..];
      assert cmds[at..][0] == cmd && cmds[at..][1..] == rest;
      var b := WarmTo(env, ResetContext(ctx), cmds, at).value;
      var a1 := Advance(a, cmd);
      AdvanceSound(env, a, cmd);
      WarmFollows(env, a, b, cmd, started, false);
      WarmUpIndexable(env, b, cmd);
      HandleSound(env, a1, cmd, started, false);
      var ra := Handle(env, a1, false, cmd).value;
      ThenCalls(ra.calls, Run(env, ra.ctx, rest));
      var seen := if cmd.body.FullPacket? then 1 else 0;
      var now := SegmentFrom(env, ra.ctx, rest, true, 0, seen, true);
      ThenRestThen(env, ra.calls, now, cmds, 1, n);
      if cmd.body.FullPacket? {
        InStepSelf(ra.ctx);
        RestFollows(env, ctx, ra.ctx, ra.ctx, cmds, at + 1, n);
      } else {
        FirstFollows(env, ctx, ra.ctx, cmds, at + 1, started || Starts(cmd), n);
      }
      JoinedCancel(ra.calls, ThenRest(env, now, cmds, 1, n), CallsOf(Run(env, ra.ctx, rest)));
    }
  }

  lemma {:induction false} SeenIsCount(cmds: seq<Command>, at: nat)
    requires at <= |cmds|
    ensures SeenBy(cmds, at) + FullPackets(cmds[at..]) == FullPackets(cmds)
  {
    if at > 0 {
      SeenIsCount(cmds, at - 1);
      assert cmds[at - 1..][0] == cmds[at - 1] && cmds[at - 1..][1..] == cmds[at..];
    } else {
      assert cmds[0..] == cmds;
    }
  }

  /** One parser, asked for every segment in turn, shows the visitor exactly what one sequential parse shows
      it, if and only if the init commands announce no tick interval, or at every full packet after the first
      the one in force is the last that they announce. */
  lemma InTurnReproducesRun(env: Env, ctx: Context, cmds: seq<Command>)
    requires FullPackets(cmds) >= 1
    requires Good(env, ResetContext(ctx), cmds, false, false)
    requires Run(env, ResetContext(ctx), cmds).Some?
    ensures AnnouncedInForce(env, ResetContext(ctx), cmds, false, None) <==>
      InTurn(env, ctx, cmds, 0, FullPackets(cmds)) == CallsOf(Run(env, ResetContext(ctx), cmds))
  {
    hide Good, Run, SegmentFrom, Warm, Sound, AnnouncedInForce, Indexable;
    var c := ResetContext(ctx);
    SeenIsCount(cmds, |cmds|);
    assert cmds[|cmds|..] == [] && cmds[0..] == cmds;
    FreshIsSound(env, ctx);
    FreshIsIndexable(ctx);
    FirstFollows(env, ctx, c, cmds, 0, false, FullPackets(cmds));
  }

  lemma FreshIsIndexable(ctx: Context)
    ensures Indexable(ResetContext(ctx))
  {
  }

  lemma {:induction false} NothingAnnounced(env: Env, ctx: Context, cmds: seq<Command>, entered: bool)
    requires forall i | 0 <= i < |cmds| :: !AnnouncedIn(cmds[i].body)
    ensures AnnouncedInForce(env, ctx, cmds, entered, None)
    decreases |cmds|
  {
    hide Handle, AnnouncedIn;
    if cmds != [] {
      var r := Handle(env, Advance(ctx, cmds[0]), false, cmds[0]);
      assert !AnnouncedIn(cmds[0].body);
      assert forall i | 0 <= i < |cmds[1..]| :: cmds[1..][i] == cmds[i + 1];
      if r.Some? {
        NothingAnnounced(env, r.value.ctx, cmds[1..], entered || cmds[0].body.FullPacket?);
      }
    }
  }

  /** The demo whose segments show another tick interval when each is parsed on its own: parsed in turn by one
      parser, which keeps the interval, they show what the run shows. */
  lemma InTurnKeepsLateInfo(env: Env, before: nat, interval: nat)
    requires before != interval
    ensures var ctx, cmds := NEW_CONTEXT.(interval := before), LateInfo(interval);
      InTurn(env, ctx, cmds, 0, 2) == CallsOf(Run(env, ctx, cmds))
  {
    hide Good, Run, InTurn, AnnouncedInForce, Handle, IntervalsInForce;
    var ctx, cmds := NEW_CONTEXT.(interval := before), LateInfo(interval);
    LateInfoIsGood(env, before, interval);
    NothingAnnounced(env, ctx, cmds, false);
    InTurnReproducesRun(env, ctx, cmds);
  }
}
