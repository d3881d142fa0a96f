/** What a run leaves and what it shows, read off the commands alone. */
module RunHistories {
  import opened Prelude
  import opened Bits
  import opened Serializers
  import opened StringTables
  import opened Snapshots
  import opened Entities
  import opened Player

  // ---- a demo as a list of what it says

  datatype Act =
    | Said(msg: Message)
    | Sent(serializers: SerializerMap)
    | Named(classes: Classes)
    | Restated(snapshots: seq<Snapshot>)

  function AllSaid(ms: seq<Message>): seq<Act>
  {
    if ms == [] then [] else [Said(ms[0])] + AllSaid(ms[1..])
  }

  /** A full packet restates its tables before its messages. */
  function ActsOf(body: Body): seq<Act>
  {
    match body
    case Packet(ms) => AllSaid(ms)
    case SignonPacket(ms) => AllSaid(ms)
    case SendTables(Some(serializers)) => [Sent(serializers)]
    case ClassInfo(info) => [Named(info)]
    case FullPacket(ss, packet) =>
      (if ss.Some? then [Restated(ss.value)] else []) + (if packet.Some? then AllSaid(packet.value) else [])
    case _ => []
  }

  function Acts(cmds: seq<Command>): seq<Act>
  {
    if cmds == [] then [] else ActsOf(cmds[0].body) + Acts(cmds[1..])
  }

  // ---- what stays and what changes

  function FirstSent(acts: seq<Act>): Option<SerializerMap>
  {
    if acts == [] then None else if acts[0].Sent? then Some(acts[0].serializers) else FirstSent(acts[1..])
  }

  function FirstNamed(acts: seq<Act>): Option<Classes>
  {
    if acts == [] then None else if acts[0].Named? then Some(acts[0].classes) else FirstNamed(acts[1..])
  }

  function Announced(act: Act): Option<nat>
  {
    if act.Said? && act.msg.ServerInfo? then act.msg.interval else None
  }

  function LastAnnounced(acts: seq<Act>): Option<nat>
  {
    if acts == [] then None
    else
      var later := LastAnnounced(acts[1..]);
      if later.Some? then later else Announced(acts[0])
  }

  function Creations(acts: seq<Act>): nat
  {
    if acts == [] then 0
    else (if acts[0].Said? && acts[0].msg.CreateTable? then 1 else 0) + Creations(acts[1..])
  }

  function Edited(env: Env, t: Table, n: nat, b: BitString): Option<Table>
  {
    match ParseUpdate(t, env.unsnap, n, b)
    case Ok(later, _) => Some(later)
    case Fail => None
  }

  /** One act in the life of table `k`, with `count` tables before it: the table is the `k`th one created, is
      updated under the number `k`, and restated by the snapshots of its name. */
  function Lived(env: Env, k: nat, t: Option<Table>, count: nat, act: Act): Option<Table>
  {
    match act
    case Said(CreateTable(cfg, n, Some(b))) => if count == k then Edited(env, NewTable(cfg), n, b) else t
    case Said(UpdateTable(id, n, b)) => if id == k && t.Some? then Edited(env, t.value, n, b) else t
    case Restated(ss) =>
      if t.Some? then Some(t.value.(items := TableAfter(t.value.items, t.value.cfg.name, ss))) else t
    case _ => t
  }

  function Life(env: Env, k: nat, t: Option<Table>, count: nat, acts: seq<Act>): Option<Table>
    decreases |acts|
  {
    if acts == [] then t
    else Life(env, k, Lived(env, k, t, count, acts[0]), count + Creations([acts[0]]), acts[1..])
  }

  /** No entity is created, updated or removed. */
  predicate Entityless(acts: seq<Act>)
  {
    acts == [] || (!(acts[0].Said? && acts[0].msg.PacketEntities?) && Entityless(acts[1..]))
  }

  function At(ts: seq<Table>, k: nat): Option<Table>
  {
    if k < |ts| then Some(ts[k]) else None
  }

  /** `b` is what the acts make of `a`: serializers and classes are the first there were, the intervals follow the
      last one announced, the entities are as they were unless something was said of them, and each table lived
      through what was said of it and of no other. */
  ghost predicate Leaves(env: Env, a: Context, acts: seq<Act>, b: Context)
  {
    && b.serializers == (if a.serializers.Some? then a.serializers else FirstSent(acts))
    && b.classes == (if a.classes.Some? then a.classes else FirstNamed(acts))
    && b.interval == (if LastAnnounced(acts).Some? then LastAnnounced(acts).value else a.interval)
    && b.fullPacketInterval
       == (if LastAnnounced(acts).Some? then 1800 * env.ratio(LastAnnounced(acts).value) else a.fullPacketInterval)
    && |b.tables| == |a.tables| + Creations(acts)
    && (Entityless(acts) ==> b.container == a.container)
    && forall k: nat :: At(b.tables, k) == Life(env, k, At(a.tables, k), |a.tables|, acts)
  }

  // ---- lists of acts one after the other

  lemma {:induction false} ActsJoin(x: seq<Act>, y: seq<Act>)
    ensures FirstSent(x + y) == if FirstSent(x).Some? then FirstSent(x) else FirstSent(y)
    ensures FirstNamed(x + y) == if FirstNamed(x).Some? then FirstNamed(x) else FirstNamed(y)
    ensures LastAnnounced(x + y) == if LastAnnounced(y).Some? then LastAnnounced(y) else LastAnnounced(x)
    ensures Creations(x + y) == Creations(x) + Creations(y)
    ensures Entityless(x + y) <==> Entityless(x) && Entityless(y)
    decreases |x|
  {
    if x == [] {
      assert x + y == y;
    } else {
      assert (x + y)[0] == x[0] && (x + y)[1..] == x[1..] + y;
      ActsJoin(x[1..], y);
    }
  }

  lemma {:induction false} LifeJoins(env: Env, k: nat, t: Option<Table>, count: nat, x: seq<Act>, y: seq<Act>)
    ensures Life(env, k, t, count, x + y) == Life(env, k, Life(env, k, t, count, x), count + Creations(x), y)
    decreases |x|
  {
    hide Lived;
    if x == [] {
      assert x + y == y;
    } else {
      assert (x + y)[0] == x[0] && (x + y)[1..] == x[1..] + y;
      LifeJoins(env, k, Lived(env, k, t, count, x[0]), count + Creations([x[0]]), x[1..], y);
      assert Creations(x) == Creations([x[0]]) + Creations(x[1..]) by {
        assert [x[0]] + x[1..] == x;
        ActsJoin([x[0]], x[1..]);
      }
    }
  }

  lemma LeavesNothing(env: Env, a: Context)
    ensures Leaves(env, a, [], a)
  {
  }

  lemma LeavesBoth(env: Env, a: Context, x: seq<Act>, b: Context, y: seq<Act>, c: Context)
    requires Leaves(env, a, x, b) && Leaves(env, b, y, c)
    ensures Leaves(env, a, x + y, c)
  {
    hide Life, Creations, FirstSent, FirstNamed, LastAnnounced, Entityless;
    ActsJoin(x, y);
    forall k: nat
      ensures At(c.tables, k) == Life(env, k, At(a.tables, k), |a.tables|, x + y)
    {
      LifeJoins(env, k, At(a.tables, k), |a.tables|, x, y);
      assert At(b.tables, k) == Life(env, k, At(a.tables, k), |a.tables|, x);
    }
  }

  // ---- the player

  lemma OneLife(env: Env, k: nat, t: Option<Table>, count: nat, act: Act)
    ensures Life(env, k, t, count, [act]) == Lived(env, k, t, count, act)
  {
    assert [act][1..] == [];
  }

  lemma OneAct(act: Act)
    ensures FirstSent([act]) == if act.Sent? then Some(act.serializers) else None
    ensures FirstNamed([act]) == if act.Named? then Some(act.classes) else None
    ensures LastAnnounced([act]) == Announced(act)
    ensures Entityless([act]) <==> !(act.Said? && act.msg.PacketEntities?)
    ensures Creations([act]) == if act.Said? && act.msg.CreateTable? then 1 else 0
  {
    assert [act][1..] == [];
  }

  lemma MessageLeaves(env: Env, ctx: Context, m: Message)
    requires UniqueNames(ctx.tables) && ApplyMessage(env, ctx, false, m).Some?
    ensures var later := ApplyMessage(env, ctx, false, m).value;
      UniqueNames(later.tables) && Leaves(env, ctx, [Said(m)], later)
  {
    hide HandleEntries, ParseUpdate, Indexable, BaselinesIn, NewTable;
    OneAct(Said(m));
    var later := ApplyMessage(env, ctx, false, m).value;
    if m.UpdateTable? {
      ParseKeepsConfig(ctx.tables[m.id], env.unsnap, m.numChanged, m.changes);
    }
    if m.CreateTable? {
      ParseKeepsConfig(NewTable(m.cfg), env.unsnap, m.numItems, m.plain.value);
      assert NewTable(m.cfg).cfg == m.cfg by { NewHasConfig(m.cfg); }
    }
    forall k: nat
      ensures At(later.tables, k) == Life(env, k, At(ctx.tables, k), |ctx.tables|, [Said(m)])
    {
      OneLife(env, k, At(ctx.tables, k), |ctx.tables|, Said(m));
    }
  }

  lemma NewHasConfig(cfg: Config)
    ensures NewTable(cfg).cfg == cfg
  {
  }

  lemma {:induction false} MessagesLeave(env: Env, ctx: Context, ms: seq<Message>, scope: Scope)
    requires UniqueNames(ctx.tables) && HandleMessages(env, ctx, false, ms, scope).Some?
    ensures var later := HandleMessages(env, ctx, false, ms, scope).value.ctx;
      UniqueNames(later.tables) && Leaves(env, ctx, AllSaid(ms), later)
    decreases |ms|
  {
    hide ApplyMessage, MessageCalls, Leaves;
    if ms == [] {
      LeavesNothing(env, ctx);
    } else {
      var next := ApplyMessage(env, ctx, false, ms[0]).value;
      MessageLeaves(env, ctx, ms[0]);
      MessagesLeave(env, next, ms[1..], scope);
      LeavesBoth(env, ctx, [Said(ms[0])], next, AllSaid(ms[1..]),
                 HandleMessages(env, next, false, ms[1..], scope).value.ctx);
    }
  }

  lemma SnapshotsLeave(env: Env, ctx: Context, ss: Option<seq<Snapshot>>)
    requires UniqueNames(ctx.tables) && ApplySnapshots(ctx, ss).Some?
    ensures var later := ApplySnapshots(ctx, ss).value;
      UniqueNames(later.tables) && Leaves(env, ctx, if ss.Some? then [Restated(ss.value)] else [], later)
  {
    hide Indexable, FullUpdates;
    if ss.Some? {
      OneAct(Restated(ss.value));
      FullUpdatesConfigs(ctx.tables, ss.value);
      forall k: nat
        ensures At(FullUpdates(ctx.tables, ss.value), k)
             == Life(env, k, At(ctx.tables, k), |ctx.tables|, [Restated(ss.value)])
      {
        OneLife(env, k, At(ctx.tables, k), |ctx.tables|, Restated(ss.value));
        if k < |ctx.tables| {
          FullUpdatesAt(ctx.tables, ss.value, k);
        }
      }
    }
  }

  lemma InitLeaves(env: Env, ctx: Context, body: Body)
    requires (body.SendTables? || body.ClassInfo?) && UniqueNames(ctx.tables) && HandleBody(env, ctx, false, body).Some?
    ensures var later := HandleBody(env, ctx, false, body).value.ctx;
      UniqueNames(later.tables) && Leaves(env, ctx, ActsOf(body), later)
  {
    hide Indexable;
    var acts, later := ActsOf(body), HandleBody(env, ctx, false, body).value.ctx;
    if acts != [] {
      OneAct(acts[0]);
      assert acts == [acts[0]];
    }
    forall k: nat
      ensures At(later.tables, k) == Life(env, k, At(ctx.tables, k), |ctx.tables|, acts)
    {
      if acts != [] {
        OneLife(env, k, At(ctx.tables, k), |ctx.tables|, acts[0]);
      }
    }
  }

  lemma BodyLeaves(env: Env, ctx: Context, body: Body)
    requires UniqueNames(ctx.tables) && HandleBody(env, ctx, false, body).Some?
    ensures var later := HandleBody(env, ctx, false, body).value.ctx;
      UniqueNames(later.tables) && Leaves(env, ctx, ActsOf(body), later)
  {
    hide HandleMessages, ApplySnapshots, Indexable, Leaves, HandleSendTables, HandleClassInfo;
    match body
    case Packet(ms) => MessagesLeave(env, ctx, ms, Everything);
    case SignonPacket(ms) => MessagesLeave(env, ctx, ms, Everything);
    case SendTables(_) => InitLeaves(env, ctx, body);
    case ClassInfo(_) => InitLeaves(env, ctx, body);
    case FullPacket(ss, packet) =>
      SnapshotsLeave(env, ctx, ss);
      var restated, now := if ss.Some? then [Restated(ss.value)] else [], ApplySnapshots(ctx, ss).value;
      if packet.Some? {
        MessagesLeave(env, now, packet.value, NoEntities);
        LeavesBoth(env, ctx, restated, now, AllSaid(packet.value),
                   HandleMessages(env, now, false, packet.value, NoEntities).value.ctx);
      } else {
        assert restated + [] == restated;
      }
    case _ => LeavesNothing(env, ctx);
  }

  lemma HandleLeaves(env: Env, ctx: Context, cmd: Command)
    requires UniqueNames(ctx.tables) && Handle(env, Advance(ctx, cmd), false, cmd).Some?
    ensures var later := Handle(env, Advance(ctx, cmd), false, cmd).value.ctx;
      UniqueNames(later.tables) && Leaves(env, ctx, ActsOf(cmd.body), later)
  {
    hide HandleBody, ActsOf, Life;
    BodyLeaves(env, Advance(ctx, cmd), cmd.body);
  }

  /** A run that gets through leaves the serializers and classes that came first, the intervals announced last, and
      every table as the acts that address it make it. */
  lemma {:induction false} RunLeaves(env: Env, ctx: Context, cmds: seq<Command>)
    requires UniqueNames(ctx.tables) && Run(env, ctx, cmds).Some?
    ensures var later := Run(env, ctx, cmds).value.ctx;
      UniqueNames(later.tables) && Leaves(env, ctx, Acts(cmds), later)
    decreases |cmds|
  {
    hide Handle, Leaves, UniqueNames, ActsOf;
    if cmds == [] {
      LeavesNothing(env, ctx);
    } else {
      var r := Handle(env, Advance(ctx, cmds[0]), false, cmds[0]).value;
      HandleLeaves(env, ctx, cmds[0]);
      RunLeaves(env, r.ctx, cmds[1..]);
      LeavesBoth(env, ctx, ActsOf(cmds[0].body), r.ctx, Acts(cmds[1..]), Run(env, r.ctx, cmds[1..]).value.ctx);
    }
  }
}
