/** Two contexts moving through the same commands: how one that lags behind catches up at a full packet
    and stays in step. */
module Following {
  import opened Prelude
  import opened Bits
  import opened StringTables
  import opened Entities
  import opened EntityBaselines
  import opened EntitySnapshots
  import opened Snapshots
  import opened Player

  // ---- the relations

  ghost predicate SameInit(a: Context, b: Context)
  {
    a.classes == b.classes && a.serializers == b.serializers && a.tick == b.tick && a.prevTick == b.prevTick
  }

  /** `b` shows what `a` shows, except at the entity indices in `pending`. */
  ghost predicate InStep(a: Context, b: Context, pending: Pending)
  {
    && SameInit(a, b) && a.interval == b.interval && SameItems(a.tables, b.tables)
    && Agree(a.container, b.container, pending) && CacheBelow(b.container, a.container)
  }

  /** Of the tables and the cache `b` has only what `a` has too. */
  ghost predicate Behind(a: Context, b: Context)
  {
    SameInit(a, b) && TablesBelow(b.tables, a.tables) && CacheBelow(b.container, a.container)
  }

  /** `a` later on, with no table created in between. */
  ghost predicate Grew(a: Context, later: Context)
  {
    SameInit(a, later) && TablesBelow(a.tables, later.tables) && CacheBelow(a.container, later.container)
  }

  lemma GrewBehind(a: Context, later: Context, b: Context)
    requires Grew(a, later) && Behind(a, b)
    ensures Behind(later, b)
  {
  }

  lemma GrewGrew(a: Context, b: Context, c: Context)
    requires Grew(a, b) && Grew(b, c)
    ensures Grew(a, c)
  {
  }

  lemma GrewNothing(a: Context)
    ensures Grew(a, a)
  {
  }

  // ---- what the sequential run must satisfy

  /** The cache is what parsing the current baselines gives. */
  ghost predicate CacheCurrent(env: Env, ctx: Context)
  {
    ctx.container.baselines != map[] ==>
      && ctx.classes.Some? && ctx.serializers.Some?
      && Coherent(SchemaOf(env, ctx), BaselinesIn(ctx), ctx.interval, ctx.container)
  }

  ghost predicate Sound(env: Env, ctx: Context)
  {
    UniqueNames(ctx.tables) && CacheCurrent(env, ctx)
  }

  /** The baseline bytes of the classes in the cache, and the tick interval, stay as they are. */
  ghost predicate KeepsBytes(a: Context, later: Context)
  {
    && (a.container.baselines != map[] ==> later.interval == a.interval)
    && forall k | k in a.container.baselines :: ById(BaselinesIn(later), k) == ById(BaselinesIn(a), k)
  }

  /** Tables are created only by the init messages; other string updates are self-contained. */
  ghost predicate GoodMessage(env: Env, ctx: Context, m: Message, init: bool)
  {
    match m
    case CreateTable(_, _, _) => init
    case UpdateTable(id, n, bits) =>
      0 <= id < |ctx.tables| ==> init || SelfContained(ctx.tables[id].cfg, env.unsnap, n, bits)
    case _ => true
  }

  ghost predicate GoodMessages(env: Env, ctx: Context, ms: seq<Message>, init: bool)
    decreases |ms|
  {
    ms != [] ==>
      && GoodMessage(env, ctx, ms[0], init)
      && var r := ApplyMessage(env, ctx, false, ms[0]);
         r.Some? ==> KeepsBytes(ctx, r.value) && GoodMessages(env, r.value, ms[1..], init)
  }

  ghost function PendingAfterMessage(env: Env, ctx: Context, m: Message, pending: Pending): Option<Pending>
  {
    if m.PacketEntities? && ctx.classes.Some? && ctx.serializers.Some? then
      PendingAfter(m.numEntries, SchemaOf(env, ctx), env.track, BaselinesIn(ctx), ctx.interval, ctx.container, -1,
          m.data, pending)
    else Some(pending)
  }

  /** The entity indices that a packet has still not created again. */
  ghost function PendingAfterMessages(env: Env, ctx: Context, ms: seq<Message>, pending: Pending): Option<Pending>
    decreases |ms|
  {
    if ms == [] then Some(pending) else
    match PendingAfterMessage(env, ctx, ms[0], pending)
    case None => None
    case Some(p) =>
      match ApplyMessage(env, ctx, false, ms[0])
      case None => None
      case Some(ctx1) => PendingAfterMessages(env, ctx1, ms[1..], p)
  }

  /** A full packet is a snapshot for one who holds the entities of `held`: it restates every item of every
      table, and creates every entity at which `held` is out of date before anything else happens to it. */
  ghost predicate IsSnapshot(env: Env, ctx: Context, body: Body, held: Container)
    requires body.FullPacket?
  {
    && body.snapshots.Some? && body.packet.Some? && Restates(ctx.tables, body.snapshots.value)
    && var c := ApplySnapshots(ctx, body.snapshots);
       c.Some? ==> PendingAfterMessages(env, c.value, body.packet.value, Outdated(ctx.container, held)) == Some(map[])
  }

  ghost predicate GoodFullPacket(env: Env, ctx: Context, body: Body)
    requires body.FullPacket?
  {
    var c := ApplySnapshots(ctx, body.snapshots);
    c.Some? ==>
      KeepsBytes(ctx, c.value) && (body.packet.Some? ==> GoodMessages(env, c.value, body.packet.value, false))
  }

  // ---- the cache stays current

  lemma KeptCurrent(env: Env, a: Context, later: Context)
    requires CacheCurrent(env, a) && KeepsBytes(a, later) && later.container == a.container
    requires a.classes.Some? ==> later.classes == a.classes
    requires a.serializers.Some? ==> later.serializers == a.serializers
    ensures CacheCurrent(env, later)
  {
  }

  lemma IsCoherent(env: Env, ctx: Context)
    requires CacheCurrent(env, ctx) && ctx.classes.Some? && ctx.serializers.Some?
    ensures Coherent(SchemaOf(env, ctx), BaselinesIn(ctx), ctx.interval, ctx.container)
  {
  }

  lemma MessageSound(env: Env, ctx: Context, m: Message)
    requires Sound(env, ctx) && ApplyMessage(env, ctx, false, m).Some?
    requires KeepsBytes(ctx, ApplyMessage(env, ctx, false, m).value)
    ensures Sound(env, ApplyMessage(env, ctx, false, m).value)
  {
    hide HandleEntries, ParseUpdate, Coherent, Indexable, KeepsBytes, CurrentBaselines;
    var later := ApplyMessage(env, ctx, false, m).value;
    match m
    case PacketEntities(n, data) =>
      IsCoherent(env, ctx);
      EntriesRefine(n, SchemaOf(env, ctx), env.track, BaselinesIn(ctx), ctx.interval, ctx.container, -1, data);
    case UpdateTable(id, n, data) =>
      UpdateGrows(ctx.tables[id], env.unsnap, n, data);
      KeptCurrent(env, ctx, later);
    case CreateTable(cfg, n, data) =>
      ParseKeepsConfig(NewTable(cfg), env.unsnap, n, data.value);
      KeptCurrent(env, ctx, later);
    case _ => KeptCurrent(env, ctx, later);
  }

  lemma {:induction false} MessagesSound(env: Env, ctx: Context, ms: seq<Message>, init: bool, scope: Scope)
    requires Sound(env, ctx) && GoodMessages(env, ctx, ms, init)
    requires HandleMessages(env, ctx, false, ms, scope).Some?
    ensures Sound(env, HandleMessages(env, ctx, false, ms, scope).value.ctx)
    decreases |ms|
  {
    hide ApplyMessage, MessageCalls, Sound, KeepsBytes, GoodMessage;
    if ms != [] {
      MessageSound(env, ctx, ms[0]);
      MessagesSound(env, ApplyMessage(env, ctx, false, ms[0]).value, ms[1..], init, scope);
    }
  }

  // ---- in step

  lemma SeeSame(a: Context, b: Context, scope: Scope, pending: Pending)
    requires InStep(a, b, pending) && (scope.Everything? ==> pending == map[])
    ensures See(a, scope) == See(b, scope)
  {
    SameItemsSame(a.tables, b.tables, 0);
    if scope.Everything? {
      AgreeAll(a.container, b.container);
    }
  }

  lemma BaselinesSame(a: Context, b: Context)
    requires SameInit(a, b) && SameItems(a.tables, b.tables)
    ensures BaselinesIn(a) == BaselinesIn(b)
  {
  }

  lemma PacketEntitiesInStep(env: Env, a: Context, b: Context, n: nat, data: BitString, pending: Pending)
    requires Sound(env, a) && InStep(a, b, pending)
    requires PendingAfterMessage(env, a, PacketEntities(n, data), pending).Some?
    requires HandlePacketEntities(env, a, n, data).Some?
    ensures HandlePacketEntities(env, b, n, data).Some?
    ensures InStep(HandlePacketEntities(env, a, n, data).value, HandlePacketEntities(env, b, n, data).value,
                   PendingAfterMessage(env, a, PacketEntities(n, data), pending).value)
  {
    hide HandleEntries, PendingAfter, Coherent, CacheBelow, Agree, BaselinesIn, SameItems, Live;
    IsCoherent(env, a);
    BaselinesSame(a, b);
    EntriesAgree(n, SchemaOf(env, a), env.track, BaselinesIn(a), a.interval, a.container, b.container, -1, data,
                 pending);
  }

  lemma ShownSame(a: Context, b: Context, scope: Scope, events: seq<EntityEvent>, pending: Pending)
    requires InStep(a, b, pending) && (scope.Everything? ==> pending == map[])
    ensures Shown(a, scope, events) == Shown(b, scope, events)
  {
    hide See, InStep;
    SeeSame(a, b, scope, pending);
  }

  /** Entry by entry: after each one the visitor sees the same in both contexts. */
  lemma {:induction false} EntityCallsInStep(env: Env, a: Context, b: Context, scope: Scope, n: nat, prev: int,
                                             data: BitString, pending: Pending)
    requires InStep(a, b, pending) && a.classes.Some? && a.serializers.Some?
    requires Coherent(SchemaOf(env, a), BaselinesIn(a), a.interval, a.container)
    requires scope.Everything? ==> pending == map[]
    requires PendingAfter(n, SchemaOf(env, a), env.track, BaselinesIn(a), a.interval, a.container, prev, data,
                          pending).Some?
    ensures EntityCalls(env, a, scope, n, prev, data) == EntityCalls(env, b, scope, n, prev, data)
    decreases n
  {
    hide HandleDelta, ReadEntryHead, Coherent, CacheBelow, Agree, CurrentBaselines, SameItems, CreatesPending, Shown;
    BaselinesSame(a, b);
    if n > 0 && ReadEntryHead(prev, data).Ok? {
      var h, bits := ReadEntryHead(prev, data).value, ReadEntryHead(prev, data).rest;
      var schema, baselines := SchemaOf(env, a), BaselinesIn(a);
      var sa := HandleDelta(schema, env.track, baselines, a.interval, a.container, h.index, h.delta, bits);
      var sb := HandleDelta(schema, env.track, baselines, a.interval, b.container, h.index, h.delta, bits);
      DeltaAgrees(schema, env.track, baselines, a.interval, a.container, b.container, h.index, h.delta, bits, pending);
      var la, lb := a.(container := sa.value.container), b.(container := sb.value.container);
      var left := pending - {h.index};
      ShownSame(la, lb, scope, sa.value.events, left);
      assert BaselinesIn(la) == baselines && SchemaOf(env, la) == schema;
      EntityCallsInStep(env, la, lb, scope, n - 1, sa.value.index, sa.rest, left);
    }
  }

  lemma UpdateTableInStep(env: Env, a: Context, b: Context, id: int, n: nat, data: BitString, pending: Pending)
    requires InStep(a, b, pending) && GoodMessage(env, a, UpdateTable(id, n, data), false)
    requires HandleUpdateTable(env, a, id, n, data).Some?
    ensures HandleUpdateTable(env, b, id, n, data).Some?
    ensures InStep(HandleUpdateTable(env, a, id, n, data).value, HandleUpdateTable(env, b, id, n, data).value, pending)
  {
    hide ParseUpdate, SelfContained, Agree, CacheBelow, Indexable;
    SelfContainedSame(a.tables[id], b.tables[id], env.unsnap, n, data);
    var ca, cb := HandleUpdateTable(env, a, id, n, data).value,
                  b.(tables := b.tables[id := ParseUpdate(b.tables[id], env.unsnap, n, data).value]);
    assert SameItems(ca.tables, cb.tables);
    SameItemsBelow(ca.tables, cb.tables);
    if a.tables[id].cfg.name == BASELINE_TABLE {
      IndexableBelow(ca, cb);
    }
  }

  lemma MessageInStep(env: Env, a: Context, b: Context, m: Message, pending: Pending)
    requires Sound(env, a) && InStep(a, b, pending) && GoodMessage(env, a, m, false)
    requires PendingAfterMessage(env, a, m, pending).Some? && ApplyMessage(env, a, false, m).Some?
    ensures ApplyMessage(env, b, false, m).Some?
    ensures InStep(ApplyMessage(env, a, false, m).value, ApplyMessage(env, b, false, m).value,
                   PendingAfterMessage(env, a, m, pending).value)
  {
    hide HandlePacketEntities, HandleUpdateTable, Sound, PendingAfter, SameItems, Agree, CacheBelow;
    match m
    case PacketEntities(n, data) => PacketEntitiesInStep(env, a, b, n, data, pending);
    case UpdateTable(id, n, data) => UpdateTableInStep(env, a, b, id, n, data, pending);
    case ServerInfo(_) =>
    case OtherMessage(_, _) =>
  }

  lemma MessageCallsInStep(env: Env, a: Context, b: Context, m: Message, pending: Pending, scope: Scope)
    requires Sound(env, a) && InStep(a, b, pending) && (scope.Everything? ==> pending == map[])
    requires PendingAfterMessage(env, a, m, pending).Some?
    ensures MessageCalls(env, a, false, m, scope) == MessageCalls(env, b, false, m, scope)
  {
    hide EntityCalls, PendingAfter, See, BaselinesIn, Coherent, SameItems, Agree, CacheBelow;
    SeeSame(a, b, scope, pending);
    if m.PacketEntities? && a.classes.Some? && a.serializers.Some? {
      IsCoherent(env, a);
      EntityCallsInStep(env, a, b, scope, m.numEntries, -1, m.data, pending);
    }
  }

  lemma {:induction false} MessagesInStep(env: Env, a: Context, b: Context, ms: seq<Message>, pending: Pending,
      scope: Scope)
    requires Sound(env, a) && InStep(a, b, pending) && GoodMessages(env, a, ms, false)
    requires scope.Everything? ==> pending == map[]
    requires HandleMessages(env, a, false, ms, scope).Some? && PendingAfterMessages(env, a, ms, pending).Some?
    ensures var ra, rb := HandleMessages(env, a, false, ms, scope), HandleMessages(env, b, false, ms, scope);
      && rb.Some? && rb.value.calls == ra.value.calls
      && InStep(ra.value.ctx, rb.value.ctx, PendingAfterMessages(env, a, ms, pending).value)
    decreases |ms|
  {
    hide ApplyMessage, MessageCalls, Sound, InStep, KeepsBytes, GoodMessage, PendingAfterMessage;
    if ms != [] {
      MessageInStep(env, a, b, ms[0], pending);
      MessageCallsInStep(env, a, b, ms[0], pending, scope);
      MessageSound(env, a, ms[0]);
      if pending == map[] {
        NothingPendingMessage(env, a, ms[0]);
      }
      MessagesInStep(env, ApplyMessage(env, a, false, ms[0]).value, ApplyMessage(env, b, false, ms[0]).value, ms[1..],
                     PendingAfterMessage(env, a, ms[0], pending).value, scope);
    }
  }

  lemma NothingPendingMessage(env: Env, ctx: Context, m: Message)
    requires ApplyMessage(env, ctx, false, m).Some?
    ensures PendingAfterMessage(env, ctx, m, map[]) == Some(map[])
  {
    hide HandleEntries, PendingAfter, CurrentBaselines;
    if m.PacketEntities? {
      NothingPending(m.numEntries, SchemaOf(env, ctx), env.track, BaselinesIn(ctx), ctx.interval, ctx.container, -1,
          m.data);
    }
  }

  lemma {:induction false} NothingPendingMessages(env: Env, ctx: Context, ms: seq<Message>, scope: Scope)
    requires HandleMessages(env, ctx, false, ms, scope).Some?
    ensures PendingAfterMessages(env, ctx, ms, map[]) == Some(map[])
    decreases |ms|
  {
    hide ApplyMessage, MessageCalls, PendingAfterMessage;
    if ms != [] {
      NothingPendingMessage(env, ctx, ms[0]);
      NothingPendingMessages(env, ApplyMessage(env, ctx, false, ms[0]).value, ms[1..], scope);
    }
  }

  /** A whole packet, in step from the start. */
  lemma PacketInStep(env: Env, a: Context, b: Context, ms: seq<Message>, scope: Scope)
    requires Sound(env, a) && InStep(a, b, map[]) && GoodMessages(env, a, ms, false)
    requires HandleMessages(env, a, false, ms, scope).Some?
    ensures var ra, rb := HandleMessages(env, a, false, ms, scope), HandleMessages(env, b, false, ms, scope);
      rb.Some? && rb.value.calls == ra.value.calls && InStep(ra.value.ctx, rb.value.ctx, map[])
  {
    hide HandleMessages, GoodMessages, InStep, Sound, PendingAfterMessages;
    NothingPendingMessages(env, a, ms, scope);
    MessagesInStep(env, a, b, ms, map[], scope);
  }

  // ---- full packets

  lemma SnapshotsSound(env: Env, ctx: Context, snapshots: Option<seq<Snapshot>>)
    requires Sound(env, ctx) && ApplySnapshots(ctx, snapshots).Some?
    requires KeepsBytes(ctx, ApplySnapshots(ctx, snapshots).value)
    ensures Sound(env, ApplySnapshots(ctx, snapshots).value)
  {
    hide FullUpdates, Indexable, KeepsBytes, Coherent, CurrentBaselines;
    if snapshots.Some? {
      FullUpdatesConfigs(ctx.tables, snapshots.value);
      KeptCurrent(env, ctx, ApplySnapshots(ctx, snapshots).value);
    }
  }

  /** The snapshots bring the tables of `b` in step. */
  lemma SnapshotsCatchUp(a: Context, b: Context, ss: seq<Snapshot>)
    requires Behind(a, b) && UniqueNames(a.tables) && Restates(a.tables, ss) && ApplySnapshots(a, Some(ss)).Some?
    ensures ApplySnapshots(b, Some(ss)).Some?
    ensures var ca, cb := ApplySnapshots(a, Some(ss)).value, ApplySnapshots(b, Some(ss)).value;
      && SameItems(ca.tables, cb.tables) && cb.container == b.container && cb.interval == b.interval
      && Behind(ca, cb)
      && (a.interval == b.interval ==> InStep(ca, cb, Outdated(a.container, b.container)))
  {
    hide FullUpdates, Indexable, Restates, CacheBelow, Agree, Outdated;
    SnapshotsAgree(a.tables, b.tables, ss);
    var ca, cb := a.(tables := FullUpdates(a.tables, ss)), b.(tables := FullUpdates(b.tables, ss));
    SameItemsBelow(ca.tables, cb.tables);
    IndexableBelow(ca, cb);
    OutdatedAgree(a.container, b.container);
  }

  lemma SnapshotsInStep(a: Context, b: Context, snapshots: Option<seq<Snapshot>>)
    requires InStep(a, b, map[]) && UniqueNames(a.tables) && ApplySnapshots(a, snapshots).Some?
    ensures ApplySnapshots(b, snapshots).Some? && InStep(ApplySnapshots(a, snapshots).value,
        ApplySnapshots(b, snapshots).value, map[])
  {
    hide FullUpdates, Indexable, CacheBelow, Agree;
    if snapshots.Some? {
      var ss := snapshots.value;
      SnapshotsKeepSame(a.tables, b.tables, ss);
      var ca, cb := a.(tables := FullUpdates(a.tables, ss)), b.(tables := FullUpdates(b.tables, ss));
      SameItemsBelow(ca.tables, cb.tables);
      IndexableBelow(ca, cb);
    }
  }

  /** A snapshot full packet brings a context that lagged behind in step, with the same calls. */
  lemma FullPacketCatchesUp(env: Env, a: Context, b: Context, body: Body)
    requires body.FullPacket? && Sound(env, a)
    requires Behind(a, b) && a.interval == b.interval
    requires IsSnapshot(env, a, body, b.container) && GoodFullPacket(env, a, body)
    requires HandleFullPacket(env, a, false, body.snapshots, body.packet).Some?
    ensures var ra, rb := HandleFullPacket(env, a, false, body.snapshots, body.packet),
                          HandleFullPacket(env, b, false, body.snapshots, body.packet);
      rb.Some? && rb.value.calls == ra.value.calls && InStep(ra.value.ctx, rb.value.ctx, map[])
  {
    hide ApplySnapshots, HandleMessages, GoodMessages, Behind, InStep, Restates, PendingAfterMessages, CacheCurrent,
        UniqueNames, Outdated, KeepsBytes;
    SnapshotsSound(env, a, body.snapshots);
    SnapshotsCatchUp(a, b, body.snapshots.value);
    MessagesInStep(env, ApplySnapshots(a, body.snapshots).value, ApplySnapshots(b, body.snapshots).value,
                   body.packet.value, Outdated(a.container, b.container), NoEntities);
  }

  lemma FullPacketInStep(env: Env, a: Context, b: Context, body: Body)
    requires body.FullPacket? && Sound(env, a) && InStep(a, b, map[]) && GoodFullPacket(env, a, body)
    requires HandleFullPacket(env, a, false, body.snapshots, body.packet).Some?
    ensures var ra, rb := HandleFullPacket(env, a, false, body.snapshots, body.packet),
                          HandleFullPacket(env, b, false, body.snapshots, body.packet);
      rb.Some? && rb.value.calls == ra.value.calls && InStep(ra.value.ctx, rb.value.ctx, map[])
  {
    hide ApplySnapshots, HandleMessages, GoodMessages, InStep, CacheCurrent, UniqueNames, KeepsBytes;
    SnapshotsSound(env, a, body.snapshots);
    SnapshotsInStep(a, b, body.snapshots);
    if body.packet.Some? {
      PacketInStep(env, ApplySnapshots(a, body.snapshots).value, ApplySnapshots(b, body.snapshots).value,
          body.packet.value, NoEntities);
    }
  }

  lemma FullPacketSound(env: Env, a: Context, body: Body)
    requires body.FullPacket? && Sound(env, a) && GoodFullPacket(env, a, body)
    requires HandleFullPacket(env, a, false, body.snapshots, body.packet).Some?
    ensures Sound(env, HandleFullPacket(env, a, false, body.snapshots, body.packet).value.ctx)
  {
    hide ApplySnapshots, HandleMessages, GoodMessages, Sound, KeepsBytes;
    SnapshotsSound(env, a, body.snapshots);
    if body.packet.Some? {
      MessagesSound(env, ApplySnapshots(a, body.snapshots).value, body.packet.value, false, NoEntities);
    }
  }

  // ---- running ahead of a context that skips

  lemma MessageGrows(env: Env, ctx: Context, m: Message)
    requires GoodMessage(env, ctx, m, false) && ApplyMessage(env, ctx, false, m).Some?
    ensures Grew(ctx, ApplyMessage(env, ctx, false, m).value)
  {
    hide HandleEntries, ParseUpdate, Indexable, CurrentBaselines, SelfContained;
    match m
    case PacketEntities(n, data) =>
      CacheGrows(n, SchemaOf(env, ctx), env.track, BaselinesIn(ctx), ctx.interval, ctx.container, -1, data);
    case UpdateTable(id, n, data) => UpdateGrows(ctx.tables[id], env.unsnap, n, data);
    case ServerInfo(_) =>
    case OtherMessage(_, _) =>
  }

  lemma {:induction false} MessagesGrow(env: Env, ctx: Context, ms: seq<Message>, scope: Scope)
    requires GoodMessages(env, ctx, ms, false) && HandleMessages(env, ctx, false, ms, scope).Some?
    ensures Grew(ctx, HandleMessages(env, ctx, false, ms, scope).value.ctx)
    decreases |ms|
  {
    hide ApplyMessage, MessageCalls, Grew, KeepsBytes, GoodMessage;
    if ms == [] {
      GrewNothing(ctx);
    } else {
      var next := ApplyMessage(env, ctx, false, ms[0]).value;
      MessageGrows(env, ctx, ms[0]);
      MessagesGrow(env, next, ms[1..], scope);
      GrewGrew(ctx, next, HandleMessages(env, next, false, ms[1..], scope).value.ctx);
    }
  }

  lemma FullPacketGrows(env: Env, ctx: Context, body: Body)
    requires body.FullPacket? && UniqueNames(ctx.tables) && GoodFullPacket(env, ctx, body)
    requires HandleFullPacket(env, ctx, false, body.snapshots, body.packet).Some?
    ensures Grew(ctx, HandleFullPacket(env, ctx, false, body.snapshots, body.packet).value.ctx)
  {
    hide HandleMessages, GoodMessages, KeepsBytes, FullUpdates, Indexable, UniqueNames, TablesBelow;
    var c := ApplySnapshots(ctx, body.snapshots).value;
    if body.snapshots.Some? {
      SnapshotsGrow(ctx.tables, body.snapshots.value);
    } else {
      GrewNothing(ctx);
    }
    assert Grew(ctx, c);
    if body.packet.Some? {
      MessagesGrow(env, c, body.packet.value, NoEntities);
      GrewGrew(ctx, c, HandleMessages(env, c, false, body.packet.value, NoEntities).value.ctx);
    }
  }

  // ---- commands

  /** What is asked of one command of the sequential run: init messages come before any packet, and a
      full packet that is to be started from is a snapshot. */
  ghost predicate GoodCommand(env: Env, ctx: Context, cmd: Command, started: bool, entered: bool)
  {
    match cmd.body
    case Packet(ms) => GoodMessages(env, ctx, ms, false)
    case SignonPacket(ms) => !started && GoodMessages(env, ctx, ms, true)
    case FullPacket(_, _) => GoodFullPacket(env, ctx, cmd.body) && (entered ==> IsSnapshot(env, ctx, cmd.body, EMPTY))
    case _ => true
  }

  predicate Starts(cmd: Command)
  {
    cmd.body.Packet? || cmd.body.FullPacket?
  }

  lemma InitSound(env: Env, a: Context, cmd: Command)
    requires Sound(env, a) && (cmd.body.SendTables? || cmd.body.ClassInfo?) && HandleBody(env, a, false, cmd.body).Some?
    ensures Sound(env, HandleBody(env, a, false, cmd.body).value.ctx)
  {
    hide Indexable, Coherent, CurrentBaselines;
    if a.container.baselines == map[] {
    } else {
      KeptCurrent(env, a, HandleBody(env, a, false, cmd.body).value.ctx);
    }
  }

  lemma HandleSound(env: Env, a: Context, cmd: Command, started: bool, entered: bool)
    requires Sound(env, a) && GoodCommand(env, a, cmd, started, entered) && Handle(env, a, false, cmd).Some?
    ensures Sound(env, Handle(env, a, false, cmd).value.ctx)
  {
    hide HandleMessages, HandleFullPacket, GoodMessages, GoodFullPacket, IsSnapshot, HandleSendTables,
        HandleClassInfo, Sound, See;
    match cmd.body
    case Packet(ms) => MessagesSound(env, a, ms, false, Everything);
    case SignonPacket(ms) => MessagesSound(env, a, ms, true, Everything);
    case FullPacket(_, _) => FullPacketSound(env, a, cmd.body);
    case SendTables(_) => InitSound(env, a, cmd);
    case ClassInfo(_) => InitSound(env, a, cmd);
    case _ =>
  }

  lemma InitInStep(env: Env, a: Context, b: Context, body: Body)
    requires InStep(a, b, map[]) && (body.SendTables? || body.ClassInfo?) && HandleBody(env, a, false, body).Some?
    ensures var ra, rb := HandleBody(env, a, false, body), HandleBody(env, b, false, body);
      rb.Some? && rb.value.calls == ra.value.calls && InStep(ra.value.ctx, rb.value.ctx, map[])
  {
    hide Indexable, Agree, CacheBelow;
    SameItemsBelow(a.tables, b.tables);
    if body.ClassInfo? && Indexable(a.(classes := Some(body.info))) {
      IndexableBelow(a.(classes := Some(body.info)), b.(classes := Some(body.info)));
    }
  }

  lemma BodyInStep(env: Env, a: Context, b: Context, cmd: Command, entered: bool)
    requires Sound(env, a) && InStep(a, b, map[]) && GoodCommand(env, a, cmd, true, entered)
    requires HandleBody(env, a, false, cmd.body).Some?
    ensures var ra, rb := HandleBody(env, a, false, cmd.body), HandleBody(env, b, false, cmd.body);
      rb.Some? && rb.value.calls == ra.value.calls && InStep(ra.value.ctx, rb.value.ctx, map[])
  {
    hide HandleMessages, HandleFullPacket, GoodMessages, GoodFullPacket, IsSnapshot, HandleSendTables,
        HandleClassInfo, Sound, InStep;
    match cmd.body
    case Packet(ms) => PacketInStep(env, a, b, ms, Everything);
    case FullPacket(_, _) => FullPacketInStep(env, a, b, cmd.body);
    case SendTables(_) => InitInStep(env, a, b, cmd.body);
    case ClassInfo(_) => InitInStep(env, a, b, cmd.body);
    case _ =>
  }

  lemma TickEndInStep(a: Context, b: Context)
    requires InStep(a, b, map[])
    ensures TickEnd(a) == TickEnd(b)
  {
    hide See, SameItems, Agree, CacheBelow;
    SeeSame(a, b, Everything, map[]);
  }

  lemma AdvanceInStep(a: Context, b: Context, cmd: Command)
    requires InStep(a, b, map[])
    ensures InStep(Advance(a, cmd), Advance(b, cmd), map[])
  {
  }

  /** In step, every command does the same to both and shows the visitor the same. */
  lemma HandleInStep(env: Env, a: Context, b: Context, cmd: Command, entered: bool)
    requires Sound(env, a) && InStep(a, b, map[]) && GoodCommand(env, a, cmd, true, entered)
        && Handle(env, a, false, cmd).Some?
    ensures var ra, rb := Handle(env, a, false, cmd), Handle(env, b, false, cmd);
      rb.Some? && rb.value.calls == ra.value.calls && InStep(ra.value.ctx, rb.value.ctx, map[])
  {
    hide HandleBody, GoodCommand, Sound, See, SameItems, Agree, CacheBelow, TickEnd;
    SeeSame(a, b, CommandScope(cmd), map[]);
    BodyInStep(env, a, b, cmd, entered);
    TickEndInStep(HandleBody(env, a, false, cmd.body).value.ctx, HandleBody(env, b, false, cmd.body).value.ctx);
  }

  /** The full packet a lagging context starts from. */
  lemma HandleCatchesUp(env: Env, a: Context, b: Context, cmd: Command, started: bool)
    requires Sound(env, a) && cmd.body.FullPacket? && GoodCommand(env, a, cmd, started, true)
    requires Behind(a, b) && a.interval == b.interval && Live(b.container) == {}
    requires Handle(env, a, false, cmd).Some?
    ensures var ra, rb := Handle(env, a, false, cmd), Handle(env, b, false, cmd);
      rb.Some? && rb.value.calls == ra.value.calls && InStep(ra.value.ctx, rb.value.ctx, map[])
  {
    hide HandleFullPacket, GoodFullPacket, IsSnapshot, Sound, TablesBelow, CacheBelow, InStep, TickEnd;
    SnapshotForNone(env, a, b.container, cmd.body);
    FullPacketCatchesUp(env, a, b, cmd.body);
    TickEndInStep(HandleBody(env, a, false, cmd.body).value.ctx, HandleBody(env, b, false, cmd.body).value.ctx);
  }

  // ---- warming up

  /** A context that has only followed the init commands; up to the first packet it has all tables and
      the tick interval. */
  ghost predicate Warm(a: Context, b: Context, started: bool)
  {
    && Behind(a, b) && Live(b.container) == {}
    && (!started ==> a.tables == b.tables && a.interval == b.interval)
  }

  /** Without entities all are out of date alike. */
  lemma SnapshotForNone(env: Env, a: Context, held: Container, body: Body)
    requires body.FullPacket? && Live(held) == {} && IsSnapshot(env, a, body, EMPTY)
    ensures IsSnapshot(env, a, body, held)
  {
    hide PendingAfterMessages, Restates;
    assert held.entities.Keys == {} && held.skipped.Keys == {};
    assert Outdated(a.container, held) == Outdated(a.container, EMPTY);
  }

  lemma MessageWarm(env: Env, a: Context, b: Context, m: Message)
    requires Warm(a, b, false) && ApplyMessage(env, a, false, m).Some?
    ensures ApplyMessage(env, b, true, m).Some?
    ensures Warm(ApplyMessage(env, a, false, m).value, ApplyMessage(env, b, true, m).value, false)
  {
    hide HandleEntries, ParseUpdate, FindTable, CurrentBaselines, Live, KeysOk;
    if m.PacketEntities? {
      CacheGrows(m.numEntries, SchemaOf(env, a), env.track, BaselinesIn(a), a.interval, a.container, -1, m.data);
    }
  }

  lemma {:induction false} MessagesWarm(env: Env, a: Context, b: Context, ms: seq<Message>)
    requires Warm(a, b, false) && HandleMessages(env, a, false, ms, Everything).Some?
    ensures HandleMessages(env, b, true, ms, Everything).Some?
    ensures Warm(HandleMessages(env, a, false, ms, Everything).value.ctx,
                 HandleMessages(env, b, true, ms, Everything).value.ctx, false)
    decreases |ms|
  {
    hide ApplyMessage, MessageCalls, Warm;
    if ms != [] {
      MessageWarm(env, a, b, ms[0]);
      MessagesWarm(env, ApplyMessage(env, a, false, ms[0]).value, ApplyMessage(env, b, true, ms[0]).value, ms[1..]);
    }
  }

  /** What the warm-up makes of a command. */
  function WarmUp(env: Env, b: Context, cmd: Command): Option<Context>
  {
    if !IsInit(cmd.body) then Some(Advance(b, cmd))
    else
      match Handle(env, Advance(b, cmd), true, cmd)
      case Some(r) => Some(r.ctx)
      case None => None
  }

  lemma InitWarm(env: Env, a: Context, b: Context, body: Body, started: bool)
    requires Warm(a, b, started) && (body.SendTables? || body.ClassInfo?) && HandleBody(env, a, false, body).Some?
    ensures var ra, rb := HandleBody(env, a, false, body), HandleBody(env, b, true, body);
      && rb.Some? && Warm(ra.value.ctx, rb.value.ctx, started)
      && ra.value.ctx.interval == a.interval && rb.value.ctx.interval == b.interval
  {
    hide Indexable, CacheBelow, Live;
    if body.ClassInfo? && Indexable(a.(classes := Some(body.info))) {
      IndexableBelow(a.(classes := Some(body.info)), b.(classes := Some(body.info)));
    }
  }

  lemma AdvanceWarm(a: Context, b: Context, cmd: Command, started: bool)
    requires Warm(a, b, started)
    ensures Warm(Advance(a, cmd), Advance(b, cmd), started)
  {
  }

  lemma GrewWarm(a: Context, later: Context, b: Context, started: bool)
    requires Grew(a, later) && Warm(a, b, started)
    ensures Warm(later, b, true)
  {
    GrewBehind(a, later, b);
  }

  lemma WarmInit(env: Env, a: Context, b: Context, cmd: Command, started: bool, entered: bool)
    requires Warm(a, b, started) && GoodCommand(env, a, cmd, started, entered)
    requires IsInit(cmd.body) && Handle(env, a, false, cmd).Some?
    ensures Handle(env, b, true, cmd).Some?
    ensures var la, lb := Handle(env, a, false, cmd).value.ctx, Handle(env, b, true, cmd).value.ctx;
      && Warm(la, lb, started)
      && lb.interval == (if cmd.body.SignonPacket? then la.interval else b.interval)
  {
    hide HandleMessages, HandleSendTables, HandleClassInfo, GoodMessages, Behind, See;
    match cmd.body
    case SignonPacket(ms) => MessagesWarm(env, a, b, ms);
    case SendTables(_) => InitWarm(env, a, b, cmd.body, started);
    case ClassInfo(_) => InitWarm(env, a, b, cmd.body, started);
  }

  lemma GrowsPast(env: Env, a: Context, cmd: Command, started: bool, entered: bool)
    requires Sound(env, a) && GoodCommand(env, a, cmd, started, entered) && !IsInit(cmd.body)
        && Handle(env, a, false, cmd).Some?
    ensures Grew(a, Handle(env, a, false, cmd).value.ctx)
    ensures !Starts(cmd) ==> Handle(env, a, false, cmd).value.ctx == a
  {
    hide HandleMessages, HandleFullPacket, GoodMessages, GoodFullPacket, IsSnapshot, CacheCurrent, Grew, See;
    match cmd.body
    case Packet(ms) => MessagesGrow(env, a, ms, Everything);
    case FullPacket(_, _) => FullPacketGrows(env, a, cmd.body);
    case _ => GrewNothing(a);
  }

  /** The warm-up keeps up with the sequential run. */
  lemma WarmFollows(env: Env, a: Context, b: Context, cmd: Command, started: bool, entered: bool)
    requires Sound(env, a) && Warm(a, b, started)
    requires GoodCommand(env, Advance(a, cmd), cmd, started, entered) && Handle(env, Advance(a, cmd), false, cmd).Some?
    ensures WarmUp(env, b, cmd).Some?
    ensures var la, lb := Handle(env, Advance(a, cmd), false, cmd).value.ctx, WarmUp(env, b, cmd).value;
      && Warm(la, lb, started || Starts(cmd))
      && lb.interval == (if cmd.body.SignonPacket? then la.interval else b.interval)
  {
    hide Handle, Warm, GoodCommand, Grew;
    var a1, b1 := Advance(a, cmd), Advance(b, cmd);
    AdvanceSound(env, a, cmd);
    AdvanceWarm(a, b, cmd, started);
    if IsInit(cmd.body) {
      WarmInit(env, a1, b1, cmd, started, entered);
    } else {
      GrowsPast(env, a1, cmd, started, entered);
      GrewWarm(a1, Handle(env, a1, false, cmd).value.ctx, b1, started);
    }
  }

  lemma AdvanceSound(env: Env, a: Context, cmd: Command)
    requires Sound(env, a)
    ensures Sound(env, Advance(a, cmd))
  {
    hide Coherent;
  }
}
