/** The demo player: what handling commands does to the context, and what the visitor is shown. */
module Player {
  import opened Prelude
  import opened Bits
  import opened FxHash
  import opened Serializers
  import opened StringTables
  import opened Entities

  /** What the player is built with: the field-path tree and its path buffer, the visitor's filter,
      snappy, and the tick-interval ratio truncated to an integer. */
  datatype Env = Env(tree: OpTree, room: nat, track: Word -> bool, unsnap: Unsnap, ratio: nat -> int)

  /** `bits` is the width of a class id, `names` the hash of each network name by class id. */
  datatype Classes = Classes(bits: nat, names: seq<Word>)

  /** `Broken` is a message that cannot be decoded, `Unframed` the bits of a packet that frame none. */
  datatype Message =
    | CreateTable(cfg: Config, numItems: nat, plain: Option<BitString>)
    | UpdateTable(id: int, numChanged: nat, changes: BitString)
    | PacketEntities(numEntries: nat, data: BitString)
    | ServerInfo(interval: Option<nat>)
    | OtherMessage(kind: nat, payload: Bytes)
    | Broken
    | Unframed

  datatype Body =
    | Packet(msgs: seq<Message>)
    | SignonPacket(msgs: seq<Message>)
    | SendTables(sent: Option<SerializerMap>)
    | ClassInfo(info: Classes)
    | FullPacket(snapshots: Option<seq<Snapshot>>, packet: Option<seq<Message>>)
    | SyncTick
    | Other(kind: nat, payload: Bytes)
    | Unreadable

  datatype Command = Command(tick: int, body: Body)

  datatype Context = Context(tables: seq<Table>, classes: Option<Classes>, serializers: Option<SerializerMap>,
                             container: Container, interval: nat, fullPacketInterval: int, tick: int, prevTick: int)

  const NEW_CONTEXT: Context := Context([], None, None, EMPTY, 0, 0, -1, -1)

  /** `reset` keeps the serializers, the classes and the intervals. */
  function ResetContext(ctx: Context): Context
  {
    ctx.(tables := [], container := EMPTY, tick := -1, prevTick := -1)
  }

  function Advance(ctx: Context, cmd: Command): Context
  {
    ctx.(prevTick := ctx.tick, tick := cmd.tick)
  }

  // ---- what the visitor is shown

  datatype TableView = TableView(cfg: Config, items: Items)

  function ViewsOf(ts: seq<Table>): (r: seq<TableView>)
    ensures |r| == |ts| && forall k | 0 <= k < |ts| :: r[k] == TableView(ts[k].cfg, ts[k].items)
  {
    seq(|ts|, k requires 0 <= k < |ts| => TableView(ts[k].cfg, ts[k].items))
  }

  /** What of the context is recorded with a call. */
  datatype Scope = Everything | NoEntities | InitOnly

  datatype Sight = Sight(tables: Option<seq<TableView>>, entities: Option<map<int, EntityData>>,
                         classes: Option<Classes>, serializers: Option<SerializerMap>, interval: nat, tick: int)

  /** All of the context, except in a full packet: at its `on_cmd` neither tables nor entities, and at the
      calls of its messages no entities.  There a sequential run still has what the full packet has not
      restated yet, and a segment has not. */
  function See(ctx: Context, scope: Scope): Sight
  {
    Sight(if scope.InitOnly? then None else Some(ViewsOf(ctx.tables)),
          if scope.Everything? then Some(ctx.container.entities) else None,
          ctx.classes, ctx.serializers, ctx.interval, ctx.tick)
  }

  function CommandScope(cmd: Command): Scope
  {
    if cmd.body.FullPacket? then InitOnly else Everything
  }

  datatype Call =
    | OnCmd(sight: Sight, prevTick: int, cmd: Command)
    | OnPacket(sight: Sight, msg: Message)
    | OnEntity(sight: Sight, event: EntityEvent)
    | OnTickEnd(sight: Sight)

  datatype Out = Out(ctx: Context, calls: seq<Call>)

  function Then(calls: seq<Call>, o: Option<Out>): Option<Out>
  {
    match o
    case Some(r) => Some(Out(r.ctx, calls + r.calls))
    case None => None
  }

  // ---- baselines

  function ClassCount(ctx: Context): Option<nat>
  {
    if ctx.classes.None? then None else Some(|ctx.classes.value.names|)
  }

  /** The index can be brought up to date. */
  predicate Indexable(ctx: Context)
  {
    BaselinesIndexable(ctx.tables, ClassCount(ctx))
  }

  // ---- messages

  function SchemaOf(env: Env, ctx: Context): Schema
    requires ctx.classes.Some? && ctx.serializers.Some?
  {
    Schema(env.tree, env.room, ctx.classes.value.bits, ctx.classes.value.names, ctx.serializers.value)
  }

  function HandleCreateTable(env: Env, ctx: Context, cfg: Config, n: nat, data: Option<BitString>): Option<Context>
  {
    if FindTable(ctx.tables, cfg.name).Some? || data.None? then None else
    match ParseUpdate(NewTable(cfg), env.unsnap, n, data.value)
    case Fail => None
    case Ok(t, _) =>
      var ctx1 := ctx.(tables := ctx.tables + [t]);
      if cfg.name == BASELINE_TABLE && !Indexable(ctx1) then None else Some(ctx1)
  }

  function HandleUpdateTable(env: Env, ctx: Context, id: int, n: nat, data: BitString): Option<Context>
  {
    if !(0 <= id < |ctx.tables|) then None else
    match ParseUpdate(ctx.tables[id], env.unsnap, n, data)
    case Fail => None
    case Ok(t, _) =>
      var ctx1 := ctx.(tables := ctx.tables[id := t]);
      if ctx.tables[id].cfg.name == BASELINE_TABLE && !Indexable(ctx1) then None else Some(ctx1)
  }

  function BaselinesIn(ctx: Context): Baselines
  {
    if ctx.classes.None? then [] else CurrentBaselines(ctx.tables, |ctx.classes.value.names|)
  }

  function HandlePacketEntities(env: Env, ctx: Context, n: nat, data: BitString): Option<Context>
  {
    if ctx.classes.None? || ctx.serializers.None? then None else
    match HandleEntries(n, SchemaOf(env, ctx), env.track, BaselinesIn(ctx), ctx.interval, ctx.container, -1, data)
    case Fail => None
    case Ok(s, _) => Some(ctx.(container := s.container))
  }

  /** The visitor sees the entity after the entry took effect. */
  function Shown(ctx: Context, scope: Scope, events: seq<EntityEvent>): seq<Call>
  {
    seq(|events|, k requires 0 <= k < |events| => OnEntity(See(ctx, scope), events[k]))
  }

  /** The `on_entity` calls of `n` entries, each with the context as that entry leaves it. */
  function EntityCalls(env: Env, ctx: Context, scope: Scope, n: nat, prev: int, b: BitString): seq<Call>
    requires ctx.classes.Some? && ctx.serializers.Some?
    decreases n
  {
    if n == 0 then [] else
    match ReadEntryHead(prev, b)
    case Fail => []
    case Ok(h, b1) =>
      match HandleDelta(SchemaOf(env, ctx), env.track, BaselinesIn(ctx), ctx.interval, ctx.container, h.index,
                        h.delta, b1)
      case Fail => []
      case Ok(s, b2) =>
        var later := ctx.(container := s.container);
        Shown(later, scope, s.events) + EntityCalls(env, later, scope, n - 1, s.index, b2)
  }

  const FULL_PACKET_INTERVAL: int := 1800

  function HandleServerInfo(env: Env, ctx: Context, interval: Option<nat>): Context
  {
    if interval.None? then ctx
    else ctx.(interval := interval.value, fullPacketInterval := FULL_PACKET_INTERVAL * env.ratio(interval.value))
  }

  /** The effect of a message. */
  function ApplyMessage(env: Env, ctx: Context, skipEntities: bool, m: Message): Option<Context>
  {
    match m
    case CreateTable(cfg, n, data) => HandleCreateTable(env, ctx, cfg, n, data)
    case UpdateTable(id, n, data) => HandleUpdateTable(env, ctx, id, n, data)
    case PacketEntities(n, data) => if skipEntities then Some(ctx) else HandlePacketEntities(env, ctx, n, data)
    case ServerInfo(interval) => Some(HandleServerInfo(env, ctx, interval))
    case OtherMessage(_, _) => Some(ctx)
    case Broken => None
    case Unframed => None
  }

  /** The calls for a message: `on_packet`, and `on_entity` as its entries take effect.  A failure while the bits
      of a message are taken from the packet shows nothing. */
  function MessageCalls(env: Env, ctx: Context, skipEntities: bool, m: Message, scope: Scope): seq<Call>
  {
    (if m.Unframed? then [] else [OnPacket(See(ctx, scope), m)])
    + (if m.PacketEntities? && !skipEntities && ctx.classes.Some? && ctx.serializers.Some? then
         EntityCalls(env, ctx, scope, m.numEntries, -1, m.data)
       else [])
  }

  function HandleMessages(env: Env, ctx: Context, skipEntities: bool, ms: seq<Message>, scope: Scope): Option<Out>
    decreases |ms|
  {
    if ms == [] then Some(Out(ctx, [])) else
    match ApplyMessage(env, ctx, skipEntities, ms[0])
    case None => None
    case Some(ctx1) =>
      Then(MessageCalls(env, ctx, skipEntities, ms[0], scope), HandleMessages(env, ctx1, skipEntities, ms[1..], scope))
  }

  // ---- commands

  function HandleSendTables(ctx: Context, sent: Option<SerializerMap>): Option<Out>
  {
    if ctx.serializers.Some? then Some(Out(ctx, []))
    else if sent.None? then None
    else Some(Out(ctx.(serializers := sent), []))
  }

  function HandleClassInfo(ctx: Context, info: Classes): Option<Out>
  {
    if ctx.classes.Some? then Some(Out(ctx, []))
    else if !Indexable(ctx.(classes := Some(info))) then None
    else Some(Out(ctx.(classes := Some(info)), []))
  }

  function ApplySnapshots(ctx: Context, snapshots: Option<seq<Snapshot>>): Option<Context>
  {
    match snapshots
    case None => Some(ctx)
    case Some(ss) =>
      var ctx1 := ctx.(tables := FullUpdates(ctx.tables, ss));
      if ctx.classes.None? || !Indexable(ctx1) then None else Some(ctx1)
  }

  function HandleFullPacket(env: Env, ctx: Context, skipEntities: bool, snapshots: Option<seq<Snapshot>>,
                            packet: Option<seq<Message>>): Option<Out>
  {
    match ApplySnapshots(ctx, snapshots)
    case None => None
    case Some(ctx1) =>
      if packet.None? then Some(Out(ctx1, [])) else HandleMessages(env, ctx1, skipEntities, packet.value, NoEntities)
  }

  function HandleBody(env: Env, ctx: Context, skipEntities: bool, body: Body): Option<Out>
  {
    match body
    case Packet(ms) => HandleMessages(env, ctx, skipEntities, ms, Everything)
    case SignonPacket(ms) => HandleMessages(env, ctx, skipEntities, ms, Everything)
    case SendTables(sent) => HandleSendTables(ctx, sent)
    case ClassInfo(info) => HandleClassInfo(ctx, info)
    case FullPacket(snapshots, packet) => HandleFullPacket(env, ctx, skipEntities, snapshots, packet)
    case SyncTick => Some(Out(ctx, []))
    case Other(_, _) => Some(Out(ctx, []))
    case Unreadable => None
  }

  function TickEnd(ctx: Context): seq<Call>
  {
    if ctx.prevTick != ctx.tick then [OnTickEnd(See(ctx, Everything))] else []
  }

  /** `dispatch` of a command to be handled; the header has been read. */
  function Handle(env: Env, ctx: Context, skipEntities: bool, cmd: Command): Option<Out>
  {
    match HandleBody(env, ctx, skipEntities, cmd.body)
    case None => None
    case Some(r) =>
      Some(Out(r.ctx, [OnCmd(See(ctx, CommandScope(cmd)), ctx.prevTick, cmd)] + r.calls + TickEnd(r.ctx)))
  }

  // ---- runs

  /** Every command handled, in order. */
  function Run(env: Env, ctx: Context, cmds: seq<Command>): Option<Out>
    decreases |cmds|
  {
    if cmds == [] then Some(Out(ctx, [])) else
    match Handle(env, Advance(ctx, cmds[0]), false, cmds[0])
    case None => None
    case Some(r) => Then(r.calls, Run(env, r.ctx, cmds[1..]))
  }

  /** The stop of `run_seekable`: the header is unread and the tick restored. */
  function Stopped(ctx: Context): Context
  {
    ctx.(prevTick := ctx.tick)
  }

  predicate IsInit(body: Body)
  {
    body.SendTables? || body.ClassInfo? || body.SignonPacket?
  }

  /** The loop of `run_full_packet` with `seen` full packets behind it. */
  function SegmentFrom(env: Env, ctx: Context, cmds: seq<Command>, clean: bool, ordinal: nat, seen: nat,
      collecting: bool): Option<Out>
    decreases |cmds|
  {
    if cmds == [] then (if clean then Some(Out(ctx, [])) else None)
    else
      var cmd, rest := cmds[0], cmds[1..];
      var ctx1 := Advance(ctx, cmd);
      if cmd.body.FullPacket? then
        if seen < ordinal then SegmentFrom(env, ctx1, rest, clean, ordinal, seen + 1, collecting)
        else if seen == ordinal then
          match Handle(env, ctx1, false, cmd)
          case None => None
          case Some(r) => Then(r.calls, SegmentFrom(env, r.ctx, rest, clean, ordinal, seen + 1, true))
        else Some(Out(Stopped(ctx), []))
      else if collecting then
        match Handle(env, ctx1, false, cmd)
        case None => None
        case Some(r) => Then(r.calls, SegmentFrom(env, r.ctx, rest, clean, ordinal, seen, true))
      else if IsInit(cmd.body) then
        match Handle(env, ctx1, true, cmd)
        case None => None
        case Some(r) => SegmentFrom(env, r.ctx, rest, clean, ordinal, seen, false)
      else SegmentFrom(env, ctx1, rest, clean, ordinal, seen, false)
  }

  /** `run_full_packet`. */
  function Segment(env: Env, ctx: Context, cmds: seq<Command>, clean: bool, ordinal: nat): Option<Out>
  {
    SegmentFrom(env, ResetContext(ctx), cmds, clean, ordinal, 0, ordinal == 0)
  }

  const AHEAD_SLACK: int := 100

  predicate Ahead(ctx: Context, target: int)
  {
    target - ctx.tick > ctx.fullPacketInterval + AHEAD_SLACK
  }

  /** A full packet met while seeking: one with another ahead of it only updates string tables. */
  function SeekFullPacket(env: Env, ctx: Context, cmd: Command, target: int): Option<Out>
    requires cmd.body.FullPacket?
  {
    var packet := if Ahead(ctx, target) then None else cmd.body.packet;
    match HandleFullPacket(env, ctx, false, cmd.body.snapshots, packet)
    case None => None
    case Some(r) =>
      Some(Out(r.ctx, [OnCmd(See(ctx, InitOnly), ctx.prevTick, cmd)] + r.calls + [OnTickEnd(See(r.ctx, Everything))]))
  }

  /** The loop of `run_to_tick`: the first sync tick was handled, a last full packet was handled. */
  function SeekFrom(env: Env, ctx: Context, cmds: seq<Command>, clean: bool, target: int, synced: bool,
      last: bool): Option<Out>
    decreases |cmds|
  {
    if cmds == [] then (if clean then Some(Out(ctx, [])) else None)
    else if cmds[0].tick > target then Some(Out(Stopped(ctx), []))
    else
      var cmd, rest := cmds[0], cmds[1..];
      var ctx1 := Advance(ctx, cmd);
      if !synced then
        match Handle(env, ctx1, false, cmd)
        case None => None
        case Some(r) => Then(r.calls, SeekFrom(env, r.ctx, rest, clean, target, cmd.body.SyncTick?, last))
      else if cmd.body.FullPacket? then
        match SeekFullPacket(env, ctx1, cmd, target)
        case None => None
        case Some(r) => Then(r.calls, SeekFrom(env, r.ctx, rest, clean, target, synced, !Ahead(ctx1, target)))
      else if last then
        match Handle(env, ctx1, false, cmd)
        case None => None
        case Some(r) => Then(r.calls, SeekFrom(env, r.ctx, rest, clean, target, synced, last))
      else SeekFrom(env, ctx1, rest, clean, target, synced, last)
  }

  /** `run_to_tick`. */
  function Seek(env: Env, ctx: Context, cmds: seq<Command>, clean: bool, target: int): Option<Out>
  {
    SeekFrom(env, ResetContext(ctx), cmds, clean, target, false, false)
  }

  /** The ticks of the full packets in file order. */
  function FullPacketTicks(cmds: seq<Command>): seq<int>
  {
    if cmds == [] then []
    else (if cmds[0].body.FullPacket? then [cmds[0].tick] else []) + FullPacketTicks(cmds[1..])
  }
}
