/** The context as the player keeps it: string tables and entities as objects that are changed in place,
    the index of the baselines, and the values beside them. */
module LiveContexts {
  import opened Prelude
  import opened BitReaders
  import opened FlatTrees
  import opened StringTables
  import opened InstanceBaselines
  import opened BaselineLookup
  import opened Serializers
  import opened FieldPaths
  import opened Entities
  import EC = EntityContainers
  import P = Player
  import opened Player

  class LiveContext {
    const env: Env
    const stringTables: TableContext
    const entities: EC.EntityContainer
    var classes: Option<Classes>
    var serializers: Option<SerializerMap>
    var interval: nat
    var fullPacketInterval: int
    var tick: int
    var prevTick: int
    /** The context as a value. */
    ghost var seen: Context
    ghost var Repr: set<object>

    ghost function EntityObjects(): set<object>
      reads entities
    {
      {entities, entities.scratch.fps} + entities.Objects()
    }

    /** Each object belongs to one part of the context, and the plain fields are those of the value. */
    ghost predicate Apart()
      reads this, stringTables, stringTables.tables, stringTables.TableObjects(), entities, entities.Objects()
    {
      && this !in stringTables.TableObjects() && this !in EntityObjects()
      && EntityObjects() !! stringTables.Footprint()
      && stringTables.Valid() && entities.Valid()
      && entities.scratch.tree == env.tree && entities.scratch.fps.Length == env.room
      && classes == seen.classes && serializers == seen.serializers && interval == seen.interval
      && fullPacketInterval == seen.fullPacketInterval && tick == seen.tick && prevTick == seen.prevTick
      && stringTables.classes == ClassCount(seen)
    }

    /** What holds even after a failure. */
    ghost predicate Usable()
      reads this, Repr
    {
      && this in Repr && stringTables in Repr && stringTables.baseline in Repr
      && (forall k | 0 <= k < |stringTables.tables| :: stringTables.tables[k] in Repr)
      && stringTables.TableObjects() <= Repr && entities in Repr && EntityObjects() <= Repr
      && Apart()
    }

    /** The objects hold what the value says, and the index is that of the tables, whatever the order of
        the visits. */
    ghost predicate Valid()
      reads this, Repr
    {
      && Usable()
      && stringTables.Coherent() && stringTables.Sees(seen.tables)
      && BaselinesDistinct(seen.tables, ClassCount(seen))
      && entities.View() == seen.container
    }

    /** The context is now `r`; without one the step failed. */
    ghost predicate Is(ok: bool, r: Option<Context>)
      reads this, Repr
    {
      match r
      case Some(c) => ok && Valid() && seen == c
      case None => !ok
    }

    constructor (env: Env, nodes: seq<FlatBranch<FieldOp>>, root: nat)
      requires Descending(nodes) && root < |nodes| && Represents(nodes, BranchAt(root), env.tree)
      ensures Valid() && fresh(Repr) && seen == NEW_CONTEXT && this.env == env
    {
      this.env := env;
      hide FlatTrees.Represents, Descending, EC.EntityContainer.Valid, EC.EntityContainer.View, TableContext.Valid;
      hide TableContext.Coherent, TableContext.Sees, TableContext.TableObjects, EC.EntityContainer.Objects;
      var tables := new TableContext();
      stringTables := tables;
      var scratch := new EC.Scratch(env.tree, env.room, nodes, root);
      entities := new EC.EntityContainer(scratch);
      classes, serializers, interval, fullPacketInterval, tick, prevTick := None, None, 0, 0, -1, -1;
      seen := NEW_CONTEXT;
      Repr := {this, tables, tables.baseline, entities, scratch.fps};
    }

    // ---- string tables

    /** A change inside the tables leaves the rest alone. */
    twostate lemma TablesMoved()
      requires old(Usable()) && stringTables.Valid() && stringTables.OnlyNewObjects()
      requires unchanged(this) && forall o | o in old(EntityObjects()) :: unchanged(o)
      requires stringTables.classes == old(stringTables.classes)
      ensures Apart() && entities.View() == old(entities.View()) && EntityObjects() == old(EntityObjects())
    {
      hide TableContext.TableObjects, EC.EntityContainer.Valid, EC.EntityContainer.View;
      assert entities.Objects() == old(entities.Objects());
    }

    /** The new objects of the tables become this context's, and the value follows them. */
    ghost method Adopt(ok: bool, ts: seq<Table>)
      requires Apart() && this in Repr && EntityObjects() <= Repr
      requires stringTables in Repr && stringTables.baseline in Repr
      requires ok ==> stringTables.Coherent() && stringTables.Sees(ts) && entities.View() == seen.container
      requires ok ==> BaselinesDistinct(ts, ClassCount(seen))
      modifies this`seen, this`Repr
      ensures Usable() && Repr == old(Repr) + stringTables.TableObjects()
      ensures if ok then Valid() && seen == old(seen).(tables := ts) else seen == old(seen)
    {
      hide TableContext.TableObjects, EC.EntityContainer.Valid, EC.EntityContainer.View, EC.EntityContainer.Objects;
      hide TableContext.Valid, TableContext.Sees, TableContext.Coherent;
      Repr := Repr + stringTables.TableObjects();
      if ok {
        seen := seen.(tables := ts);
      }
      forall k | 0 <= k < |stringTables.tables|
        ensures stringTables.tables[k] in Repr
      {
        stringTables.Belongs(k);
      }
    }

    lemma OpenedUsable()
      requires Usable()
      ensures Apart() && stringTables.Valid() && entities.Valid()
      ensures this in Repr && this !in stringTables.TableObjects() && this !in EntityObjects()
      ensures stringTables in Repr && stringTables.baseline in Repr && stringTables.TableObjects() <= Repr
      ensures entities in Repr && entities.scratch.fps in Repr && entities.Objects() <= Repr
      ensures EntityObjects() == {entities, entities.scratch.fps} + entities.Objects()
      ensures EntityObjects() !! ({stringTables, stringTables.baseline} + stringTables.TableObjects())
      ensures env.tree == entities.scratch.tree && env.room == entities.scratch.fps.Length
      ensures classes == seen.classes && serializers == seen.serializers && interval == seen.interval
      ensures stringTables.classes == ClassCount(seen)
    {
    }

    lemma OpenedFields()
      requires Valid()
      ensures Usable() && this in Repr && env.tree == entities.scratch.tree
      ensures classes == seen.classes && serializers == seen.serializers && interval == seen.interval
      ensures fullPacketInterval == seen.fullPacketInterval && tick == seen.tick && prevTick == seen.prevTick
    {
    }

    lemma Opened()
      requires Valid()
      ensures Usable() && stringTables.Valid()
      ensures stringTables.Coherent() && stringTables.Sees(seen.tables) && entities.View() == seen.container
      ensures BaselinesDistinct(seen.tables, ClassCount(seen))
    {
    }

    method HandleCreateStringTable(cfg: Config, n: nat, data: Option<seq<bool>>) returns (ok: bool)
      requires Valid()
      modifies Repr
      ensures Usable() && fresh(Repr - old(Repr))
      ensures Is(ok, P.HandleCreateTable(env, old(seen), cfg, n, data))
    {
      hide TableContext.Valid, TableContext.Sees, ParseUpdate, BaselinesIndexable, FindTable, Usable, Valid;
      Opened();
      var found := stringTables.Find(cfg.name);
      stringTables.FindsTable(seen.tables, cfg.name, found);
      if found.Some? || data.None? { return false; }
      ok := CreateStringTable(cfg, n, data.value);
    }

    method CreateStringTable(cfg: Config, n: nat, data: seq<bool>) returns (ok: bool)
      requires Valid() && forall k | 0 <= k < |stringTables.tables| :: stringTables.tables[k].cfg.name != cfg.name
      modifies Repr
      ensures Usable() && fresh(Repr - old(Repr))
      ensures
        match ParseUpdate(NewTable(cfg), env.unsnap, n, data)
        case Fail => !ok
        case Ok(t, _) =>
          var c := old(seen).(tables := old(seen).tables + [t]);
          Is(ok, if cfg.name == BASELINE_TABLE && !Indexable(c) then None else Some(c))
    {
      hide TableContext.Valid, TableContext.Sees, TableContext.Coherent, TableContext.TableObjects;
      hide EC.EntityContainer.Valid, EC.EntityContainer.View, EC.EntityContainer.Objects;
      hide ParseUpdate, BaselinesIndexable, BaselinesFit, BaselinesDistinct, Usable, Valid, Apart, EntityObjects;
      Opened();
      OpenedUsable();
      var br := new BitReader(data);
      ok := stringTables.HandleCreateStringTable(cfg, env.unsnap, n, br, seen.tables);
      TablesMoved();
      ghost var spec := ParseUpdate(NewTable(cfg), env.unsnap, n, data);
      ghost var ts := if spec.Ok? then seen.tables + [spec.value] else [];
      ParseKeepsConfig(NewTable(cfg), env.unsnap, n, data);
      if spec.Ok? { AppendIndexable(seen.tables, spec.value, ClassCount(seen)); }
      if ok {
        stringTables.DistinctSeen(ts);
        ok := stringTables.Distinct();
      }
      Adopt(ok, ts);
    }

    method HandleUpdateStringTable(id: int, n: nat, data: seq<bool>) returns (ok: bool)
      requires Valid()
      modifies Repr
      ensures Usable() && fresh(Repr - old(Repr))
      ensures Is(ok, P.HandleUpdateTable(env, old(seen), id, n, data))
    {
      hide TableContext.Valid, TableContext.Sees, TableContext.Coherent, TableContext.TableObjects;
      hide EC.EntityContainer.Valid, EC.EntityContainer.View, EC.EntityContainer.Objects;
      hide ParseUpdate, BaselinesIndexable, BaselinesFit, BaselinesDistinct, Usable, Valid, Apart, EntityObjects;
      Opened();
      OpenedUsable();
      stringTables.SameCount(seen.tables);
      if !(0 <= id < |stringTables.tables|) { return false; }
      stringTables.Belongs(id);
      var br := new BitReader(data);
      ok := stringTables.HandleUpdateStringTable(id, env.unsnap, n, br, seen.tables);
      TablesMoved();
      ghost var spec := ParseUpdate(seen.tables[id], env.unsnap, n, data);
      ghost var ts := if spec.Ok? then seen.tables[id := spec.value] else [];
      ParseKeepsConfig(seen.tables[id], env.unsnap, n, data);
      if spec.Ok? { UpdateIndexable(seen.tables, id, spec.value, ClassCount(seen)); }
      if ok {
        stringTables.DistinctSeen(ts);
        ok := stringTables.Distinct();
      }
      Adopt(ok, ts);
    }

    /** The string tables of a full packet. */
    method HandleFullUpdate(snapshots: seq<Snapshot>) returns (ok: bool)
      requires Valid()
      modifies Repr
      ensures Usable() && fresh(Repr - old(Repr))
      ensures Is(ok, ApplySnapshots(old(seen), Some(snapshots)))
    {
      hide TableContext.Valid, TableContext.Sees, TableContext.Coherent, TableContext.TableObjects;
      hide EC.EntityContainer.Valid, EC.EntityContainer.View, EC.EntityContainer.Objects;
      hide FullUpdates, BaselinesIndexable, BaselinesFit, BaselinesDistinct, Usable, Valid, Apart, EntityObjects;
      Opened();
      OpenedUsable();
      forall k: nat | k < |stringTables.tables|
        ensures stringTables.tables[k] in stringTables.TableObjects()
      {
        stringTables.Belongs(k);
      }
      ok := stringTables.HandleFullUpdate(snapshots, seen.tables);
      TablesMoved();
      stringTables.DistinctSeen(FullUpdates(seen.tables, snapshots));
      IndexableParts(FullUpdates(seen.tables, snapshots), ClassCount(seen));
      ok := ok && stringTables.Distinct();
      Adopt(ok, FullUpdates(seen.tables, snapshots));
    }

    // ---- what the init messages fix

    method HandleServerInfo(tickInterval: Option<nat>)
      requires Valid()
      modifies this
      ensures Usable() && Valid() && Repr == old(Repr) && seen == P.HandleServerInfo(env, old(seen), tickInterval)
    {
      hide TableContext.Valid, TableContext.Sees, TableContext.Coherent, TableContext.TableObjects;
      hide EC.EntityContainer.Valid, EC.EntityContainer.View, EC.EntityContainer.Objects;
      if tickInterval.Some? {
        interval := tickInterval.value;
        fullPacketInterval := FULL_PACKET_INTERVAL * env.ratio(tickInterval.value);
      }
      seen := P.HandleServerInfo(env, seen, tickInterval);
    }

    method HandleSendTables(sent: Option<SerializerMap>) returns (ok: bool)
      requires Valid()
      modifies this
      ensures Usable() && Repr == old(Repr)
      ensures match P.HandleSendTables(old(seen), sent)
              case Some(o) => Is(ok, Some(o.ctx))
              case None => !ok
    {
      hide TableContext.Valid, TableContext.Sees, TableContext.Coherent, TableContext.TableObjects;
      hide EC.EntityContainer.Valid, EC.EntityContainer.View, EC.EntityContainer.Objects;
      if serializers.Some? { return true; }
      if sent.None? { return false; }
      serializers := sent;
      seen := seen.(serializers := sent);
      ok := true;
    }

    method HandleClassInfo(info: Classes) returns (ok: bool)
      requires Valid()
      modifies Repr
      ensures Usable() && Repr == old(Repr)
      ensures match P.HandleClassInfo(old(seen), info)
              case Some(o) => Is(ok, Some(o.ctx))
              case None => !ok
    {
      hide TableContext.Valid, TableContext.Sees, TableContext.Coherent, TableContext.TableObjects;
      hide EC.EntityContainer.Valid, EC.EntityContainer.View, EC.EntityContainer.Objects;
      hide BaselinesIndexable, BaselinesFit, BaselinesDistinct, NamedOnce;
      if classes.Some? { return true; }
      ok := stringTables.HandleClassInfo(|info.names|, seen.tables);
      stringTables.DistinctSeen(seen.tables);
      IndexableParts(seen.tables, Some(|info.names|));
      ok := ok && stringTables.Distinct();
      classes := Some(info);
      seen := seen.(classes := Some(info));
    }

    // ---- entities

    /** A change inside the entities leaves the rest alone. */
    twostate lemma EntitiesMoved(ts: seq<Table>)
      requires old(Usable()) && entities.Valid() && fresh(entities.Objects() - old(entities.Objects()))
      requires unchanged(this) && forall o | o in old(stringTables.Footprint()) :: unchanged(o)
      ensures Apart() && stringTables.TableObjects() == old(stringTables.TableObjects())
      ensures old(stringTables.Coherent()) ==> stringTables.Coherent()
      ensures old(stringTables.Sees(ts)) ==> stringTables.Sees(ts)
    {
      hide TableContext.Sees, TableContext.Coherent;
      hide EC.EntityContainer.Valid, EC.EntityContainer.View, EC.EntityContainer.Objects;
      assert unchanged(stringTables);
      forall k | 0 <= k < |stringTables.tables|
        ensures unchanged(stringTables.tables[k])
      {
        assert old(stringTables.tables[k].Valid());
        assert stringTables.tables[k] in old(stringTables.TableObjects());
      }
      assert stringTables.TableObjects() == old(stringTables.TableObjects());
    }

    /** The new entities become this context's, and the value follows them. */
    ghost method AdoptEntities()
      requires Apart() && this in Repr && stringTables in Repr && stringTables.baseline in Repr
      requires stringTables.TableObjects() <= Repr && entities in Repr && entities.scratch.fps in Repr
      modifies this`seen, this`Repr
      ensures Usable() && Repr == old(Repr) + entities.Objects() && seen == old(seen).(container := entities.View())
      ensures entities.View() == old(entities.View())
      ensures
        old(stringTables.Coherent() && stringTables.Sees(seen.tables)) &&
        old(BaselinesDistinct(seen.tables, ClassCount(seen))) ==>
          Valid()
    {
      hide TableContext.Valid, TableContext.Sees, TableContext.Coherent, TableContext.TableObjects;
      hide EC.EntityContainer.Valid, EC.EntityContainer.View, EC.EntityContainer.Objects;
      Repr := Repr + entities.Objects();
      seen := seen.(container := entities.View());
      forall k | 0 <= k < |stringTables.tables|
        ensures stringTables.tables[k] in Repr
      {
        stringTables.Belongs(k);
      }
    }

    /** One entry of a message about entities, against the index as it is. */
    method HandleEntity(index: int, delta: Delta, br: BitReader) returns (ok: bool, events: seq<EntityEvent>)
      requires Valid() && seen.classes.Some? && seen.serializers.Some? && br.Valid() && br !in Repr
      modifies Repr, br
      ensures Usable() && fresh(Repr - old(Repr)) && br.Valid()
      ensures match HandleDelta(SchemaOf(env, old(seen)), env.track, BaselinesIn(old(seen)), old(seen).interval,
                                old(seen).container, index, delta, old(br.unread))
              case Ok(s, rest) =>
                && ok && Valid() && seen == old(seen).(container := s.container)
                && s.index == index && events == s.events && br.unread == rest
              case Fail => !ok
    {
      hide TableContext.Valid, TableContext.Sees, TableContext.Coherent, TableContext.TableObjects;
      hide EC.EntityContainer.Valid, EC.EntityContainer.View, EC.EntityContainer.Objects;
      hide HandleDelta, CurrentBaselines, Usable, Valid, Apart, EntityObjects;
      Opened();
      OpenedUsable();
      IndexGives();
      entities.ScratchFits(SchemaOf(env, seen));
      var schema := Schema(env.tree, env.room, classes.value.bits, classes.value.names, serializers.value);
      ok, events := EC.HandleOne(entities, schema, env.track, stringTables.baseline, BaselinesIn(seen), interval,
                                 index, delta, br);
      EntitiesMoved(seen.tables);
      AdoptEntities();
    }

    lemma IndexGives()
      requires Valid() && classes.Some?
      ensures EC.Indexed(stringTables.baseline, BaselinesIn(seen))
    {
      forall c: int
        ensures stringTables.baseline.ById(c) == ById(BaselinesIn(seen), c)
      {
        LookupIsIndex(stringTables, seen.tables, |classes.value.names|, c);
      }
    }

    // ---- ticks and the start

    method SetTicks(newTick: int, newPrevTick: int)
      requires Valid()
      modifies this
      ensures Usable() && Valid() && Repr == old(Repr) && seen == old(seen).(tick := newTick, prevTick := newPrevTick)
    {
      hide TableContext.Valid, TableContext.Sees, TableContext.Coherent, TableContext.TableObjects;
      hide EC.EntityContainer.Valid, EC.EntityContainer.View, EC.EntityContainer.Objects;
      tick, prevTick := newTick, newPrevTick;
      seen := seen.(tick := newTick, prevTick := newPrevTick);
    }

    method Reset()
      requires Usable()
      modifies Repr
      ensures Usable() && Valid() && fresh(Repr - old(Repr)) && seen == ResetContext(old(seen))
    {
      hide TableContext.Valid, TableContext.Sees, TableContext.Coherent, TableContext.TableObjects;
      hide EC.EntityContainer.Valid, EC.EntityContainer.View, EC.EntityContainer.Objects;
      hide Usable, Valid, Apart, EntityObjects;
      OpenedUsable();
      entities.Clear();
      EntitiesMoved([]);
      AdoptEntities();
      OpenedUsable();
      label L:
      stringTables.Reset();
      TablesMoved@L();
      Adopt(true, []);
      SetTicks(-1, -1);
    }
  }
}
