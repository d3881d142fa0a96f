/** The baseline index shares the user data cells of the baseline table: looking a class up always
    gives the current user data of an item whose key is that class. */
module InstanceBaselines {
  import opened Prelude
  import opened BitReaders
  import opened StringTables
  import opened StringTableObjects

  /** Every key that is text is the number of one of `classes` classes. */
  predicate KeysInRange(items: map<int, ItemRef>, classes: nat)
  {
    forall i | i in items ::
      match ClassOf(items[i].key) case NoText => true case Class(c) => 0 <= c < classes case NotANumber => false
  }

  /** No two items name one class. */
  predicate NamedOnce(items: map<int, ItemRef>)
  {
    forall i, j | i in items && j in items && i != j && ClassOf(items[i].key).Class? ::
      ClassOf(items[i].key) != ClassOf(items[j].key)
  }

  /** For each class some item names, `data` holds the cell of such an item, and nothing else. */
  ghost predicate Indexes(data: seq<Option<Cell>>, items: map<int, ItemRef>)
  {
    && (forall c | Names(items, c) :: 0 <= c < |data| && Shares(items, c, data[c]))
    && (forall c | 0 <= c < |data| && data[c].Some? :: Names(items, c))
  }

  ghost predicate Shares(items: map<int, ItemRef>, c: int, cell: Option<Cell>)
  {
    exists i :: i in items && ClassOf(items[i].key) == Class(c) && items[i].cell == cell
  }

  ghost predicate Names(items: map<int, ItemRef>, c: int)
  {
    exists i :: i in items && ClassOf(items[i].key) == Class(c)
  }

  /** No item is gone or has another key. */
  ghost predicate KeysKept(before: map<int, ItemRef>, after: map<int, ItemRef>)
  {
    forall i | i in before :: i in after && after[i].key == before[i].key
  }

  lemma ItemSeen(t: StringTable, v: Table, i: int)
    requires t.Valid() && t.View() == v
    ensures i in t.items <==> i in v.items
    ensures i in t.items ==> v.items[i] == t.ItemAt(i) && v.items[i].key == t.items[i].key
  {
    assert v.items == t.Items();
  }

  lemma KeysSeen(t: StringTable, v: Table, n: nat)
    requires t.Valid() && t.View() == v
    ensures KeysInRange(t.items, n) <==> KeysFit(v.items, n)
    ensures NamedOnce(t.items) <==> KeysDistinct(v.items)
  {
    forall i: int
      ensures i in t.items <==> i in v.items
      ensures i in t.items ==> v.items[i].key == t.items[i].key
    {
      ItemSeen(t, v, i);
    }
  }

  lemma HasMember(s: set<int>)
    requires s != {}
    ensures exists i :: i in s
  {
    if forall i :: i !in s {
      assert false;
    }
  }

  class InstanceBaseline {
    var data: seq<Option<Cell>>

    constructor ()
      ensures data == []
    {
      data := [];
    }

    /** Visits the items in any order, so that any of the items naming a class may come last.  Fails on
        a key that is no number; aborts beyond the index. */
    method Update(table: StringTable, classes: nat) returns (ok: bool)
      modifies this
      ensures |data| == if old(|data|) < classes then classes else old(|data|)
      ensures ok <==> KeysInRange(table.items, |data|)
      ensures ok ==> forall c | Names(table.items, c) :: 0 <= c < |data| && Shares(table.items, c, data[c])
      ensures forall c | 0 <= c < |data| && !Names(table.items, c) ::
        data[c] == if c < old(|data|) then old(data)[c] else None
    {
      hide ClassOf;
      if |data| < classes {
        data := data + seq(classes - |data|, _ => None);
      }
      var todo: set<int> := table.items.Keys;
      ok := true;
      while todo != {}
        invariant todo <= table.items.Keys && |data| == if old(|data|) < classes then classes else old(|data|)
        invariant forall i | i in table.items && i !in todo ::
          match ClassOf(table.items[i].key)
          case NoText => true
          case Class(c) => 0 <= c < |data|
          case NotANumber => false
        invariant forall i | i in table.items && i !in todo && ClassOf(table.items[i].key).Class? ::
          Shares(table.items, ClassOf(table.items[i].key).id, data[ClassOf(table.items[i].key).id])
        invariant forall c | 0 <= c < |data| && !Names(table.items, c) ::
          data[c] == if c < old(|data|) then old(data)[c] else None
        decreases todo
      {
        HasMember(todo);
        var i :| i in todo;
        todo := todo - {i};
        var item := table.items[i];
        match ClassOf(item.key)
        case NoText =>
        case NotANumber => return false;
        case Class(c) =>
          if !(0 <= c < |data|) { return false; }
          assert Names(table.items, c);
          data := data[c := item.cell];
          assert Shares(table.items, c, data[c]);
      }
    }

    function ById(c: int): Bytes
      reads this, if 0 <= c < |data| && data[c].Some? then {data[c].value} else {}
    {
      if 0 <= c < |data| && data[c].Some? then data[c].value.data else []
    }

    ghost function Cells(): set<Cell>
      reads this
    {
      set c | 0 <= c < |data| && data[c].Some? :: data[c].value
    }

    method Clear()
      modifies this
      ensures data == []
    {
      data := [];
    }
  }

  /** The tables, the index and, once known, the number of classes. */
  class TableContext {
    var tables: seq<StringTable>
    const baseline: InstanceBaseline
    var classes: Option<nat>

    ghost predicate Valid()
      reads this, tables, TableObjects()
    {
      && (forall k | 0 <= k < |tables| :: tables[k].Valid() && baseline !in tables[k].Repr && this !in tables[k].Repr)
      && (forall j, k | 0 <= j < k < |tables| :: tables[j].Repr !! tables[k].Repr)
      && (forall j, k | 0 <= j < k < |tables| :: tables[j].cfg.name != tables[k].cfg.name)
    }

    /** What the tables hold, as values. */
    ghost predicate Sees(ts: seq<Table>)
      requires Valid()
      reads this, tables, TableObjects()
    {
      |ts| == |tables| && forall k | 0 <= k < |tables| :: tables[k].View() == ts[k]
    }

    ghost predicate IsBaseline(k: nat)
      reads this
    {
      k < |tables| && tables[k].cfg.name == BASELINE_TABLE
    }

    /** Once the classes are known, the index is that of the baseline table, whose keys are in range,
        or empty without one. */
    ghost predicate Coherent()
      reads this, baseline, tables
    {
      if classes.None? then baseline.data == []
      else
        && |baseline.data| <= classes.value
        && (forall k: nat | IsBaseline(k) ::
              Indexes(baseline.data, tables[k].items) && KeysInRange(tables[k].items, classes.value))
        && ((forall k: nat :: !IsBaseline(k)) ==> forall c | 0 <= c < |baseline.data| :: baseline.data[c] == None)
    }

    /** All objects the tables and the index consist of. */
    ghost function Footprint(): set<object>
      reads this, tables
    {
      {this, baseline} + TableObjects()
    }

    ghost function TableObjects(): set<object>
      reads this`tables, tables
    {
      set k, o | 0 <= k < |tables| && o in tables[k].Repr :: o
    }

    lemma SameCount(ts: seq<Table>)
      requires Valid() && Sees(ts)
      ensures |ts| == |tables|
    {
    }

    lemma Belongs(k: nat)
      requires Valid() && k < |tables|
      ensures tables[k] in TableObjects() && tables[k].Repr <= TableObjects()
    {
      assert tables[k] in tables[k].Repr;
    }

    /** Every object of the tables is one they had before or a new one. */
    twostate predicate OnlyNewObjects()
      reads this, tables
    {
      forall o | o in TableObjects() :: o in old(TableObjects()) || fresh(o)
    }

    constructor ()
      ensures Valid() && Coherent() && classes == None && tables == [] && fresh(baseline)
      ensures Sees([]) && TableObjects() == {}
    {
      tables := [];
      baseline := new InstanceBaseline();
      classes := None;
    }

    /** Looking up a class gives the current user data of an item that names it. */
    lemma ByIdIsItemData(k: nat, c: int) returns (i: int)
      requires Coherent() && classes.Some? && IsBaseline(k) && Names(tables[k].items, c)
      ensures i in tables[k].items && ClassOf(tables[k].items[i].key) == Class(c)
      ensures baseline.ById(c) ==
        (if tables[k].ItemAt(i).data.Some? then tables[k].ItemAt(i).data.value else [])
    {
      var items := tables[k].items;
      assert Shares(items, c, baseline.data[c]);
      i :| i in items && ClassOf(items[i].key) == Class(c) && items[i].cell == baseline.data[c];
    }

    /** A class that no item names has no baseline. */
    lemma ByIdIsEmpty(c: int)
      requires Coherent() && classes.Some?
      requires forall k: nat | IsBaseline(k) :: !Names(tables[k].items, c)
      ensures baseline.ById(c) == []
    {
    }

    /** The baseline table as the values see it. */
    lemma KeysSeenAt(k: nat, ts: seq<Table>)
      requires Valid() && Sees(ts) && IsBaseline(k) && classes.Some?
      ensures KeysInRange(tables[k].items, classes.value) <==> BaselinesFit(ts, classes)
      ensures NamedOnce(tables[k].items) <==> BaselinesDistinct(ts, classes)
    {
      hide KeysInRange, NamedOnce, KeysFit, KeysDistinct, StringTable.Valid, StringTable.View;
      FindsTable(ts, BASELINE_TABLE, Some(k));
      KeysSeen(tables[k], ts[k], classes.value);
    }

    /** After a change to the baseline table that keeps its keys, updating makes the index coherent. */
    method Refresh(k: nat, ghost before: map<int, ItemRef>, ghost ts: seq<Table>) returns (ok: bool)
      requires Valid() && Sees(ts) && IsBaseline(k) && classes.Some?
      requires |baseline.data| <= classes.value && Indexes(baseline.data, before)
      requires KeysKept(before, tables[k].items)
      modifies baseline
      ensures Valid() && Sees(ts)
      ensures ok <==> BaselinesFit(ts, classes)
      ensures ok ==> Coherent()
    {
      hide StringTable.Valid, StringTable.View, BaselinesFit;
      KeysSeenAt(k, ts);
      ok := baseline.Update(tables[k], classes.value);
      ghost var items := tables[k].items;
      assert IsBaseline(k);
      forall c | 0 <= c < |old(baseline.data)| && old(baseline.data)[c].Some?
        ensures Names(items, c)
      {
        assert Names(before, c);
        var i :| i in before && ClassOf(before[i].key) == Class(c);
        assert i in items && ClassOf(items[i].key) == Class(c);
      }
      assert forall j: nat | IsBaseline(j) :: j == k;
    }

    method Find(name: string) returns (r: Option<nat>)
      ensures match r
              case Some(k) => k < |tables| && tables[k].cfg.name == name
              case None => forall k | 0 <= k < |tables| :: tables[k].cfg.name != name
    {
      for k := 0 to |tables|
        invariant forall j | 0 <= j < k :: tables[j].cfg.name != name
      {
        if tables[k].cfg.name == name { return Some(k); }
      }
      r := None;
    }

    /** Once the classes are known, each is named once in the baseline table. */
    predicate Distinct()
      reads this, tables
    {
      classes.Some? ==>
        forall k | 0 <= k < |tables| && tables[k].cfg.name == BASELINE_TABLE :: NamedOnce(tables[k].items)
    }

    lemma DistinctSeen(ts: seq<Table>)
      requires Valid() && Sees(ts)
      ensures Distinct() <==> BaselinesDistinct(ts, classes)
    {
      hide StringTable.Valid, NamedOnce, KeysDistinct;
      var found := FindTable(ts, BASELINE_TABLE);
      assert forall k | 0 <= k < |tables| :: tables[k].View() == ts[k] && tables[k].cfg == ts[k].cfg;
      match found
      case Some(k) =>
        assert forall j | 0 <= j < |tables| && tables[j].cfg.name == BASELINE_TABLE :: j == k;
        if classes.Some? { KeysSeenAt(k, ts); }
      case None =>
    }

    method HandleClassInfo(count: nat, ghost ts: seq<Table>) returns (ok: bool)
      requires Valid() && Coherent() && Sees(ts)
      modifies this`classes, baseline
      ensures Valid() && Sees(ts) && tables == old(tables)
          && classes == (if old(classes).Some? then old(classes) else Some(count))
      ensures ok <==> old(classes).Some? || BaselinesFit(ts, Some(count))
      ensures ok ==> Coherent()
    {
      hide StringTable.Valid, StringTable.View, KeysInRange;
      if classes.Some? { return true; }
      classes := Some(count);
      var found := Find(BASELINE_TABLE);
      FindsTable(ts, BASELINE_TABLE, found);
      ok := true;
      if found.Some? {
        ok := Refresh(found.value, map[], ts);
      }
    }

    static lemma IsNew(table: StringTable)
      requires table.Valid() && table.items == map[] && table.Buffers() == Blank()
      ensures table.View() == NewTable(table.cfg)
    {
    }

    /** A new table, filled. */
    static method ParsedTable(cfg: Config, unsnap: Unsnap, numEntries: nat, br: BitReader)
      returns (table: StringTable, ok: bool)
      modifies br
      ensures table.Valid() && fresh(table.Repr) && table.cfg == cfg
      ensures match ParseUpdate(NewTable(cfg), unsnap, numEntries, old(br.unread))
              case Ok(t, rest) => ok && table.View() == t && br.unread == rest
              case Fail => !ok
    {
      hide ParseUpdate;
      table := new StringTable(cfg);
      IsNew(table);
      ok := table.ParseUpdate(unsnap, numEntries, br);
    }

    method HandleCreateStringTable(cfg: Config, unsnap: Unsnap, numEntries: nat, br: BitReader, ghost ts: seq<Table>)
      returns (ok: bool)
      requires Valid() && Coherent() && Sees(ts)
      requires forall k | 0 <= k < |tables| :: tables[k].cfg.name != cfg.name
      requires forall k | 0 <= k < |tables| :: br !in tables[k].Repr
      modifies this`tables, baseline, br
      ensures Valid() && classes == old(classes) && OnlyNewObjects()
      ensures match ParseUpdate(NewTable(cfg), unsnap, numEntries, old(br.unread))
              case Ok(t, rest) =>
                && Sees(ts + [t]) && br.unread == rest
                && (ok <==> cfg.name == BASELINE_TABLE ==> BaselinesFit(ts + [t], classes))
              case Fail => !ok
      ensures ok ==> Coherent()
    {
      hide ParseUpdate, Indexes, KeysInRange, BaselinesFit, TableObjects, Coherent;
      hide StringTable.View, StringTable.Valid;
      var table;
      table, ok := ParsedTable(cfg, unsnap, numEntries, br);
      Append(table, ts);
      if ok {
        ok := FollowUpdate(|tables| - 1, map[], ts + [table.View()]);
      }
    }

    twostate lemma AppendedValid(table: StringTable)
      requires old(Valid()) && table.Valid() && baseline !in table.Repr && this !in table.Repr
      requires forall k | 0 <= k < |tables| - 1 :: tables[k].Repr !! table.Repr && tables[k].cfg.name != table.cfg.name
      requires tables == old(tables) + [table]
      requires forall k | 0 <= k < |old(tables)| :: unchanged(old(tables)[k]) && unchanged(old(tables)[k].Repr)
      ensures Valid()
    {
      assert forall k | 0 <= k < |old(tables)| :: tables[k] == old(tables)[k] && tables[k].Valid();
    }

    twostate lemma AppendedCoherent(table: StringTable)
      requires old(Coherent()) && tables == old(tables) + [table] && classes == old(classes)
      requires baseline.data == old(baseline.data)
      requires forall k | 0 <= k < |old(tables)| ::
        unchanged(old(tables)[k]) && old(tables)[k].cfg.name != table.cfg.name
      ensures table.cfg.name != BASELINE_TABLE || classes.None? ==> Coherent()
      ensures table.cfg.name == BASELINE_TABLE && classes.Some? ==>
        |baseline.data| <= classes.value && Indexes(baseline.data, map[])
    {
      assert forall k | 0 <= k < |old(tables)| :: tables[k] == old(tables)[k];
      assert forall k: nat :: old(IsBaseline(k)) ==> IsBaseline(k);
    }

    twostate lemma AppendedObjects(table: StringTable)
      requires tables == old(tables) + [table]
      requires forall k | 0 <= k < |old(tables)| :: unchanged(old(tables)[k])
      ensures TableObjects() == old(TableObjects()) + table.Repr
    {
      assert tables[|tables| - 1] == table;
      assert forall k | 0 <= k < |old(tables)| :: tables[k] == old(tables)[k] && tables[k].Repr == old(tables[k].Repr);
      forall o
        ensures o in TableObjects() <==> o in old(TableObjects()) + table.Repr
      {
      }
    }

    method Append(table: StringTable, ghost ts: seq<Table>)
      requires Valid() && Coherent() && Sees(ts) && table.Valid()
      requires baseline !in table.Repr && this !in table.Repr
      requires forall k | 0 <= k < |tables| :: tables[k].Repr !! table.Repr && tables[k].cfg.name != table.cfg.name
      modifies this`tables
      ensures Valid() && tables == old(tables) + [table] && Sees(ts + [table.View()])
      ensures table.cfg.name != BASELINE_TABLE || classes.None? ==> Coherent()
      ensures table.cfg.name == BASELINE_TABLE && classes.Some? ==>
        |baseline.data| <= classes.value && Indexes(baseline.data, map[])
      ensures TableObjects() == old(TableObjects()) + table.Repr
    {
      hide Coherent, Indexes, StringTable.Valid, StringTable.View, TableObjects;
      tables := tables + [table];
      AppendedValid(table);
      AppendedCoherent(table);
      AppendedObjects(table);
    }

    /** What a change inside the footprint of one table leaves alone. */
    twostate lemma OthersKept(id: nat)
      requires id < |tables| && old(Valid()) && tables == old(tables)
      requires tables[id].Valid() && fresh(tables[id].Repr - old(tables[id].Repr))
      requires forall k, o | 0 <= k < |tables| && k != id && o in old(tables[k].Repr) :: unchanged(o)
      ensures Valid()
      ensures forall k | 0 <= k < |tables| && k != id ::
        tables[k].items == old(tables[k].items) && tables[k].View() == old(tables[k].View())
      ensures OnlyNewObjects()
    {
      assert forall k | 0 <= k < |tables| && k != id :: tables[k].Repr == old(tables[k].Repr);
    }

    /** Only table `id` changes: in place, cells included. */
    method UpdateTable(id: nat, unsnap: Unsnap, numEntries: nat, br: BitReader, ghost ts: seq<Table>) returns (ok: bool)
      requires Valid() && Sees(ts) && id < |tables|
      requires forall k | 0 <= k < |tables| :: br !in tables[k].Repr
      modifies br, tables[id].Repr
      ensures Valid() && KeysKept(old(tables[id].items), tables[id].items)
      ensures OnlyNewObjects()
      ensures forall k | 0 <= k < |tables| && k != id ::
        tables[k].items == old(tables[k].items)
      ensures match ParseUpdate(ts[id], unsnap, numEntries, old(br.unread))
              case Ok(t, rest) => ok && Sees(ts[id := t]) && br.unread == rest
              case Fail => !ok
    {
      hide ParseUpdate;
      ok := tables[id].ParseUpdate(unsnap, numEntries, br);
      OthersKept(id);
    }

    twostate lemma StaysCoherent()
      requires old(Coherent()) && tables == old(tables) && classes == old(classes)
          && baseline.data == old(baseline.data)
      requires classes.Some? ==> forall k: nat | IsBaseline(k) :: tables[k].items == old(tables[k].items)
      ensures Coherent()
    {
      assert forall k: nat :: IsBaseline(k) == old(IsBaseline(k));
    }

    method HandleUpdateStringTable(id: nat, unsnap: Unsnap, numEntries: nat, br: BitReader, ghost ts: seq<Table>)
      returns (ok: bool)
      requires Valid() && Coherent() && Sees(ts)
      requires forall k | 0 <= k < |tables| :: br !in tables[k].Repr
      modifies baseline, br, if id < |tables| then tables[id].Repr else {}
      ensures Valid() && classes == old(classes) && tables == old(tables) && OnlyNewObjects()
      ensures id >= |tables| ==> !ok
      ensures id < |tables| ==>
        match ParseUpdate(ts[id], unsnap, numEntries, old(br.unread))
        case Ok(t, rest) =>
          && Sees(ts[id := t]) && br.unread == rest
          && (ok <==> ts[id].cfg.name == BASELINE_TABLE ==> BaselinesFit(ts[id := t], classes))
        case Fail => !ok
      ensures ok ==> Coherent()
    {
      hide ParseUpdate, Indexes, KeysInRange, BaselinesFit;
      if id >= |tables| { return false; }
      ok := UpdateTable(id, unsnap, numEntries, br, ts);
      if !ok { return; }
      ghost var t := ParseUpdate(ts[id], unsnap, numEntries, old(br.unread)).value;
      if !(tables[id].cfg.name == BASELINE_TABLE && classes.Some?) {
        assert classes.Some? ==> forall k: nat | IsBaseline(k) :: k != id;
        StaysCoherent();
      }
      ok := FollowUpdate(id, old(tables[id].items), ts[id := t]);
    }

    /** After a change to table `id` only: the index follows if it is the baseline table. */
    method FollowUpdate(id: nat, ghost before: map<int, ItemRef>, ghost ts: seq<Table>) returns (ok: bool)
      requires Valid() && Sees(ts) && id < |tables|
      requires IsBaseline(id) && classes.Some? ==> |baseline.data| <= classes.value && Indexes(baseline.data, before)
      requires KeysKept(before, tables[id].items)
      requires !(IsBaseline(id) && classes.Some?) ==> Coherent()
      modifies baseline
      ensures Valid() && Sees(ts)
      ensures ok <==> IsBaseline(id) ==> BaselinesFit(ts, classes)
      ensures ok ==> Coherent()
    {
      hide KeysInRange, Indexes, StringTable.Valid, StringTable.View, KeysFit;
      ok := true;
      if tables[id].cfg.name == BASELINE_TABLE && classes.Some? {
        ok := Refresh(id, before, ts);
      }
    }

    method FullUpdateTable(id: nat, items: seq<Item>, ghost ts: seq<Table>)
      requires Valid() && Sees(ts) && id < |tables|
      modifies tables[id]
      ensures Valid() && OnlyNewObjects()
      ensures Sees(ts[id := ts[id].(items := FullUpdateFrom(ts[id].items, items, 0))])
      ensures forall k: nat | k < |tables| :: KeysKept(old(tables[k].items), tables[k].items)
    {
      hide FullUpdateFrom;
      tables[id].DoFullUpdate(items);
      OthersKept(id);
    }

    /** The incoming table updates the table of its name, if there is one. */
    method FullUpdateOne(snapshot: Snapshot, ghost ts: seq<Table>)
      requires Valid() && Sees(ts)
      modifies tables
      ensures Valid() && Sees(StringTables.FullUpdateOne(ts, snapshot)) && OnlyNewObjects()
      ensures forall k: nat | k < |tables| :: KeysKept(old(tables[k].items), tables[k].items)
    {
      hide FullUpdateFrom, FindTable, TableObjects, StringTable.Valid, StringTable.Items;
      var found := Find(snapshot.name);
      FindsTable(ts, snapshot.name, found);
      if found.Some? {
        FullUpdateTable(found.value, snapshot.items, ts);
      } else {
        assert TableObjects() == old(TableObjects());
      }
    }

    lemma FindsTable(ts: seq<Table>, name: string, found: Option<nat>)
      requires Valid() && Sees(ts)
      requires found.Some? ==> found.value < |tables| && tables[found.value].cfg.name == name
      requires found.None? ==> forall k | 0 <= k < |tables| :: tables[k].cfg.name != name
      ensures FindTable(ts, name) == found
    {
      assert forall k | 0 <= k < |tables| :: ts[k] == tables[k].View() && ts[k].cfg == tables[k].cfg;
    }

    method FullUpdateAll(snapshots: seq<Snapshot>, ghost ts: seq<Table>)
      requires Valid() && Sees(ts)
      modifies tables
      ensures Valid() && Sees(FullUpdates(ts, snapshots)) && OnlyNewObjects()
      ensures forall k: nat | k < |tables| :: KeysKept(old(tables[k].items), tables[k].items)
    {
      hide StringTables.FullUpdateOne, Valid, Sees, TableObjects;
      ghost var now := ts;
      for n := 0 to |snapshots|
        invariant Valid() && Sees(now) && OnlyNewObjects()
        invariant FullUpdates(now, snapshots[n..]) == FullUpdates(ts, snapshots)
        invariant forall k: nat | k < |tables| :: KeysKept(old(tables[k].items), tables[k].items)
      {
        assert snapshots[n..][0] == snapshots[n] && snapshots[n..][1..] == snapshots[n + 1..];
        label L:
        FullUpdateOne(snapshots[n], now);
        forall k: nat | k < |tables|
          ensures KeysKept(old(tables[k].items), tables[k].items)
        {
          assert KeysKept(old(tables[k].items), old@L(tables[k].items));
        }
        now := StringTables.FullUpdateOne(now, snapshots[n]);
      }
    }

    /** Then the index follows the new cells.  Without known classes the whole parse fails. */
    method HandleFullUpdate(snapshots: seq<Snapshot>, ghost ts: seq<Table>) returns (ok: bool)
      requires Valid() && Coherent() && Sees(ts)
      modifies baseline, tables
      ensures Valid() && classes == old(classes) && tables == old(tables)
      ensures OnlyNewObjects()
      ensures Sees(FullUpdates(ts, snapshots))
      ensures ok <==> classes.Some? && BaselinesFit(FullUpdates(ts, snapshots), classes)
      ensures ok ==> Coherent()
    {
      hide FullUpdates, Valid, Sees, Indexes, KeysInRange, KeysFit;
      FullUpdateAll(snapshots, ts);
      if classes.None? { return false; }
      var found := Find(BASELINE_TABLE);
      FindsTable(FullUpdates(ts, snapshots), BASELINE_TABLE, found);
      ok := true;
      if found.Some? {
        var k := found.value;
        assert IsBaseline(k) && old(IsBaseline(k)) && KeysKept(old(tables[k].items), tables[k].items);
        ok := Refresh(k, old(tables[k].items), FullUpdates(ts, snapshots));
      } else {
        assert forall k: nat :: IsBaseline(k) == old(IsBaseline(k));
      }
    }

    method Reset()
      requires Valid()
      modifies this`tables, baseline
      ensures Valid() && Coherent() && tables == [] && classes == old(classes) && Sees([]) && TableObjects() == {}
    {
      tables := [];
      baseline.Clear();
    }
  }
}
