/** What a full packet restores.  `a` is the context of a run that handled everything, `b` one that
    skipped ahead: behind `a` before the full packet, in step with it from there on. */
module Snapshots {
  import opened Bits
  import opened StringTables
  import StringTableCodec
  import opened Player

  // ---- relations between tables

  ghost predicate UniqueNames(ts: seq<Table>)
  {
    forall i, j | 0 <= i < j < |ts| :: ts[i].cfg.name != ts[j].cfg.name
  }

  ghost predicate SameConfigs(ts: seq<Table>, us: seq<Table>)
  {
    |ts| == |us| && forall k | 0 <= k < |ts| :: ts[k].cfg == us[k].cfg
  }

  /** Equal but for the buffers left over from earlier updates. */
  ghost predicate SameItems(ts: seq<Table>, us: seq<Table>)
  {
    SameConfigs(ts, us) && forall k | 0 <= k < |ts| :: ts[k].items == us[k].items
  }

  ghost predicate ItemsBelow(u: Items, t: Items)
  {
    forall i | i in u :: i in t && t[i].key == u[i].key
  }

  /** Every item of `us` is one of `ts` with the same key. */
  ghost predicate TablesBelow(us: seq<Table>, ts: seq<Table>)
  {
    SameConfigs(ts, us) && forall k | 0 <= k < |ts| :: ItemsBelow(us[k].items, ts[k].items)
  }

  lemma FindSame(ts: seq<Table>, us: seq<Table>, name: string)
    requires SameConfigs(ts, us)
    ensures FindTable(ts, name) == FindTable(us, name)
  {
  }

  lemma SameItemsSame(ts: seq<Table>, us: seq<Table>, classes: nat)
    requires SameItems(ts, us)
    ensures ViewsOf(ts) == ViewsOf(us) && CurrentBaselines(ts, classes) == CurrentBaselines(us, classes)
  {
    FindSame(ts, us, BASELINE_TABLE);
  }

  lemma IndexableBelow(a: Context, b: Context)
    requires TablesBelow(b.tables, a.tables) && b.classes == a.classes && Indexable(a)
    ensures Indexable(b)
  {
    FindSame(a.tables, b.tables, BASELINE_TABLE);
  }

  lemma SameItemsBelow(ts: seq<Table>, us: seq<Table>)
    requires SameItems(ts, us)
    ensures TablesBelow(us, ts)
  {
  }

  // ---- full updates, table by table

  /** The items of the table `name` after the snapshots. */
  function TableAfter(items: Items, name: string, ss: seq<Snapshot>): Items
    decreases |ss|
  {
    if ss == [] then items
    else TableAfter(if ss[0].name == name then FullUpdateFrom(items, ss[0].items, 0) else items, name, ss[1..])
  }

  lemma {:induction false} FullUpdatesAt(ts: seq<Table>, ss: seq<Snapshot>, k: nat)
    requires UniqueNames(ts) && k < |ts|
    ensures FullUpdates(ts, ss)[k] == ts[k].(items := TableAfter(ts[k].items, ts[k].cfg.name, ss))
    decreases |ss|
  {
    hide FullUpdateFrom;
    if ss != [] {
      FullUpdatesAt(FullUpdateOne(ts, ss[0]), ss[1..], k);
    }
  }

  lemma FullUpdatesConfigs(ts: seq<Table>, ss: seq<Snapshot>)
    requires UniqueNames(ts)
    ensures SameConfigs(FullUpdates(ts, ss), ts) && UniqueNames(FullUpdates(ts, ss))
  {
    forall k | 0 <= k < |ts|
      ensures FullUpdates(ts, ss)[k].cfg == ts[k].cfg
    {
      FullUpdatesAt(ts, ss, k);
    }
  }

  /** The incoming items restate the ones there are. */
  ghost predicate Covers(items: Items, incoming: seq<Item>)
  {
    forall i | i in items :: 0 <= i < |incoming| && incoming[i].key == items[i].key
  }

  ghost predicate Mentions(ss: seq<Snapshot>, name: string)
  {
    exists j :: 0 <= j < |ss| && ss[j].name == name
  }

  /** The snapshots name every table and restate every item under its key. */
  ghost predicate Restates(ts: seq<Table>, ss: seq<Snapshot>)
  {
    && (forall k | 0 <= k < |ts| :: Mentions(ss, ts[k].cfg.name))
    && (forall k, j | 0 <= k < |ts| && 0 <= j < |ss| && ss[j].name == ts[k].cfg.name ::
        Covers(ts[k].items, ss[j].items))
  }

  lemma CoveredUpdate(t: Items, u: Items, incoming: seq<Item>)
    requires ItemsBelow(u, t) && Covers(t, incoming)
    ensures FullUpdateFrom(t, incoming, 0) == FullUpdateFrom(u, incoming, 0)
  {
    hide FullUpdateFrom;
    FullUpdateItems(t, incoming, 0);
    FullUpdateItems(u, incoming, 0);
    var x, y := FullUpdateFrom(t, incoming, 0), FullUpdateFrom(u, incoming, 0);
    assert forall i :: i in x.Keys <==> i in y.Keys;
    assert forall i | i in x :: x[i] == y[i];
  }

  lemma {:induction false} TableAfterAgrees(t: Items, u: Items, name: string, ss: seq<Snapshot>)
    requires ItemsBelow(u, t) && Mentions(ss, name)
    requires forall j | 0 <= j < |ss| && ss[j].name == name :: Covers(t, ss[j].items)
    ensures TableAfter(t, name, ss) == TableAfter(u, name, ss)
    decreases |ss|
  {
    hide FullUpdateFrom, ItemsBelow, Covers;
    if ss[0].name == name {
      CoveredUpdate(t, u, ss[0].items);
    } else {
      var j :| 0 <= j < |ss| && ss[j].name == name;
      assert ss[1..][j - 1].name == name;
      assert forall i | 0 <= i < |ss[1..]| :: ss[1..][i] == ss[i + 1];
      TableAfterAgrees(t, u, name, ss[1..]);
    }
  }

  /** After restating snapshots it no longer matters what was there before. */
  lemma {:induction false} SnapshotsAgree(ts: seq<Table>, us: seq<Table>, ss: seq<Snapshot>)
    requires TablesBelow(us, ts) && UniqueNames(ts) && Restates(ts, ss)
    ensures SameItems(FullUpdates(ts, ss), FullUpdates(us, ss))
  {
    forall k | 0 <= k < |ts|
      ensures FullUpdates(ts, ss)[k].cfg == FullUpdates(us, ss)[k].cfg
          && FullUpdates(ts, ss)[k].items == FullUpdates(us, ss)[k].items
    {
      FullUpdatesAt(ts, ss, k);
      FullUpdatesAt(us, ss, k);
      TableAfterAgrees(ts[k].items, us[k].items, ts[k].cfg.name, ss);
    }
  }

  lemma SnapshotsKeepSame(ts: seq<Table>, us: seq<Table>, ss: seq<Snapshot>)
    requires SameItems(ts, us) && UniqueNames(ts)
    ensures SameItems(FullUpdates(ts, ss), FullUpdates(us, ss))
  {
    forall k | 0 <= k < |ts|
      ensures FullUpdates(ts, ss)[k].cfg == FullUpdates(us, ss)[k].cfg
          && FullUpdates(ts, ss)[k].items == FullUpdates(us, ss)[k].items
    {
      FullUpdatesAt(ts, ss, k);
      FullUpdatesAt(us, ss, k);
    }
  }

  lemma {:induction false} TableAfterGrows(items: Items, name: string, ss: seq<Snapshot>)
    ensures ItemsBelow(items, TableAfter(items, name, ss))
    decreases |ss|
  {
    hide FullUpdateFrom;
    if ss != [] {
      FullUpdateItems(items, ss[0].items, 0);
      TableAfterGrows(if ss[0].name == name then FullUpdateFrom(items, ss[0].items, 0) else items, name, ss[1..]);
    }
  }

  lemma SnapshotsGrow(ts: seq<Table>, ss: seq<Snapshot>)
    requires UniqueNames(ts)
    ensures TablesBelow(ts, FullUpdates(ts, ss))
  {
    forall k | 0 <= k < |ts|
      ensures FullUpdates(ts, ss)[k].cfg == ts[k].cfg && ItemsBelow(ts[k].items, FullUpdates(ts, ss)[k].items)
    {
      FullUpdatesAt(ts, ss, k);
      TableAfterGrows(ts[k].items, ts[k].cfg.name, ss);
    }
  }

  // ---- self-contained updates

  function EntriesOnly(r: Read<Update>): Read<seq<Entry>>
  {
    match r
    case Ok(u, rest) => Ok(u.entries, rest)
    case Fail => Fail
  }

  /** What the update says does not depend on what earlier updates left in the buffers. */
  ghost predicate SelfContained(cfg: Config, unsnap: Unsnap, n: nat, b: BitString)
  {
    forall m: SizedBuffers, m': SizedBuffers ::
      EntriesOnly(ReadEntries(n, cfg, unsnap, -1, 0, m, b)) == EntriesOnly(ReadEntries(n, cfg, unsnap, -1, 0, m', b))
  }

  /** An update is self-contained when its keys refer only to history entries of the same update. */
  lemma {:induction false} EncodedSelfContained(cfg: Config, unsnap: Unsnap, ps: seq<StringTableCodec.Plan>)
    requires StringTableCodec.ValidPlans(cfg, unsnap, [], ps)
    ensures SelfContained(cfg, unsnap, |ps|, StringTableCodec.EncPlans(cfg, -1, ps))
  {
    hide ReadEntries, StringTableCodec.EncPlans;
    var b := StringTableCodec.EncPlans(cfg, -1, ps);
    forall m: SizedBuffers
      ensures EntriesOnly(ReadEntries(|ps|, cfg, unsnap, -1, 0, m, b)) == Ok(StringTableCodec.EntriesOf(ps), [])
    {
      assert b + [] == b;
      StringTableCodec.EntriesRoundTrip(cfg, unsnap, -1, [], m, ps, []);
    }
  }

  lemma SelfContainedSame(t: Table, u: Table, unsnap: Unsnap, n: nat, b: BitString)
    requires t.cfg == u.cfg && t.items == u.items && SelfContained(t.cfg, unsnap, n, b)
    ensures var rt, ru := ParseUpdate(t, unsnap, n, b), ParseUpdate(u, unsnap, n, b);
      rt.Ok? == ru.Ok? && (rt.Ok? ==> rt.value.cfg == ru.value.cfg == t.cfg && rt.value.items == ru.value.items)
  {
  }

  lemma UpdateGrows(t: Table, unsnap: Unsnap, n: nat, b: BitString)
    requires ParseUpdate(t, unsnap, n, b).Ok?
    ensures var r := ParseUpdate(t, unsnap, n, b).value; r.cfg == t.cfg && ItemsBelow(t.items, r.items)
  {
    hide ReadEntries, ApplyEntries;
    var es := ReadEntries(n, t.cfg, unsnap, -1, 0, t.buffers, b).value.entries;
    forall i | i in t.items
      ensures i in ApplyEntries(t.items, es) && ApplyEntries(t.items, es)[i].key == t.items[i].key
    {
      StringTableCodec.ApplyEntriesAt(t.items, es, i);
    }
  }
}
