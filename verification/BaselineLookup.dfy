/** The player's lookup of baselines in the current tables is what the shared index gives. */
module BaselineLookup {
  import opened Prelude
  import Entities
  import opened StringTables
  import opened StringTableObjects
  import opened InstanceBaselines

  /** The item that names a class, for keys that name each class once. */
  lemma BaselineOfItem(items: Items, n: nat, c: int, i: int)
    requires KeysOk(items, n) && Claims(items, c, i)
    ensures BaselineOf(items, c) == items[i].data
  {
    var claims := set j | j in items && Claims(items, c, j);
    assert claims == {i};
  }

  lemma SlotIsBaseline(baseline: InstanceBaseline, t: StringTable, v: Table, n: nat, c: int)
    requires t.Valid() && t.View() == v && Indexes(baseline.data, t.items) && KeysOk(v.items, n)
    ensures baseline.ById(c) ==
      if 0 <= c < n && BaselineOf(v.items, c).Some? then BaselineOf(v.items, c).value else []
  {
    KeysSeen(t, v, n);
    if Names(t.items, c) {
      assert Shares(t.items, c, baseline.data[c]);
      var i :| i in t.items && ClassOf(t.items[i].key) == Class(c) && t.items[i].cell == baseline.data[c];
      ItemSeen(t, v, i);
      BaselineOfItem(v.items, n, c, i);
    } else {
      if i :| i in v.items && Claims(v.items, c, i) {
        ItemSeen(t, v, i);
        assert false;
      }
      assert (set j | j in v.items && Claims(v.items, c, j)) == {};
    }
  }

  lemma IndexableParts(ts: seq<Table>, classes: Option<nat>)
    ensures BaselinesIndexable(ts, classes) <==> BaselinesFit(ts, classes) && BaselinesDistinct(ts, classes)
  {
  }

  /** A new or changed table of another name does not matter. */
  lemma AppendIndexable(ts: seq<Table>, t: Table, classes: Option<nat>)
    requires BaselinesDistinct(ts, classes)
    ensures (t.cfg.name == BASELINE_TABLE ==> BaselinesIndexable(ts + [t], classes)) <==>
            (t.cfg.name == BASELINE_TABLE ==> BaselinesFit(ts + [t], classes)) && BaselinesDistinct(ts + [t], classes)
  {
    IndexableParts(ts + [t], classes);
    assert forall k | 0 <= k < |ts| :: (ts + [t])[k] == ts[k];
  }

  lemma UpdateIndexable(ts: seq<Table>, id: nat, t: Table, classes: Option<nat>)
    requires BaselinesDistinct(ts, classes) && id < |ts| && t.cfg == ts[id].cfg
    ensures (t.cfg.name == BASELINE_TABLE ==> BaselinesIndexable(ts[id := t], classes)) <==>
            (t.cfg.name == BASELINE_TABLE ==> BaselinesFit(ts[id := t], classes))
            && BaselinesDistinct(ts[id := t], classes)
  {
    IndexableParts(ts[id := t], classes);
    assert forall k | 0 <= k < |ts| && k != id :: ts[id := t][k] == ts[k];
  }

  /** In every coherent state in which each class is named once, for every class id: the index and the
      lookup give the same bytes. */
  lemma LookupIsIndex(tc: TableContext, ts: seq<Table>, n: nat, c: int)
    requires tc.Valid() && tc.Sees(ts) && tc.Coherent() && tc.classes == Some(n)
    requires BaselinesDistinct(ts, Some(n))
    ensures tc.baseline.ById(c) == Entities.ById(CurrentBaselines(ts, n), c)
  {
    hide KeysFit, KeysDistinct, KeysInRange, NamedOnce, Indexes, BaselineOf, StringTable.Valid;
    match FindTable(ts, BASELINE_TABLE)
    case Some(k) =>
      assert tc.tables[k].View() == ts[k] && tc.IsBaseline(k);
      KeysSeen(tc.tables[k], ts[k], n);
      SlotIsBaseline(tc.baseline, tc.tables[k], ts[k], n, c);
    case None =>
      assert forall k: nat :: k < |ts| ==> tc.tables[k].View() == ts[k];
      assert forall k: nat :: !tc.IsBaseline(k);
  }
}
