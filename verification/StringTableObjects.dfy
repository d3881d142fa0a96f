/** String tables as objects: history ring, buffers and shared user data cells changed in place. */
module StringTableObjects {
  import opened Prelude
  import B = Bits
  import opened BitReaders
  import opened StringTables

  /** The first `n` bytes to the front of a buffer. */
  method CopyBytes(bytes: Bytes, n: nat, buf: array<Byte>)
    requires n <= |bytes| && n <= buf.Length
    modifies buf
    ensures buf[..] == bytes[..n] + old(buf[..])[n..]
  {
    for i := 0 to n
      invariant forall k | 0 <= k < i :: buf[k] == bytes[k]
      invariant forall k | i <= k < buf.Length :: buf[k] == old(buf[k])
    {
      buf[i] := bytes[i];
    }
  }

  /** User data, shared between an item and the baseline index. */
  class Cell {
    var data: Bytes

    constructor (data: Bytes)
      ensures this.data == data
    {
      this.data := data;
    }
  }

  datatype ItemRef = ItemRef(key: Option<Bytes>, cell: Option<Cell>)

  /** No item is gone, none has another key, and a cell that was there still is. */
  ghost predicate KeepsItems(before: map<int, ItemRef>, after: map<int, ItemRef>)
  {
    forall i | i in before ::
      i in after && after[i].key == before[i].key && (before[i].cell.Some? ==> after[i].cell == before[i].cell)
  }

  lemma KeepsAll(a: map<int, ItemRef>)
    ensures KeepsItems(a, a)
  {
  }

  lemma UpdateIs(t: Table, unsnap: Unsnap, n: nat, b: B.BitString)
    ensures ApplyEntries(t.items, []) == t.items
    ensures StringTables.ParseUpdate(t, unsnap, n, b) ==
      match ReadEntries(n, t.cfg, unsnap, -1, 0, t.buffers, b)
      case Ok(u, rest) => B.Ok(t.(items := ApplyEntries(t.items, u.entries), buffers := u.buffers), rest)
      case Fail => B.Fail
  {
    hide ReadEntries;
  }

  lemma KeepsMore(a: map<int, ItemRef>, b: map<int, ItemRef>, c: map<int, ItemRef>)
    requires KeepsItems(a, b) && KeepsItems(b, c)
    ensures KeepsItems(a, c)
  {
  }

  class StringTable {
    const cfg: Config
    var items: map<int, ItemRef>
    const history: array<Bytes>
    const stringBuf: array<Byte>
    const userBuf: array<Byte>
    ghost var Repr: set<object>

    ghost function Cells(): set<Cell>
      reads this
    {
      set i | i in items && items[i].cell.Some? :: items[i].cell.value
    }

    /** Each cell belongs to one item. */
    ghost predicate OwnCells()
      reads this
    {
      forall i, j | i in items && j in items && i != j && items[i].cell.Some? && items[j].cell.Some? ::
        items[i].cell.value != items[j].cell.value
    }

    ghost predicate Valid()
      reads this, Repr
    {
      && this in Repr && history in Repr && stringBuf in Repr && userBuf in Repr
      && (forall c | c in Cells() :: c in Repr)
      && history.Length == HISTORY_SIZE && (forall i | 0 <= i < HISTORY_SIZE :: |history[i]| == MAX_STRING_SIZE)
      && stringBuf.Length == STRING_BUF_SIZE && userBuf.Length == MAX_USERDATA_SIZE
      && stringBuf != userBuf
      && OwnCells()
    }

    ghost function Buffers(): SizedBuffers
      requires Valid()
      reads this, Repr
    {
      StringTables.Buffers(history[..], stringBuf[..], userBuf[..])
    }

    ghost function ItemAt(i: int): Item
      requires i in items
      reads this, Cells()
    {
      Item(items[i].key, if items[i].cell.None? then None else Some(items[i].cell.value.data))
    }

    ghost function Items(): StringTables.Items
      reads this, Cells()
    {
      map i | i in items :: ItemAt(i)
    }

    ghost function View(): Table
      requires Valid()
      reads this, Repr
    {
      Table(cfg, Items(), Buffers())
    }

    constructor (cfg: Config)
      ensures Valid() && fresh(Repr) && this.cfg == cfg && items == map[] && Buffers() == Blank()
    {
      this.cfg := cfg;
      items := map[];
      history := new Bytes[HISTORY_SIZE](_ => seq(MAX_STRING_SIZE, _ => 0));
      stringBuf := new Byte[STRING_BUF_SIZE](_ => 0);
      userBuf := new Byte[MAX_USERDATA_SIZE](_ => 0);
      new;
      Repr := {this, history, stringBuf, userBuf};
    }

    // ---- reading an entry

    method ReadIndexFrom(prev: int, br: BitReader) returns (r: Option<int>)
      modifies br
      ensures br.Did(r, ReadIndex(prev, old(br.unread)))
      ensures |br.unread| <= old(|br.unread|)
    {
      var increment := br.ReadBool();
      if increment.None? { return None; }
      if increment.value {
        return if prev + 1 < 0x8000_0000 then Some(prev + 1) else None;
      }
      var v := br.ReadUvarint32();
      if v.None? { return None; }
      r := if ToI32(v.value) + 1 < 0x8000_0000 then Some(ToI32(v.value) + 1) else None;
    }

    /** The string after the prefix of `n` bytes goes into the buffer, and the buffer into the ring. */
    method PushKeyFrom(count: nat, n: nat, br: BitReader) returns (size: Option<nat>)
      requires Valid() && n < MAX_STRING_SIZE
      modifies br, stringBuf, history
      ensures Valid() && |br.unread| <= old(|br.unread|)
      ensures match PushKey(old(Buffers()), count, old(stringBuf[..n]), old(br.unread))
              case Ok(k, rest) =>
                && size == Some(|k.key|) && |k.key| <= stringBuf.Length && stringBuf[..|k.key|] == k.key
                && Buffers() == k.buffers && br.unread == rest
              case Fail => size == None
    {
      hide B.ReadText;
      ghost var m, prefix := Buffers(), stringBuf[..n];
      var more := br.ReadString(stringBuf, n, false);
      if more.None? { return None; }
      ghost var s := B.ReadCString(old(br.unread)).value;
      assert stringBuf[..] == prefix + s + [0] + m.stringBuf[n + |s| + 1..];
      size := Some(n + more.value);
      history[count % HISTORY_SIZE] := stringBuf[..MAX_STRING_SIZE];
      assert stringBuf[..size.value] == prefix + s;
    }

    /** The shared prefix goes to the front of the string buffer. */
    method CopyPrefix(index: nat, n: nat)
      requires Valid() && index < HISTORY_SIZE && n <= MAX_STRING_SIZE
      modifies stringBuf
      ensures Valid() && stringBuf[..n] == history[index][..n]
      ensures Buffers() == old(Buffers()).(stringBuf := history[index][..n] + old(stringBuf[n..]))
    {
      ghost var was := stringBuf[..];
      CopyBytes(history[index], n, stringBuf);
      assert was[n..] == old(stringBuf[n..]);
    }

    /** A key that shares a prefix with an entry of the ring. */
    method ReadHistoryKeyFrom(count: nat, index: nat, n: nat, br: BitReader) returns (size: Option<nat>)
      requires Valid() && index < HISTORY_SIZE && n < MAX_STRING_SIZE
      modifies br, stringBuf, history
      ensures Valid() && |br.unread| <= old(|br.unread|)
      ensures match PushKey(old(Buffers()), count, old(history[index])[..n], old(br.unread))
              case Ok(k, rest) =>
                && size == Some(|k.key|) && |k.key| <= stringBuf.Length && stringBuf[..|k.key|] == k.key
                && Buffers() == k.buffers && br.unread == rest
              case Fail => size == None
    {
      hide PushKey;
      CopyPrefix(index, n);
      PushKeyIgnores(old(Buffers()), Buffers(), count, old(history[index])[..n], br.unread);
      size := PushKeyFrom(count, n, br);
    }

    method ReadKeyFrom(count: nat, br: BitReader) returns (size: Option<nat>)
      requires Valid()
      modifies br, stringBuf, history
      ensures Valid() && |br.unread| <= old(|br.unread|)
      ensures match ReadKey(old(Buffers()), count, old(br.unread))
              case Ok(k, rest) =>
                && size == Some(|k.key|) && |k.key| <= stringBuf.Length && stringBuf[..|k.key|] == k.key
                && Buffers() == k.buffers && br.unread == rest
              case Fail => size == None
    {
      hide B.ReadUbit, B.ReadBool, PushKey;
      var useHistory := br.ReadBool();
      if useHistory.None? { return None; }
      if useHistory.value {
        var historyDeltaZero := if count > HISTORY_SIZE then count % HISTORY_SIZE else 0;
        var j := br.ReadUbit(5);
        if j.None? { return None; }
        var n := br.ReadUbit(5);
        if n.None? { return None; }
        assert Pow2(5) == 32;
        size := ReadHistoryKeyFrom(count, (historyDeltaZero + j.value) % HISTORY_SIZE, n.value, br);
      } else {
        assert stringBuf[..0] == [];
        size := PushKeyFrom(count, 0, br);
      }
    }

    // ---- user data

    method CopyUserData(bytes: Bytes)
      requires Valid() && |bytes| <= MAX_USERDATA_SIZE
      modifies userBuf
      ensures Valid() && Buffers() == IntoUserBuf(old(Buffers()), bytes)
    {
      CopyBytes(bytes, |bytes|, userBuf);
      assert bytes[..|bytes|] == bytes;
    }

    method ReadFixedDataFrom(br: BitReader) returns (data: Option<Bytes>)
      requires Valid()
      modifies br, userBuf
      ensures Valid() && |br.unread| <= old(|br.unread|)
      ensures match ReadFixedData(cfg, old(Buffers()), old(br.unread))
              case Ok(v, rest) => data == Some(v.data) && Buffers() == v.buffers && br.unread == rest
              case Fail => data == None
    {
      hide ReadPacked;
      var bytes := ReadPackedFrom(cfg.sizeBits, br);
      if bytes.None? || |bytes.value| > MAX_USERDATA_SIZE || cfg.size > MAX_USERDATA_SIZE { return None; }
      CopyUserData(bytes.value);
      data := Some(userBuf[..cfg.size]);
    }

    method ReadSizedDataFrom(unsnap: Unsnap, br: BitReader) returns (data: Option<Bytes>)
      requires Valid()
      modifies br, userBuf
      ensures Valid() && |br.unread| <= old(|br.unread|)
      ensures match ReadSizedData(cfg, unsnap, old(Buffers()), old(br.unread))
              case Ok(v, rest) => data == Some(v.data) && Buffers() == v.buffers && br.unread == rest
              case Fail => data == None
    {
      hide B.ReadBytes, B.ReadUbitvar, B.ReadUbit, B.ReadBool;
      var isCompressed := false;
      if cfg.compressible {
        var flag := br.ReadBool();
        if flag.None? { return None; }
        isCompressed := flag.value;
      }
      var size: Option<nat>;
      if cfg.varintCounts {
        size := br.ReadUbitvar();
      } else {
        size := br.ReadUbit(MAX_USERDATA_BITS);
      }
      if size.None? || size.value > MAX_USERDATA_SIZE { return None; }
      var bytes := br.ReadBytes(size.value);
      if bytes.None? { return None; }
      CopyUserData(bytes.value);
      data := if isCompressed then unsnap(bytes.value) else bytes;
    }

    // ---- one update

    /** The `entry(..).and_modify(..).or_insert_with(..)` of one entry: a cell that is there is written
        in place, so whoever shares it sees the new data. */
    method ApplyItem(e: Entry)
      requires Valid()
      modifies this`items, this`Repr,
        if e.index in items && items[e.index].cell.Some? then {items[e.index].cell.value} else {}
      ensures Valid() && fresh(Repr - old(Repr))
      ensures Items() == ApplyEntry(old(Items()), e)
      ensures Buffers() == old(Buffers())
      ensures KeepsItems(old(items), items)
    {
      if e.index in items {
        if items[e.index].cell.Some? {
          if e.data.Some? {
            WriteCell(e.index, e.data.value);
          }
        } else if e.data.Some? {
          AttachCell(e.index, e.data.value);
        }
      } else {
        AddItem(e);
      }
    }

    /** In place: the cell stays the same object. */
    method WriteCell(i: int, data: Bytes)
      requires Valid() && i in items && items[i].cell.Some?
      modifies items[i].cell.value
      ensures Valid() && Buffers() == old(Buffers())
      ensures Items() == old(Items())[i := Item(items[i].key, Some(data))]
    {
      var cell := items[i].cell.value;
      cell.data := data;
      assert forall j | j in items && j != i :: ItemAt(j) == old(ItemAt(j));
    }

    method AttachCell(i: int, data: Bytes)
      requires Valid() && i in items && items[i].cell.None?
      modifies this`items, this`Repr
      ensures Valid() && fresh(Repr - old(Repr)) && Buffers() == old(Buffers())
      ensures Items() == old(Items())[i := Item(old(items)[i].key, Some(data))]
      ensures items.Keys == old(items).Keys && items[i].key == old(items)[i].key
      ensures forall j | j in old(items) && j != i :: items[j] == old(items)[j]
    {
      var cell := new Cell(data);
      items := items[i := items[i].(cell := Some(cell))];
      Repr := Repr + {cell};
      assert forall j | j in items && j != i :: ItemAt(j) == old(ItemAt(j));
    }

    method AddItem(e: Entry)
      requires Valid() && e.index !in items
      modifies this`items, this`Repr
      ensures Valid() && fresh(Repr - old(Repr)) && Buffers() == old(Buffers())
      ensures Items() == old(Items())[e.index := Item(e.key, e.data)]
      ensures items.Keys == old(items).Keys + {e.index}
      ensures forall j | j in old(items) :: items[j] == old(items)[j]
    {
      var cell: Option<Cell> := None;
      if e.data.Some? {
        var made := new Cell(e.data.value);
        cell := Some(made);
        Repr := Repr + {made};
      }
      items := items[e.index := ItemRef(e.key, cell)];
      assert forall i | i in items && i != e.index :: items[i] == old(items)[i] && ItemAt(i) == old(ItemAt(i));
      assert ItemAt(e.index) == Item(e.key, e.data);
    }

    method ReadEntryFrom(unsnap: Unsnap, prev: int, count: nat, br: BitReader) returns (entry: Option<Entry>)
      requires Valid()
      modifies br, stringBuf, history, userBuf
      ensures Valid() && |br.unread| <= old(|br.unread|)
      ensures match ReadEntry(cfg, unsnap, prev, count, old(Buffers()), old(br.unread))
              case Ok(p, rest) =>
                && entry == Some(p.entry) && p.count == (if p.entry.key.Some? then count + 1 else count)
                && Buffers() == p.buffers && br.unread == rest
              case Fail => entry == None
    {
      hide ReadIndex, ReadKey, ReadData, B.ReadBool;
      var index := ReadIndexFrom(prev, br);
      if index.None? { return None; }
      var hasKey := br.ReadBool();
      if hasKey.None? { return None; }
      assert Buffers() == old(Buffers());
      var key: Option<Bytes> := None;
      if hasKey.value {
        var size := ReadKeyFrom(count, br);
        if size.None? { return None; }
        key := Some(stringBuf[..size.value]);
      }
      label K:
      var hasData := br.ReadBool();
      if hasData.None? { return None; }
      assert Buffers() == old@K(Buffers());
      var data: Option<Bytes> := None;
      if hasData.value {
        data := ReadDataFrom(unsnap, br);
        if data.None? { return None; }
      }
      entry := Some(Entry(index.value, key, data));
    }

    method ReadDataFrom(unsnap: Unsnap, br: BitReader) returns (data: Option<Bytes>)
      requires Valid()
      modifies br, userBuf
      ensures Valid() && |br.unread| <= old(|br.unread|)
      ensures match ReadData(cfg, unsnap, old(Buffers()), old(br.unread))
              case Ok(v, rest) => data == Some(v.data) && Buffers() == v.buffers && br.unread == rest
              case Fail => data == None
    {
      hide ReadFixedData, ReadSizedData;
      if cfg.fixedSize {
        data := ReadFixedDataFrom(br);
      } else {
        data := ReadSizedDataFrom(unsnap, br);
      }
    }

    method ReadAndApply(unsnap: Unsnap, prev: int, count: nat, br: BitReader) returns (entry: Option<Entry>)
      requires Valid()
      modifies br, Repr
      ensures Valid() && fresh(Repr - old(Repr))
      ensures match ReadEntry(cfg, unsnap, prev, count, old(Buffers()), old(br.unread))
              case Ok(p, rest) =>
                && entry == Some(p.entry) && p.count == (if p.entry.key.Some? then count + 1 else count)
                && Buffers() == p.buffers && br.unread == rest && Items() == ApplyEntry(old(Items()), p.entry)
              case Fail => entry == None
      ensures KeepsItems(old(items), items)
    {
      hide ReadEntry, ApplyEntry;
      entry := ReadEntryFrom(unsnap, prev, count, br);
      if entry.None? { return; }
      assert Items() == old(Items());
      ApplyItem(entry.value);
    }

    /** Reads `numEntries` entries and applies each as it is read. */
    method ParseUpdate(unsnap: Unsnap, numEntries: nat, br: BitReader) returns (ok: bool)
      requires Valid()
      modifies br, Repr
      ensures Valid() && fresh(Repr - old(Repr))
      ensures match StringTables.ParseUpdate(old(View()), unsnap, numEntries, old(br.unread))
              case Ok(t, rest) => ok && View() == t && br.unread == rest
              case Fail => !ok
      ensures KeepsItems(old(items), items)
    {
      hide ReadEntry, ReadEntries, Reading, ApplyEntry, ApplyEntries, KeepsItems, StringTables.ParseUpdate, Valid;
      UpdateIs(View(), unsnap, numEntries, br.unread);
      KeepsAll(items);
      var entryIndex := -1;
      var count := 0;
      ghost var done: seq<Entry> := [];
      ghost var spec := ReadEntries(numEntries, cfg, unsnap, -1, 0, Buffers(), br.unread);
      ReadingStart(spec);
      for k := 0 to numEntries
        invariant Valid() && fresh(Repr - old(Repr))
        invariant Reading(spec, done, ReadEntries(numEntries - k, cfg, unsnap, entryIndex, count, Buffers(), br.unread))
        invariant Items() == ApplyEntries(old(Items()), done)
        invariant KeepsItems(old(items), items)
      {
        ReadingNext(spec, done, numEntries - k, cfg, unsnap, entryIndex, count, Buffers(), br.unread);
        ghost var before := items;
        var entry := ReadAndApply(unsnap, entryIndex, count, br);
        KeepsMore(old(items), before, items);
        if entry.None? { return false; }
        entryIndex := entry.value.index;
        if entry.value.key.Some? {
          count := count + 1;
        }
        ApplyOneMore(old(Items()), done, entry.value);
        done := done + [entry.value];
      }
      ReadingEnd(spec, done, cfg, unsnap, entryIndex, count, Buffers(), br.unread);
      ok := true;
    }

    /** Item by item: a known index gets a new cell and keeps its key. */
    method DoFullUpdate(incoming: seq<Item>)
      requires Valid()
      modifies this`items, this`Repr
      ensures Valid() && fresh(Repr - old(Repr))
      ensures View() == old(View()).(items := FullUpdateFrom(old(Items()), incoming, 0))
      ensures forall i | i in old(items) :: i in items && items[i].key == old(items)[i].key
    {
      for k := 0 to |incoming|
        invariant Valid() && fresh(Repr - old(Repr)) && Buffers() == old(Buffers())
        invariant FullUpdateFrom(Items(), incoming[k..], k) == FullUpdateFrom(old(Items()), incoming, 0)
        invariant forall i | i in old(items) :: i in items && items[i].key == old(items)[i].key
      {
        assert incoming[k..][0] == incoming[k] && incoming[k..][1..] == incoming[k + 1..];
        PutItem(k, incoming[k]);
      }
    }

    method PutItem(k: nat, item: Item)
      requires Valid()
      modifies this`items, this`Repr
      ensures Valid() && fresh(Repr - old(Repr)) && Buffers() == old(Buffers())
      ensures Items() == old(Items())[k := Item(if k in old(items) then old(items)[k].key else item.key, item.data)]
      ensures forall i | i in old(items) :: i in items && items[i].key == old(items)[i].key
    {
      var cell: Option<Cell> := None;
      if item.data.Some? {
        var made := new Cell(item.data.value);
        cell := Some(made);
        Repr := Repr + {made};
      }
      var key := if k in items then items[k].key else item.key;
      items := items[k := ItemRef(key, cell)];
      assert forall i | i in items && i != k :: items[i] == old(items)[i] && ItemAt(i) == old(ItemAt(i));
      assert ItemAt(k) == Item(key, item.data);
    }
  }

  /** With the entries `done` already read, the whole read is `spec` and the rest of it is `r`. */
  ghost predicate Reading(spec: B.Read<Update>, done: seq<Entry>, r: B.Read<Update>)
  {
    match r
    case Ok(u, rest) => spec == B.Ok(Update(done + u.entries, u.buffers), rest)
    case Fail => spec == B.Fail
  }

  lemma ReadingStart(spec: B.Read<Update>)
    ensures Reading(spec, [], spec)
  {
    match spec
    case Ok(u, _) => assert [] + u.entries == u.entries;
    case Fail =>
  }

  lemma ReadingNext(spec: B.Read<Update>, done: seq<Entry>, n: nat, cfg: Config, unsnap: Unsnap, prev: int, count: nat,
                    m: SizedBuffers, b: B.BitString)
    requires n > 0 && Reading(spec, done, ReadEntries(n, cfg, unsnap, prev, count, m, b))
    ensures match ReadEntry(cfg, unsnap, prev, count, m, b)
            case Ok(p, b1) =>
              Reading(spec, done + [p.entry], ReadEntries(n - 1, cfg, unsnap, p.entry.index, p.count, p.buffers, b1))
            case Fail => spec == B.Fail
  {
    hide ReadEntry;
    match ReadEntry(cfg, unsnap, prev, count, m, b)
    case Ok(p, b1) =>
      match ReadEntries(n - 1, cfg, unsnap, p.entry.index, p.count, p.buffers, b1) {
        case Ok(u, _) => assert done + ([p.entry] + u.entries) == (done + [p.entry]) + u.entries;
        case Fail =>
      }
    case Fail =>
  }

  lemma ReadingEnd(spec: B.Read<Update>, done: seq<Entry>, cfg: Config, unsnap: Unsnap, prev: int, count: nat,
                   m: SizedBuffers, b: B.BitString)
    requires Reading(spec, done, ReadEntries(0, cfg, unsnap, prev, count, m, b))
    ensures spec == B.Ok(Update(done, m), b)
  {
    assert done + [] == done;
  }

  lemma {:induction false} ApplyOneMore(items: Items, es: seq<Entry>, e: Entry)
    ensures ApplyEntries(items, es + [e]) == ApplyEntry(ApplyEntries(items, es), e)
    decreases |es|
  {
    var all := es + [e];
    if es == [] {
      assert all[1..] == [];
    } else {
      assert all[0] == es[0] && all[1..] == es[1..] + [e];
      ApplyOneMore(ApplyEntry(items, es[0]), es[1..], e);
    }
  }

  method ReadPackedFrom(n: nat, br: BitReader) returns (r: Option<Bytes>)
    modifies br
    ensures br.Did(r, ReadPacked(n, old(br.unread)))
    ensures |br.unread| <= old(|br.unread|)
    decreases n
  {
    if n == 0 { return Some([]); }
    if n < 8 {
      Pow2Mono(n, 8);
      var v := br.ReadUbit(n);
      if v.None? { return None; }
      return Some([v.value]);
    }
    var v := br.ReadByte();
    if v.None? { return None; }
    var vs := ReadPackedFrom(n - 8, br);
    r := if vs.None? then None else Some([v.value] + vs.value);
  }

  /** The old contents under the prefix do not matter. */
  lemma PushKeyIgnores(m: SizedBuffers, m': SizedBuffers, count: nat, prefix: Bytes, b: B.BitString)
    requires |prefix| < MAX_STRING_SIZE
    requires m.history == m'.history && m.userBuf == m'.userBuf && m.stringBuf[|prefix|..] == m'.stringBuf[|prefix|..]
    ensures PushKey(m, count, prefix, b) == PushKey(m', count, prefix, b)
  {
    hide B.ReadText;
    match B.ReadCString(b)
    case Ok(s, _) =>
      if |s| < STRING_BUF_SIZE - |prefix| {
        var k := |prefix + s| + 1;
        assert m.stringBuf[k..] == m.stringBuf[|prefix|..][k - |prefix|..];
        assert m'.stringBuf[k..] == m'.stringBuf[|prefix|..][k - |prefix|..];
      }
    case Fail =>
  }
}
