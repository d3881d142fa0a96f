/** String tables: what an update message does to the items, as functions of its bits. */
module StringTables {
  import opened Prelude
  import opened Bits

  const HISTORY_SIZE: nat := 32
  const MAX_STRING_SIZE: nat := 32
  const STRING_BUF_SIZE: nat := 1024
  const MAX_USERDATA_SIZE: nat := 131072
  const MAX_USERDATA_BITS: nat := 17

  /** The parameters of a table; `compressible` is bit 0 of its flags. */
  datatype Config = Config(name: string, fixedSize: bool, size: nat, sizeBits: nat, compressible: bool,
      varintCounts: bool)

  datatype Item = Item(key: Option<Bytes>, data: Option<Bytes>)

  type Items = map<int, Item>

  datatype Entry = Entry(index: int, key: Option<Bytes>, data: Option<Bytes>)

  /** The buffers that survive from entry to entry, and from one update to the next. */
  datatype Buffers = Buffers(history: seq<Bytes>, stringBuf: Bytes, userBuf: Bytes)

  predicate Sized(m: Buffers)
  {
    && |m.history| == HISTORY_SIZE && (forall i | 0 <= i < HISTORY_SIZE :: |m.history[i]| == MAX_STRING_SIZE)
    && |m.stringBuf| == STRING_BUF_SIZE && |m.userBuf| == MAX_USERDATA_SIZE
  }

  type SizedBuffers = m: Buffers | Sized(m)
    witness Buffers(seq(32, _ => seq(32, _ => 0)), seq(1024, _ => 0), seq(131072, _ => 0))

  type Unsnap = Bytes -> Option<Bytes>

  // ---- one entry

  function ReadIndex(prev: int, b: BitString): Read<int>
  {
    var (increment, b1) :- ReadBool(b);
    if increment then
      if prev + 1 < 0x8000_0000 then Ok(prev + 1, b1) else Fail
    else
      var (v, b2) :- ReadUvarint32(b1);
      if ToI32(v) + 1 < 0x8000_0000 then Ok(ToI32(v) + 1, b2) else Fail
  }

  /** The ring slot of history position `j` after `count` pushes. */
  function Slot(count: nat, j: nat): (k: nat)
    ensures k < HISTORY_SIZE
  {
    var zero := if count > HISTORY_SIZE then count % HISTORY_SIZE else 0;
    (zero + j) % HISTORY_SIZE
  }

  datatype Keyed = Keyed(key: Bytes, buffers: Buffers)

  /** `prefix` and then the characters of a string written into the string buffer, which then goes to
      the next slot of the ring. */
  function PushKey(m: SizedBuffers, count: nat, prefix: Bytes, b: BitString): (r: Read<Keyed>)
    requires |prefix| < MAX_STRING_SIZE
    ensures r.Ok? ==> Sized(r.value.buffers)
  {
    var (s, b1) :- ReadCString(b);
    if |s| >= STRING_BUF_SIZE - |prefix| then Fail
    else
      var key := prefix + s;
      var buf := key + [0] + m.stringBuf[|key| + 1..];
      Ok(Keyed(key, Buffers(m.history[count % HISTORY_SIZE := buf[..MAX_STRING_SIZE]], buf, m.userBuf)), b1)
  }

  function ReadKey(m: SizedBuffers, count: nat, b: BitString): (r: Read<Keyed>)
    ensures r.Ok? ==> Sized(r.value.buffers)
  {
    var (useHistory, b1) :- ReadBool(b);
    if useHistory then
      var (j, b2) :- ReadUbit(5, b1);
      var (n, b3) :- ReadUbit(5, b2);
      assert Pow2(5) == 32;
      PushKey(m, count, m.history[Slot(count, j)][..n], b3)
    else
      PushKey(m, count, [], b1)
  }

  /** `n` bits as bytes, the last one holding what is left over. */
  function ReadPacked(n: nat, b: BitString): (r: Read<Bytes>)
    ensures r.Ok? ==> 8 * |r.value| <= n + 7
  {
    if n == 0 then Ok([], b)
    else if n < 8 then
      Pow2Mono(n, 8);
      var (v, b1) :- ReadUbit(n, b);
      Ok([v], b1)
    else
      var (v, b1) :- ReadByte(b);
      var (vs, b2) :- ReadPacked(n - 8, b1);
      Ok([v] + vs, b2)
  }

  datatype Valued = Valued(data: Bytes, buffers: Buffers)

  /** Bytes copied to the front of the user data buffer. */
  function IntoUserBuf(m: SizedBuffers, bytes: Bytes): SizedBuffers
    requires |bytes| <= MAX_USERDATA_SIZE
  {
    m.(userBuf := bytes + m.userBuf[|bytes|..])
  }

  function ReadFixedData(cfg: Config, m: SizedBuffers, b: BitString): (r: Read<Valued>)
    ensures r.Ok? ==> Sized(r.value.buffers)
  {
    var (bytes, b1) :- ReadPacked(cfg.sizeBits, b);
    if |bytes| > MAX_USERDATA_SIZE || cfg.size > MAX_USERDATA_SIZE then Fail
    else
      var m1 := IntoUserBuf(m, bytes);
      Ok(Valued(m1.userBuf[..cfg.size], m1), b1)
  }

  function ReadSizedData(cfg: Config, unsnap: Unsnap, m: SizedBuffers, b: BitString): (r: Read<Valued>)
    ensures r.Ok? ==> Sized(r.value.buffers)
  {
    var (compressed, b1) :- (if cfg.compressible then ReadBool(b) else Ok(false, b));
    var (size, b2) :- (if cfg.varintCounts then ReadUbitvar(b1) else ReadUbit(MAX_USERDATA_BITS, b1));
    if size > MAX_USERDATA_SIZE then Fail
    else
      var (bytes, b3) :- ReadBytes(size, b2);
      var m1 := IntoUserBuf(m, bytes);
      if !compressed then Ok(Valued(bytes, m1), b3)
      else if unsnap(bytes).None? then Fail
      else Ok(Valued(unsnap(bytes).value, m1), b3)
  }

  function ReadData(cfg: Config, unsnap: Unsnap, m: SizedBuffers, b: BitString): (r: Read<Valued>)
    ensures r.Ok? ==> Sized(r.value.buffers)
  {
    if cfg.fixedSize then ReadFixedData(cfg, m, b) else ReadSizedData(cfg, unsnap, m, b)
  }

  datatype Parsed = Parsed(entry: Entry, count: nat, buffers: Buffers)

  function ReadEntry(cfg: Config, unsnap: Unsnap, prev: int, count: nat, m: SizedBuffers,
      b: BitString): (r: Read<Parsed>)
    ensures r.Ok? ==> Sized(r.value.buffers)
  {
    var (index, b1) :- ReadIndex(prev, b);
    var (hasKey, b2) :- ReadBool(b1);
    var (keyed, b3) :- (if hasKey then ReadKey(m, count, b2) else Ok(Keyed([], m), b2));
    var (hasData, b4) :- ReadBool(b3);
    var (valued, b5) :- (if hasData then ReadData(cfg, unsnap, keyed.buffers, b4)
        else Ok(Valued([], keyed.buffers), b4));
    Ok(Parsed(Entry(index, if hasKey then Some(keyed.key) else None, if hasData then Some(valued.data) else None),
              if hasKey then count + 1 else count, valued.buffers), b5)
  }

  datatype Update = Update(entries: seq<Entry>, buffers: Buffers)

  function ReadEntries(n: nat, cfg: Config, unsnap: Unsnap, prev: int, count: nat, m: SizedBuffers,
      b: BitString): (r: Read<Update>)
    ensures r.Ok? ==> Sized(r.value.buffers)
    decreases n
  {
    if n == 0 then Ok(Update([], m), b) else
    var (p, b1) :- ReadEntry(cfg, unsnap, prev, count, m, b);
    var (u, b2) :- ReadEntries(n - 1, cfg, unsnap, p.entry.index, p.count, p.buffers, b1);
    Ok(Update([p.entry] + u.entries, u.buffers), b2)
  }

  // ---- the items

  /** A new index takes key and data; a known one keeps its key and takes data if there is any. */
  function ApplyEntry(items: Items, e: Entry): Items
  {
    if e.index in items then
      if e.data.Some? then items[e.index := items[e.index].(data := e.data)] else items
    else
      items[e.index := Item(e.key, e.data)]
  }

  function ApplyEntries(items: Items, es: seq<Entry>): Items
    decreases |es|
  {
    if es == [] then items else ApplyEntries(ApplyEntry(items, es[0]), es[1..])
  }

  datatype Table = Table(cfg: Config, items: Items, buffers: SizedBuffers)

  function Blank(): (m: SizedBuffers)
  {
    Buffers(seq(HISTORY_SIZE, _ => seq(MAX_STRING_SIZE, _ => 0)), seq(STRING_BUF_SIZE, _ => 0),
        seq(MAX_USERDATA_SIZE, _ => 0))
  }

  /** A table just created. */
  function NewTable(cfg: Config): Table
  {
    Table(cfg, map[], Blank())
  }

  /** `parse_update`: a fresh run of the history, starting from index -1. */
  function ParseUpdate(t: Table, unsnap: Unsnap, n: nat, b: BitString): Read<Table>
  {
    var (u, b1) :- ReadEntries(n, t.cfg, unsnap, -1, 0, t.buffers, b);
    Ok(t.(items := ApplyEntries(t.items, u.entries), buffers := u.buffers), b1)
  }

  lemma ParseKeepsConfig(t: Table, unsnap: Unsnap, n: nat, b: BitString)
    ensures ParseUpdate(t, unsnap, n, b).Ok? ==> ParseUpdate(t, unsnap, n, b).value.cfg == t.cfg
  {
    hide ReadEntries, ApplyEntries;
  }

  /** `do_full_update`: item by item from index 0; a known index keeps its key and takes the data. */
  function FullUpdateFrom(items: Items, incoming: seq<Item>, first: nat): Items
    decreases |incoming|
  {
    if incoming == [] then items
    else
      var item := if first in items then items[first].(data := incoming[0].data) else incoming[0];
      FullUpdateFrom(items[first := item], incoming[1..], first + 1)
  }

  lemma {:induction false} FullUpdateItems(items: Items, incoming: seq<Item>, first: nat)
    ensures var r := FullUpdateFrom(items, incoming, first);
      && (forall k :: k in r <==> k in items || first <= k < first + |incoming|)
      && (forall k | k in items && !(first <= k < first + |incoming|) :: r[k] == items[k])
      && (forall k | first <= k < first + |incoming| ::
            r[k] == Item(if k in items then items[k].key else incoming[k - first].key, incoming[k - first].data))
    decreases |incoming|
  {
    if incoming != [] {
      var item := if first in items then items[first].(data := incoming[0].data) else incoming[0];
      FullUpdateItems(items[first := item], incoming[1..], first + 1);
    }
  }

  // ---- the container of tables

  function FindTable(ts: seq<Table>, name: string): (r: Option<nat>)
    ensures r.Some? ==> r.value < |ts| && ts[r.value].cfg.name == name
    ensures r.Some? ==> forall i | 0 <= i < r.value :: ts[i].cfg.name != name
    ensures r.None? ==> forall i | 0 <= i < |ts| :: ts[i].cfg.name != name
  {
    if ts == [] then None
    else if ts[0].cfg.name == name then Some(0)
    else
      match FindTable(ts[1..], name)
      case Some(i) => assert forall k | 1 <= k < |ts| :: ts[k] == ts[1..][k - 1]; Some(i + 1)
      case None => assert forall k | 1 <= k < |ts| :: ts[k] == ts[1..][k - 1]; None
  }

  /** A table of a full packet: its name and its items in order of index. */
  datatype Snapshot = Snapshot(name: string, items: seq<Item>)

  function FullUpdateOne(ts: seq<Table>, s: Snapshot): (r: seq<Table>)
    ensures |r| == |ts|
  {
    match FindTable(ts, s.name)
    case Some(i) => ts[i := ts[i].(items := FullUpdateFrom(ts[i].items, s.items, 0))]
    case None => ts
  }

  /** Each incoming table updates the first table of its name; unknown names are passed over. */
  function FullUpdates(ts: seq<Table>, ss: seq<Snapshot>): (r: seq<Table>)
    ensures |r| == |ts|
    decreases |ss|
  {
    if ss == [] then ts else FullUpdates(FullUpdateOne(ts, ss[0]), ss[1..])
  }

  // ---- which class a baseline item belongs to

  const BASELINE_TABLE: string := "instancebaseline"

  datatype KeyClass = NoText | Class(id: int) | NotANumber

  predicate IsDigit(b: Byte) { 48 <= b <= 57 }

  function DigitsValue(digits: Bytes): Option<nat>
  {
    if digits == [] then Some(0)
    else if !IsDigit(digits[|digits| - 1]) then None
    else
      match DigitsValue(digits[..|digits| - 1])
      case Some(v) => Some(10 * v + (digits[|digits| - 1] - 48))
      case None => None
  }

  /** A decimal `i32` with an optional sign. */
  function ParseI32(s: Bytes): Option<int>
  {
    var negative := s != [] && s[0] == 45;
    var digits := if s != [] && (s[0] == 43 || s[0] == 45) then s[1..] else s;
    if digits == [] || DigitsValue(digits).None? then None
    else
      var magnitude: int := DigitsValue(digits).value;
      var v := if negative then -magnitude else magnitude;
      if -0x8000_0000 <= v < 0x8000_0000 then Some(v) else None
  }

  predicate Continuation(s: Bytes, i: nat, low: Byte, high: Byte)
  {
    i < |s| && low <= s[i] <= high
  }

  /** The length of the well-formed UTF-8 sequence that starts `s`, or 0 (section 4 of RFC 3629). */
  function Utf8Length(s: Bytes): nat
  {
    if s == [] then 0
    else if s[0] < 0x80 then 1
    else if 0xC2 <= s[0] <= 0xDF && Continuation(s, 1, 0x80, 0xBF) then 2
    else if 0xE0 <= s[0] <= 0xEF
      && Continuation(s, 1, if s[0] == 0xE0 then 0xA0 else 0x80, if s[0] == 0xED then 0x9F else 0xBF)
      && Continuation(s, 2, 0x80, 0xBF) then 3
    else if 0xF0 <= s[0] <= 0xF4
      && Continuation(s, 1, if s[0] == 0xF0 then 0x90 else 0x80, if s[0] == 0xF4 then 0x8F else 0xBF)
      && Continuation(s, 2, 0x80, 0xBF) && Continuation(s, 3, 0x80, 0xBF) then 4
    else 0
  }

  predicate IsUtf8(s: Bytes)
    decreases |s|
  {
    s == [] || (0 < Utf8Length(s) <= |s| && IsUtf8(s[Utf8Length(s)..]))
  }

  function ClassOf(key: Option<Bytes>): KeyClass
  {
    if key.None? || !IsUtf8(key.value) then NoText
    else
      match ParseI32(key.value)
      case Some(c) => Class(c)
      case None => NotANumber
  }

  // ---- the baseline of a class

  predicate Claims(items: Items, c: int, i: int)
  {
    i in items && ClassOf(items[i].key) == Class(c)
  }

  lemma {:induction false} Least(s: set<int>)
    requires s != {}
    ensures exists i :: i in s && forall j | j in s :: i <= j
    decreases |s|
  {
    assert exists k :: k in s by {
      if forall k :: k !in s {
        assert false;
      }
    }
    var k :| k in s;
    if s != {k} {
      var others := s - {k};
      Least(others);
      var i :| i in others && forall j | j in others :: i <= j;
      var least := if i <= k then i else k;
      forall j | j in s
        ensures least <= j
      {
        assert j == k || j in others;
      }
      assert least in s;
    } else {
      assert k in s;
    }
  }

  /** The user data of the item that names class `c`. */
  function BaselineOf(items: Items, c: int): Option<Bytes>
  {
    var claims := set i | i in items && Claims(items, c, i);
    if claims == {} then None
    else
      Least(claims);
      var i :| i in claims && forall j | j in claims :: i <= j;
      items[i].data
  }

  /** Each key that is text names a known class; any other stops the update. */
  predicate KeysFit(items: Items, classes: nat)
  {
    forall i | i in items ::
      match ClassOf(items[i].key) case NoText => true case Class(c) => 0 <= c < classes case NotANumber => false
  }

  /** No two items name one class. */
  predicate KeysDistinct(items: Items)
  {
    forall i, j | i in items && j in items && i != j && ClassOf(items[i].key).Class? ::
      ClassOf(items[i].key) != ClassOf(items[j].key)
  }

  predicate KeysOk(items: Items, classes: nat)
  {
    KeysFit(items, classes) && KeysDistinct(items)
  }

  function CurrentBaselines(ts: seq<Table>, classes: nat): seq<Option<Bytes>>
  {
    match FindTable(ts, BASELINE_TABLE)
    case Some(k) => seq(classes, c => BaselineOf(ts[k].items, c))
    case None => []
  }

  /** The index can be brought up to date: there is no baseline table, or its keys allow it. */
  predicate BaselinesFit(ts: seq<Table>, classes: Option<nat>)
  {
    classes.Some? && FindTable(ts, BASELINE_TABLE).Some? ==>
      KeysFit(ts[FindTable(ts, BASELINE_TABLE).value].items, classes.value)
  }

  /** The index does not depend on the order of the visit: each class is named once. */
  predicate BaselinesDistinct(ts: seq<Table>, classes: Option<nat>)
  {
    classes.Some? && FindTable(ts, BASELINE_TABLE).Some? ==>
      KeysDistinct(ts[FindTable(ts, BASELINE_TABLE).value].items)
  }

  predicate BaselinesIndexable(ts: seq<Table>, classes: Option<nat>)
  {
    classes.Some? && FindTable(ts, BASELINE_TABLE).Some? ==>
      KeysOk(ts[FindTable(ts, BASELINE_TABLE).value].items, classes.value)
  }
}
