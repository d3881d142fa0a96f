/** An encoding of string table updates that `ReadEntries` undoes, whatever the buffers held. */
module StringTableCodec {
  import opened Prelude
  import opened Bits
  import opened StringTables

  // ---- the ring stands in for a list that drops its oldest entry beyond 32

  function PushList<T>(list: seq<T>, x: T): seq<T>
  {
    var longer := list + [x];
    if |longer| > 32 then longer[1..] else longer
  }

  /** The list after pushing all of `xs`: never more than 32. */
  function ListOf<T>(xs: seq<T>): seq<T>
  {
    if xs == [] then [] else PushList(ListOf(xs[..|xs| - 1]), xs[|xs| - 1])
  }

  function RingPush<T>(ring: seq<T>, count: nat, x: T): (r: seq<T>)
    requires |ring| == HISTORY_SIZE
    ensures |r| == HISTORY_SIZE
  {
    ring[count % HISTORY_SIZE := x]
  }

  function RingOf<T>(ring: seq<T>, xs: seq<T>): (r: seq<T>)
    requires |ring| == HISTORY_SIZE
    ensures |r| == HISTORY_SIZE
  {
    if xs == [] then ring else RingPush(RingOf(ring, xs[..|xs| - 1]), |xs| - 1, xs[|xs| - 1])
  }

  lemma ListOfNothing<T>()
    ensures ListOf<T>([]) == []
  {
  }

  lemma ListNext<T>(xs: seq<T>, x: T)
    ensures ListOf(xs + [x]) == PushList(ListOf(xs), x)
  {
    var all := xs + [x];
    assert all[..|all| - 1] == xs;
  }

  lemma {:induction false} ListIsTail<T>(xs: seq<T>)
    ensures ListOf(xs) == if |xs| <= 32 then xs else xs[|xs| - 32..]
  {
    hide ListOf;
    if xs == [] {
      ListOfNothing<T>();
    } else {
      var ys, x := xs[..|xs| - 1], xs[|xs| - 1];
      ListIsTail(ys);
      assert xs == ys + [x];
      ListNext(ys, x);
      PushTail(ys, x, 32);
    }
  }

  lemma PushTail<T>(ys: seq<T>, x: T, n: nat)
    requires n > 0
    ensures var xs, kept := ys + [x], if |ys| <= n then ys else ys[|ys| - n..];
      (if |kept + [x]| > n then (kept + [x])[1..] else kept + [x]) == if |xs| <= n then xs else xs[|xs| - n..]
  {
  }

  lemma {:induction false} RingHoldsTail<T>(ring: seq<T>, xs: seq<T>, e: nat)
    requires |ring| == HISTORY_SIZE && e < |xs| <= e + HISTORY_SIZE
    ensures RingOf(ring, xs)[e % HISTORY_SIZE] == xs[e]
  {
    var n := |xs| - 1;
    if e < n {
      RingHoldsTail(ring, xs[..n], e);
      assert e % HISTORY_SIZE != n % HISTORY_SIZE by {
        if e % HISTORY_SIZE == n % HISTORY_SIZE {
          DistinctSlots(e, n);
        }
      }
    }
  }

  lemma DistinctSlots(e: nat, n: nat)
    requires e < n < e + HISTORY_SIZE
    ensures e % HISTORY_SIZE != n % HISTORY_SIZE
  {
  }

  /** Position `j` of the list is entry `j` past the oldest one kept. */
  function EntryAt(count: nat, j: nat): nat
  {
    if count > 32 then count - 32 + j else j
  }

  lemma SlotIsEntry(count: nat, j: nat)
    requires j < HISTORY_SIZE && j < count
    ensures Slot(count, j) == EntryAt(count, j) % HISTORY_SIZE
  {
  }

  /** After any pushes, every position the list has reads the same from the masked ring. */
  lemma {:induction false} RingRefinesList<T>(ring: seq<T>, xs: seq<T>, j: nat)
    requires |ring| == HISTORY_SIZE && j < |ListOf(xs)|
    ensures RingOf(ring, xs)[Slot(|xs|, j)] == ListOf(xs)[j]
  {
    ListIsTail(xs);
    SlotIsEntry(|xs|, j);
    RingHoldsTail(ring, xs, EntryAt(|xs|, j));
  }

  // ---- encoding

  /** How a key is written: in full, or after a prefix shared with a key in the history. */
  datatype Ref = NoRef | HistoryRef(position: nat, shared: nat)

  /** An entry, how its key is written, and the bytes that stand for its data if that is compressed. */
  datatype Plan = Plan(entry: Entry, ref: Ref, packed: Option<Bytes>)

  /** The keys of an update so far, oldest first: those a reference can point at. */
  ghost predicate ValidRef(keys: seq<Bytes>, key: Bytes, ref: Ref)
  {
    match ref
    case NoRef => true
    case HistoryRef(j, n) =>
      var list := ListOf(keys);
      j < |list| && n < 32 && n <= |key| && n <= |list[j]| && list[j][..n] == key[..n]
  }

  /** The number of bytes that `n` bits fill, the last one perhaps in part. */
  function PackedSize(n: nat): nat { (n + 7) / 8 }

  /** Bytes that `n` bits can carry: the last one fits the bits left over for it. */
  predicate FitsPacked(n: nat, data: Bytes)
  {
    |data| == PackedSize(n) && (n % 8 != 0 ==> data[|data| - 1] < Pow2(n % 8))
  }

  function EncPacked(n: nat, data: Bytes): BitString
    decreases n
  {
    if n == 0 || data == [] then []
    else if n < 8 then OfNat(data[0], n)
    else EncByte(data[0]) + EncPacked(n - 8, data[1..])
  }

  /** Fixed-size data as it goes on the wire: bytes beyond the size of the table are zero. */
  function Padded(cfg: Config, data: Bytes): Bytes
  {
    if |data| < PackedSize(cfg.sizeBits) then data + seq(PackedSize(cfg.sizeBits) - |data|, _ => 0) else data
  }

  /** What an update can say: for a fixed size that its bits fill, every such data; else every data
      whose size the count can tell, or that some bytes of such a size decompress to. */
  predicate ValidData(cfg: Config, unsnap: Unsnap, data: Bytes, packed: Option<Bytes>)
  {
    if cfg.fixedSize then
      && packed.None? && |data| == cfg.size <= PackedSize(cfg.sizeBits) <= 131072
      && FitsPacked(cfg.sizeBits, Padded(cfg, data))
    else if packed.Some? then cfg.compressible && unsnap(packed.value) == Some(data) && FitsCount(cfg, |packed.value|)
    else FitsCount(cfg, |data|)
  }

  /** The sizes that the count of a table can tell and the user buffer can hold. */
  predicate FitsCount(cfg: Config, n: nat)
  {
    n < 131072 || (cfg.varintCounts && n == 131072)
  }

  function KeysAfter(keys: seq<Bytes>, e: Entry): seq<Bytes>
  {
    if e.key.Some? then keys + [e.key.value] else keys
  }

  ghost predicate ValidPlan(cfg: Config, unsnap: Unsnap, keys: seq<Bytes>, p: Plan)
  {
    && -0x8000_0000 < p.entry.index < 0x8000_0000
    && (p.entry.key.Some? ==>
          0 !in p.entry.key.value && |p.entry.key.value| < 1024 && ValidRef(keys, p.entry.key.value, p.ref))
    && (p.entry.data.Some? ==> ValidData(cfg, unsnap, p.entry.data.value, p.packed))
  }

  ghost predicate ValidPlans(cfg: Config, unsnap: Unsnap, keys: seq<Bytes>, ps: seq<Plan>)
    decreases |ps|
  {
    ps == [] || (ValidPlan(cfg, unsnap, keys, ps[0]) && ValidPlans(cfg, unsnap, KeysAfter(keys, ps[0].entry), ps[1..]))
  }

  function ToU32(v: int): nat { v % U32 }

  function EncIndex(prev: int, index: int): BitString
  {
    if index == prev + 1 then [true] else [false] + EncGroups(ToU32(index - 1))
  }

  function EncKey(key: Bytes, ref: Ref): BitString
  {
    match ref
    case NoRef => [false] + EncCString(key)
    case HistoryRef(j, n) => [true] + (OfNat(j, 5) + (OfNat(n, 5) + EncCString(if n <= |key| then key[n..] else [])))
  }

  /** Fixed-size data bit by bit; other data as a flag that it is compressed, a size and the bytes. */
  function EncData(cfg: Config, data: Bytes, packed: Option<Bytes>): BitString
  {
    if cfg.fixedSize then EncPacked(cfg.sizeBits, Padded(cfg, data))
    else
      var bytes := if packed.Some? then packed.value else data;
      (if cfg.compressible then [packed.Some?] else [])
      + ((if cfg.varintCounts then EncUbitvar(|bytes|) else OfNat(|bytes|, 17)) + EncBytes(bytes))
  }

  function EncPlan(cfg: Config, prev: int, p: Plan): BitString
  {
    EncIndex(prev, p.entry.index)
    + (if p.entry.key.Some? then [true] + EncKey(p.entry.key.value, p.ref) else [false])
    + (if p.entry.data.Some? then [true] + EncData(cfg, p.entry.data.value, p.packed) else [false])
  }

  function EncPlans(cfg: Config, prev: int, ps: seq<Plan>): BitString
    decreases |ps|
  {
    if ps == [] then [] else EncPlan(cfg, prev, ps[0]) + EncPlans(cfg, ps[0].entry.index, ps[1..])
  }

  // ---- the parts

  lemma IndexRoundTrip(prev: int, index: int, rest: BitString)
    requires -0x8000_0000 < index < 0x8000_0000
    ensures ReadIndex(prev, EncIndex(prev, index) + rest) == Ok(index, rest)
  {
    hide ReadUvarint32, EncGroups;
    if index == prev + 1 {
      BoolRoundTrip(true, rest);
    } else {
      var u := EncGroups(ToU32(index - 1)) + rest;
      assert EncIndex(prev, index) + rest == [false] + u;
      BoolRoundTrip(false, u);
      Uvarint32RoundTrip(ToU32(index - 1), rest);
    }
  }

  /** The ring agrees with `keys` on the bytes a reference may use. */
  ghost predicate Remembers(history: seq<Bytes>, keys: seq<Bytes>)
    requires |history| == HISTORY_SIZE && forall i | 0 <= i < HISTORY_SIZE :: |history[i]| == MAX_STRING_SIZE
  {
    forall e, n | 0 <= e < |keys| <= e + HISTORY_SIZE && 0 <= n < MAX_STRING_SIZE && n <= |keys[e]| ::
      history[e % HISTORY_SIZE][..n] == keys[e][..n]
  }

  lemma PushKeyRoundTrip(m: SizedBuffers, keys: seq<Bytes>, key: Bytes, n: nat, rest: BitString)
    requires 0 !in key && |key| < 1024 && n <= |key| && n < 32
    requires Remembers(m.history, keys)
    ensures var r := PushKey(m, |keys|, key[..n], EncCString(key[n..]) + rest);
      && r.Ok? && r.rest == rest && r.value.key == key
      && Remembers(r.value.buffers.history, keys + [key])
  {
    hide ReadText, EncCString;
    CStringRoundTrip(key[n..], rest);
    assert key[..n] + key[n..] == key;
    var buf := key + [0] + m.stringBuf[|key| + 1..];
    var history := m.history[|keys| % HISTORY_SIZE := buf[..MAX_STRING_SIZE]];
    var all := keys + [key];
    forall e, k | 0 <= e < |all| <= e + HISTORY_SIZE && 0 <= k < MAX_STRING_SIZE && k <= |all[e]|
      ensures history[e % HISTORY_SIZE][..k] == all[e][..k]
    {
      if e < |keys| {
        DistinctSlots(e, |keys|);
        assert m.history[e % HISTORY_SIZE][..k] == keys[e][..k];
      } else {
        assert buf[..MAX_STRING_SIZE][..k] == key[..k];
      }
    }
  }

  lemma KeyRoundTrip(m: SizedBuffers, keys: seq<Bytes>, key: Bytes, ref: Ref, rest: BitString)
    requires 0 !in key && |key| < 1024 && ValidRef(keys, key, ref)
    requires Remembers(m.history, keys)
    ensures var r := ReadKey(m, |keys|, EncKey(key, ref) + rest);
      && r.Ok? && r.rest == rest && r.value.key == key
      && Remembers(r.value.buffers.history, keys + [key])
  {
    hide PushKey, ReadText, EncCString, OfNat;
    match ref
    case NoRef =>
      assert key[..0] == [] && key[0..] == key;
      assert EncKey(key, ref) + rest == [false] + (EncCString(key) + rest);
      BoolRoundTrip(false, EncCString(key) + rest);
      PushKeyRoundTrip(m, keys, key, 0, rest);
    case HistoryRef(j, n) =>
      var c := EncCString(key[n..]) + rest;
      assert EncKey(key, ref) + rest == [true] + (OfNat(j, 5) + (OfNat(n, 5) + c));
      assert Pow2(5) == 32;
      ListIsTail(keys);
      SlotIsEntry(|keys|, j);
      BoolRoundTrip(true, OfNat(j, 5) + (OfNat(n, 5) + c));
      UbitRoundTrip(j, 5, OfNat(n, 5) + c);
      UbitRoundTrip(n, 5, c);
      assert ListOf(keys)[j] == keys[EntryAt(|keys|, j)];
      PushKeyRoundTrip(m, keys, key, n, rest);
  }

  lemma LongTextFails(m: SizedBuffers, count: nat, prefix: Bytes, s: Bytes, rest: BitString)
    requires 0 !in s && |prefix| < 32 && |prefix| + |s| >= 1024
    ensures PushKey(m, count, prefix, EncCString(s) + rest).Fail?
  {
    hide ReadText, EncCString;
    CStringRoundTrip(s, rest);
  }

  /** A key of 1024 characters or more does not fit the string buffer, however it is written. */
  lemma LongKeyFails(m: SizedBuffers, count: nat, key: Bytes, j: nat, n: nat, rest: BitString)
    requires 0 !in key && |key| >= 1024 && j < 32 && n < 32
    ensures ReadKey(m, count, EncKey(key, NoRef) + rest).Fail?
    ensures ReadKey(m, count, EncKey(key, HistoryRef(j, n)) + rest).Fail?
  {
    hide PushKey, EncCString, OfNat, ReadUbit;
    LongTextFails(m, count, [], key, rest);
    assert EncKey(key, NoRef) + rest == [false] + (EncCString(key) + rest);
    BoolRoundTrip(false, EncCString(key) + rest);
    LongTextFails(m, count, m.history[Slot(count, j)][..n], key[n..], rest);
    var c := EncCString(key[n..]) + rest;
    assert EncKey(key, HistoryRef(j, n)) + rest == [true] + (OfNat(j, 5) + (OfNat(n, 5) + c));
    assert Pow2(5) == 32;
    BoolRoundTrip(true, OfNat(j, 5) + (OfNat(n, 5) + c));
    UbitRoundTrip(j, 5, OfNat(n, 5) + c);
    UbitRoundTrip(n, 5, c);
  }

  lemma PackedFits(n: nat, data: Bytes)
    requires FitsPacked(n, data)
    ensures n == 0 ==> data == []
    ensures 0 < n < 8 ==> data == [data[0]] && data[0] < Pow2(n)
    ensures n >= 8 ==> data != [] && FitsPacked(n - 8, data[1..])
  {
    hide Pow2;
    if 0 < n < 8 {
      assert n % 8 == n;
    } else if n >= 8 {
      assert (n - 8) % 8 == n % 8 && PackedSize(n - 8) == PackedSize(n) - 1;
    }
  }

  lemma {:induction false} PackedRoundTrip(n: nat, data: Bytes, rest: BitString)
    requires FitsPacked(n, data)
    ensures ReadPacked(n, EncPacked(n, data) + rest) == Ok(data, rest)
    decreases n
  {
    hide ReadByte, EncByte, ReadUbit, OfNat, FitsPacked;
    PackedFits(n, data);
    if n == 0 {
      assert EncPacked(n, data) + rest == rest;
    } else if n < 8 {
      UbitRoundTrip(data[0], n, rest);
    } else {
      assert EncPacked(n, data) + rest == EncByte(data[0]) + (EncPacked(n - 8, data[1..]) + rest);
      ByteRoundTrip(data[0], EncPacked(n - 8, data[1..]) + rest);
      PackedRoundTrip(n - 8, data[1..], rest);
      assert [data[0]] + data[1..] == data;
    }
  }

  /** Fixed-size user data is what the wire gives, up to the size of the table; where the table is wider
      than its bits, stale bytes of the user buffer follow. */
  lemma FixedDataRoundTrip(cfg: Config, m: SizedBuffers, packed: Bytes, rest: BitString)
    requires FitsPacked(cfg.sizeBits, packed) && |packed| <= MAX_USERDATA_SIZE && cfg.size <= MAX_USERDATA_SIZE
    ensures var r := ReadFixedData(cfg, m, EncPacked(cfg.sizeBits, packed) + rest);
      && r.Ok? && r.rest == rest && r.value.buffers == IntoUserBuf(m, packed)
      && r.value.data ==
           if cfg.size <= |packed| then packed[..cfg.size] else packed + m.userBuf[|packed|..cfg.size]
  {
    hide ReadPacked, EncPacked, FitsPacked;
    PackedRoundTrip(cfg.sizeBits, packed, rest);
    BufferFront(m.userBuf, packed, cfg.size);
  }

  lemma BufferFront(buf: Bytes, bytes: Bytes, n: nat)
    requires |bytes| <= |buf| && n <= |buf|
    ensures (bytes + buf[|bytes|..])[..n] == if n <= |bytes| then bytes[..n] else bytes + buf[|bytes|..n]
  {
  }

  lemma SizeRoundTrip(cfg: Config, n: nat, rest: BitString)
    requires FitsCount(cfg, n)
    ensures cfg.varintCounts ==> ReadUbitvar(EncUbitvar(n) + rest) == Ok(n, rest)
    ensures var w := 17;
      !cfg.varintCounts ==> ReadUbit(MAX_USERDATA_BITS, OfNat(n, w) + rest) == Ok(n, rest)
  {
    hide ReadUbitvar, EncUbitvar, ReadUbit, OfNat;
    var w := 17;
    Pow2Table(w);
    UbitvarRoundTrip(n, rest);
    if n < 131072 {
      UbitRoundTrip(n, w, rest);
    }
  }

  lemma DataRoundTrip(cfg: Config, unsnap: Unsnap, m: SizedBuffers, data: Bytes, packed: Option<Bytes>,
      rest: BitString)
    requires ValidData(cfg, unsnap, data, packed)
    ensures var r := ReadData(cfg, unsnap, m, EncData(cfg, data, packed) + rest);
      r.Ok? && r.rest == rest && r.value.data == data && r.value.buffers.history == m.history
  {
    if cfg.fixedSize {
      hide ReadFixedData, EncPacked, FitsPacked;
      FixedDataRoundTrip(cfg, m, Padded(cfg, data), rest);
    } else {
      hide ReadSizedData;
      SizedDataRoundTrip(cfg, unsnap, m, data, packed, rest);
    }
  }

  /** Data of any size reads back as it is, or, where it is written compressed, decompressed. */
  lemma SizedDataRoundTrip(cfg: Config, unsnap: Unsnap, m: SizedBuffers, data: Bytes, packed: Option<Bytes>,
      rest: BitString)
    requires !cfg.fixedSize && ValidData(cfg, unsnap, data, packed)
    ensures var r := ReadSizedData(cfg, unsnap, m, EncData(cfg, data, packed) + rest);
      r.Ok? && r.rest == rest && r.value.data == data && r.value.buffers.history == m.history
  {
    hide ReadBytes, EncBytes, ReadUbitvar, EncUbitvar, ReadUbit, OfNat, ReadBool, ReadSizedData;
    var wire := if packed.Some? then packed.value else data;
    var w := 17;
    var bytes := EncBytes(wire) + rest;
    var size := if cfg.varintCounts then EncUbitvar(|wire|) else OfNat(|wire|, w);
    var b := EncData(cfg, data, packed) + rest;
    FlagFirst(if cfg.compressible then [packed.Some?] else [], size, EncBytes(wire), rest);
    BoolRoundTrip(packed.Some?, size + bytes);
    SizeRoundTrip(cfg, |wire|, bytes);
    BytesRoundTrip(wire, rest);
    hide EncData, FitsCount;
    SizedDataOf(cfg, unsnap, m, b, packed.Some?, size + bytes, wire, bytes, rest);
  }

  lemma FlagFirst(flag: BitString, size: BitString, bytes: BitString, rest: BitString)
    ensures flag + (size + bytes) + rest == flag + (size + (bytes + rest))
    ensures flag == [] ==> flag + (size + (bytes + rest)) == size + (bytes + rest)
  {
  }

  lemma SizedDataOf(cfg: Config, unsnap: Unsnap, m: SizedBuffers, b: BitString, packed: bool, b1: BitString,
      wire: Bytes, b2: BitString, rest: BitString)
    requires if cfg.compressible then ReadBool(b) == Ok(packed, b1) else b1 == b && !packed
    requires cfg.varintCounts ==> ReadUbitvar(b1) == Ok(|wire|, b2)
    requires !cfg.varintCounts ==> ReadUbit(MAX_USERDATA_BITS, b1) == Ok(|wire|, b2)
    requires |wire| <= MAX_USERDATA_SIZE && ReadBytes(|wire|, b2) == Ok(wire, rest) && (packed ==> unsnap(wire).Some?)
    ensures var r := ReadSizedData(cfg, unsnap, m, b);
      && r.Ok? && r.rest == rest && r.value.data == (if packed then unsnap(wire).value else wire)
      && r.value.buffers.history == m.history
  {
    hide ReadBytes, ReadUbitvar, ReadUbit, ReadBool;
  }

  /** Data that does not fit the user buffer fails, though a variable-length count can tell its size. */
  lemma LargeDataFails(cfg: Config, unsnap: Unsnap, m: SizedBuffers, bytes: Bytes, packed: bool, rest: BitString)
    requires !cfg.fixedSize && cfg.varintCounts && 131072 < |bytes| < U32
    ensures ReadSizedData(cfg, unsnap, m, EncData(cfg, bytes, if packed then Some(bytes) else None) + rest).Fail?
  {
    hide ReadBytes, EncBytes, ReadUbitvar, EncUbitvar, ReadBool;
    var behind := EncBytes(bytes) + rest;
    var b := EncData(cfg, bytes, if packed then Some(bytes) else None) + rest;
    assert b == (if cfg.compressible then [packed] else []) + (EncUbitvar(|bytes|) + behind);
    BoolRoundTrip(packed, EncUbitvar(|bytes|) + behind);
    UbitvarRoundTrip(|bytes|, behind);
    assert [] + (EncUbitvar(|bytes|) + behind) == EncUbitvar(|bytes|) + behind;
  }

  lemma OptionalKeyRoundTrip(m: SizedBuffers, keys: seq<Bytes>, cfg: Config, unsnap: Unsnap, p: Plan,
      rest: BitString)
    requires ValidPlan(cfg, unsnap, keys, p) && Remembers(m.history, keys)
    ensures var b := (if p.entry.key.Some? then [true] + EncKey(p.entry.key.value, p.ref) else [false]) + rest;
      var flag := ReadBool(b);
      && flag.Ok? && flag.value == p.entry.key.Some?
      && var r := if flag.value then ReadKey(m, |keys|, flag.rest) else Ok(Keyed([], m), flag.rest);
         && r.Ok? && r.rest == rest && (p.entry.key.Some? ==> r.value.key == p.entry.key.value)
         && Remembers(r.value.buffers.history, KeysAfter(keys, p.entry))
  {
    hide ReadKey, EncKey, Remembers, ReadBool;
    if p.entry.key.Some? {
      var k := EncKey(p.entry.key.value, p.ref);
      assert ([true] + k) + rest == [true] + (k + rest);
      BoolRoundTrip(true, k + rest);
      KeyRoundTrip(m, keys, p.entry.key.value, p.ref, rest);
    } else {
      BoolRoundTrip(false, rest);
    }
  }

  lemma OptionalDataRoundTrip(m: SizedBuffers, cfg: Config, unsnap: Unsnap, data: Option<Bytes>,
      packed: Option<Bytes>, rest: BitString)
    requires data.Some? ==> ValidData(cfg, unsnap, data.value, packed)
    ensures var b := (if data.Some? then [true] + EncData(cfg, data.value, packed) else [false]) + rest;
      var flag := ReadBool(b);
      && flag.Ok? && flag.value == data.Some?
      && var r := if flag.value then ReadData(cfg, unsnap, m, flag.rest) else Ok(Valued([], m), flag.rest);
         && r.Ok? && r.rest == rest && (data.Some? ==> r.value.data == data.value)
         && r.value.buffers.history == m.history
  {
    hide ReadData, EncData, ReadBool;
    if data.Some? {
      var d := EncData(cfg, data.value, packed);
      assert ([true] + d) + rest == [true] + (d + rest);
      BoolRoundTrip(true, d + rest);
      DataRoundTrip(cfg, unsnap, m, data.value, packed, rest);
    } else {
      BoolRoundTrip(false, rest);
    }
  }

  lemma EntryRoundTrip(cfg: Config, unsnap: Unsnap, prev: int, keys: seq<Bytes>, m: SizedBuffers, p: Plan,
      rest: BitString)
    requires ValidPlan(cfg, unsnap, keys, p) && Remembers(m.history, keys)
    ensures var r := ReadEntry(cfg, unsnap, prev, |keys|, m, EncPlan(cfg, prev, p) + rest);
      && r.Ok? && r.rest == rest && r.value.entry == p.entry
      && r.value.count == |KeysAfter(keys, p.entry)|
      && Remembers(r.value.buffers.history, KeysAfter(keys, p.entry))
  {
    hide ReadIndex, ReadKey, ReadData, EncIndex, EncKey, EncData, Remembers, ReadBool, ValidRef, ValidData;
    var d := (if p.entry.data.Some? then [true] + EncData(cfg, p.entry.data.value, p.packed) else [false]) + rest;
    var kd := (if p.entry.key.Some? then [true] + EncKey(p.entry.key.value, p.ref) else [false]) + d;
    assert EncPlan(cfg, prev, p) + rest == EncIndex(prev, p.entry.index) + kd;
    IndexRoundTrip(prev, p.entry.index, kd);
    OptionalKeyRoundTrip(m, keys, cfg, unsnap, p, d);
    var flag := ReadBool(kd);
    var k := if flag.value then ReadKey(m, |keys|, flag.rest) else Ok(Keyed([], m), flag.rest);
    OptionalDataRoundTrip(k.value.buffers, cfg, unsnap, p.entry.data, p.packed, rest);
  }

  function EntriesOf(ps: seq<Plan>): seq<Entry>
  {
    if ps == [] then [] else [ps[0].entry] + EntriesOf(ps[1..])
  }

  lemma {:induction false} EntriesRoundTrip(cfg: Config, unsnap: Unsnap, prev: int, keys: seq<Bytes>, m: SizedBuffers,
                                            ps: seq<Plan>, rest: BitString)
    requires ValidPlans(cfg, unsnap, keys, ps) && Remembers(m.history, keys)
    ensures var r := ReadEntries(|ps|, cfg, unsnap, prev, |keys|, m, EncPlans(cfg, prev, ps) + rest);
      r.Ok? && r.rest == rest && r.value.entries == EntriesOf(ps)
    decreases |ps|
  {
    hide ReadEntry, EncPlan, Remembers, ValidPlan;
    if ps == [] {
      assert EncPlans(cfg, prev, ps) + rest == rest;
    } else {
      var p := ps[0];
      var later := EncPlans(cfg, p.entry.index, ps[1..]) + rest;
      assert EncPlans(cfg, prev, ps) + rest == EncPlan(cfg, prev, p) + later;
      EntryRoundTrip(cfg, unsnap, prev, keys, m, p, later);
      var r := ReadEntry(cfg, unsnap, prev, |keys|, m, EncPlan(cfg, prev, p) + later);
      EntriesRoundTrip(cfg, unsnap, p.entry.index, KeysAfter(keys, p.entry), r.value.buffers, ps[1..], rest);
    }
  }

  /** Whatever the table's buffers still hold from earlier updates, parsing an encoded update applies
      exactly its entries and reads nothing beyond them. */
  lemma {:induction false} UpdateRoundTrip(t: Table, unsnap: Unsnap, ps: seq<Plan>, rest: BitString)
    requires ValidPlans(t.cfg, unsnap, [], ps)
    ensures var r := ParseUpdate(t, unsnap, |ps|, EncPlans(t.cfg, -1, ps) + rest);
      && r.Ok? && r.rest == rest && r.value.cfg == t.cfg
      && r.value.items == ApplyEntries(t.items, EntriesOf(ps))
  {
    EntriesRoundTrip(t.cfg, unsnap, -1, [], t.buffers, ps, rest);
  }

  // ---- what applying entries means for one index: the first key wins, the last data wins

  /** The first entry for `index`, if any. */
  function FirstFor(es: seq<Entry>, index: int): Option<Entry>
  {
    if es == [] then None else if es[0].index == index then Some(es[0]) else FirstFor(es[1..], index)
  }

  /** The data of the last entry for `index` that carries any. */
  function LastDataFor(es: seq<Entry>, index: int): Option<Bytes>
  {
    if es == [] then None
    else
      var later := LastDataFor(es[1..], index);
      if later.Some? then later else if es[0].index == index then es[0].data else None
  }

  lemma {:induction false} ApplyEntriesAt(items: Items, es: seq<Entry>, index: int)
    ensures var r := ApplyEntries(items, es);
      && (index in r <==> index in items || FirstFor(es, index).Some?)
      && (index in r ==>
            var key := if index in items then items[index].key else FirstFor(es, index).value.key;
            var before := if index in items then items[index].data else None;
            r[index] == Item(key, if LastDataFor(es, index).Some? then LastDataFor(es, index) else before))
    decreases |es|
  {
    if es != [] {
      ApplyEntriesAt(ApplyEntry(items, es[0]), es[1..], index);
    }
  }
}
