# haste: a verified model of the replay decoder

haste reads Source 2 replays: a stream of commands that carry string tables, entity deltas and full
snapshots. This project models its decoding core in Dafny and proves what the decoder promises.

The main results:

- Parsing a demo segment by segment, one full packet at a time, reproduces the sequential parse
  (`Segments`), and seeking to a tick ends where handling every command up to it ends (`Seeking`).
- The field-path codec: the Huffman tree is optimal and depends only on the (weight, number) order,
  its flat array walks like the tree, and every list of paths survives encoding and decoding.
- Skipping a field or an entity stops at the bit where decoding it stops, so a run with a filter is the
  projection of the run without; the baseline cache is as good as parsing every baseline afresh.
- String-table updates survive encoding and decoding, the ring is the shifting history list, and the
  baseline index, which shares user data with the baseline table, is always current.
- What a record or a run must be is said from the demo alone: which calls come in which order and what they see
  (`TickEnds`, `Sights`, `SeekRecords`), what becomes of every table and setting (`RunHistories`), and what written
  commands, packets, entity messages and field values are read as (`CommandCodecs`, `PacketFraming`,
  `EntityMessages`, `FieldEncoders`), with the bit widths, codes and constants as literals.
- The type-string printer and parser undo each other; the chunked stream does not depend on the chunks;
  the broadcast fetcher delivers packets in order with bounded retries.

## How the model is built

Each format is a function of the bits that are left: `Ok(value, rest)` or `Fail`. The code that works
step by step is a class or a method with loops, and its contract says that it computes that function;
the theorems are about the functions. Inputs on which the code aborts (a path deeper than seven, an
oversized buffer, an index out of range) are failures of the model.

- `Prelude`, `Bits`, `BitLayout`, `BitReader`: bits, low bit first, with the varints and zigzag of the Protocol
  Buffers encoding ("Base 128 Varints", "Signed Integers"); the reader of the `dungers` crate is not
  part of this model. A reader is its unread bits. A failed read promises nothing about the position,
  except in the entity head, where a failed read is ignored and the position stays. A 32-bit varint has
  at most five bytes and its value is taken modulo 2^32.
- `FieldPath`, `FieldPathEditing`: the 40 operations as short programs of a few edits; `FieldPathOps` says what each
  of them means for the components of a path.
- `WeightedTrees`, `Huffman`, `FlatTree`, `FieldPathCodec`: the tree of operations. The standard
  library's heap is its contract: a pop gives some greatest element. `HuffmanOrder` and `OperationCodes` work out
  the tree of the decoder and its codes.
- `FxHash`, `HashBits`, `Serializers`, `FieldKeys`, `FieldDecoder`, `FieldReading`, `FieldEncoder`: fields, keys,
  decoders, and how every value is written. Floats are the raw parts that were read.
- `Entities`, `EntityContainer`, `EntityFilter`, `EntityBaselines`, `EntitySnapshots`: entities.
  `EntityMessage` and `WrittenEntities` write whole messages and say what reading them does.
- `StringTables`, `StringTableObjects`, `StringTableCodec`, `InstanceBaseline`, `BaselineKey`: string tables, with user
  data cells as objects because the baseline index shares them. Snappy is a function parameter.
- `Player`, `LiveContext`, `DemoParser`, `PacketFraming`, `RawCommands`, `Traces`, `Snapshots`, `Following`,
  `Segments`, `OneParser`, `Seeking`, `SeekRecords`, `FilteredRuns`, `TickEnds`, `RunHistory`, `Sights`: the player. Packets arrive as bits; what a framed message means
  is a function parameter, and the functions of `Player` take the decoded messages. Those functions give nothing for
  a run that fails; `Traces` gives the calls it made until then. `LiveContext` holds the table, index and
  entity objects and is proved to stay equal to a context value; `DemoParser` works on it. In the value the
  baseline of a class is looked up in the current tables, which is what the shared index gives (`BaselineLookup`).
- `VarTypes`, `VarTypeObjects`: type strings. Whitespace is the Unicode property White_Space, lengths
  fit 64 bits.
- `PacketChannel`, `PacketChannelStream`, `CommandCodec`: command headers and chunk reassembly. In a varint the seven-bit groups do not
  overlap, so they are added where the code uses a bitwise or.
- `Broadcast`, `FetchCount`: the relay is any function from request numbers to answers, the clock any function.

### What the visitor's record holds

Every callback is recorded with its arguments and the whole context of that moment: string tables,
entities, classes, serializers, tick interval and tick, for `on_entity` the context as its entry leaves it.
Only inside a full packet the record holds less: at its `on_cmd` neither tables nor entities, and at the
calls of its messages no entities. There a sequential run still has what the full packet has not restated
yet and a segment has not, so a visitor can see a difference.

### The hypotheses of the segment and seek theorems

They are predicates over the sequential run (`Segments.Good`, `Seeking.GoodSeek`):

- a full packet to be started from restates every item of every table under its key, and creates every
  live entity again, without switching its filter, before anything else happens to it;
- the baseline bytes of classes in the cache do not change, and neither does the tick interval once a
  baseline is cached;
- tables are created only in signon packets, and signon packets come before ordinary and full packets
  (for a seek: before the sync tick);
- other string updates are self-contained: they refer only to history entries of the same update;
- for a seek, ticks never decrease, full packets with another one ahead restate the string tables, no tick
  interval is announced after the sync tick, and the full packet that the seek handles creates every entity
  index at which what lived at the sync tick is out of date.

The remaining conditions are exact. The records of segments parsed each on its own agree with the run if and
only if the tick interval in force at every later full packet is the one the init commands set
(`Segments.IntervalsInForce`): a segment warms up on signon packets alone. A parser that is asked for the
segments in turn keeps the interval, so only an announced one must be in force (`OneParser.AnnouncedInForce`).
The seek ends with the entities of the run if and only if a full packet after the sync tick lies at most
1800 * r + 100 ticks before the target, with r the ratio of the interval announced last (`Seeking.Reach`), or nothing
follows the sync tick, or the run ends with what lived there (`Seeking.SeekArrivesIff`).

The partition of the commands into segments needs none of these. The documentation of
`run_full_packet` promises an exact reproduction without naming them. `Segments.InitInPacketBreaksSegments` is a
demo on which its condition on tick intervals fails and every hypothesis holds, `Seeking.SeekMissesCreate` one for
the condition of the seek.

The documentation of the baseline index says that a missing baseline decodes to an entity with default
values. An empty baseline has no bits for the end of its field paths, so a tracked create fails
(`EntityBaselines.MissingBaselineFails`).

The key of a parsed field is meant to match that of its textual path. A field below an element of a fixed
array is kept under the hash of its index instead of its name, because the element is a clone that still
counts as an array (`FieldKeys.KeyAgreement`).

The chunked reader asks for fifteen bytes before every command header, so it loses a last command that
ends closer than that to the end of the file; the exact condition is `PacketChannels.PlayAgreesIff`.

## Model

| member | source | states |
|---|---|---|
| `DemoParsers.Parser.RunToEnd` | crates/haste_core/src/parser.rs:301-325 | handles every command in order; context and visitor record are those of the sequential run, and it succeeds only when the stream ends where its last command does; of a run that fails the visitor has recorded exactly the calls before the failure |
| `DemoParsers.Parser.Dispatch` | crates/haste_core/src/parser.rs:287-299 | a taken command is read, shown, applied, and `on_tick_end` follows exactly when the tick changed; a skipped one only moves the stream; an ignored one does nothing |
| `DemoParsers.Parser.HandleCmd` | crates/haste_core/src/parser.rs:287-397 | `on_cmd`, then the body, then `on_tick_end` if the tick is new |
| `DemoParsers.Parser.HandleCmdBody` | crates/haste_core/src/parser.rs:332-397 | per command kind the new context and the calls, including serializers and classes that are already known and a class info that fails to index the baselines |
| `DemoParsers.Parser.HandleCmdPacket` | crates/haste_core/src/parser.rs:399-449 | the packet is framed, decoded, shown and applied message by message, so bits that frame no message, or a message that fails, leave the calls of the messages before; entity messages are passed over while warming up |
| `DemoParsers.Parser.HandleCmdFullPacket` | crates/haste_core/src/parser.rs:599-627 | string tables first, which fail without entity classes, then the packet, with the calls also of a failure |
| `LiveContexts.LiveContext.HandleCreateStringTable` | crates/haste_core/src/parser.rs:453-488 | the new table object holds what its bits say and the shared index follows it; succeeds exactly when the name is free, the data decompresses and parses and, for the baseline table, its keys can be indexed |
| `LiveContexts.LiveContext.HandleUpdateStringTable` | crates/haste_core/src/parser.rs:490-518 | one table changes in place and the shared index follows; fails exactly on an unknown id, on bits that do not parse, and on baseline keys that cannot be indexed |
| `DemoParsers.Parser.HandleSvcEntity` | crates/haste_core/src/parser.rs:537-593 | one entry of the message: the head, then the delta, then what the visitor is shown, or the failure before it |
| `DemoParsers.Parser.HandleSvcPacketEntities` | crates/haste_core/src/parser.rs:522-597 | fails without classes or serializers; otherwise entry by entry the entity objects change and `on_entity` sees the context of that moment; the entities afterwards are those of the bits, and the entries before a failing one were shown |
| `EntityMessages.MessageIsRead` | crates/haste_core/src/parser.rs:522-597 | a whole message of written entries: ascending indices as distances, headers as two literal bits, a class id and a serial number of 17 bits for a create, field paths and then field values; reading it gives the entities that follow entry by entry, the events, and consumes exactly its bits |
| `EntityMessages.EntryIsRead` | crates/haste_core/src/entities.rs:491-591 | one written entry: a tracked create gives the baseline with the changes and caches it, an untracked one is remembered as skipped, an update changes the fields it names and no other, leaving and deleting forget the index |
| `EntityMessages.DeltaIsRead` | crates/haste_core/src/entities.rs:174-200 | the four headers bit by bit: update false false, leave true false, create false true, delete true true |
| `EntityMessages.HeadIsRead` | crates/haste_core/src/entities.rs:504-513 | class id in the bits of the classes, 17 bits of serial number and a varint are read; class and serializer are those of the id |
| `EntityMessages.ChangesAreRead` | crates/haste_core/src/entities.rs:217-293 | written paths and values are parsed to the fields with each value under the key of its field, and skipped to the same bit |
| `EntityMessages.BaselineIsRead` | crates/haste_core/src/entities.rs:529-545 | a baseline that holds written fields, with any bits behind them, is parsed to these fields |
| `WrittenEntities.PacketEntitiesIsRead` | crates/haste_core/src/parser.rs:522-597 | the player on a written message, whatever pads it: the entities become those of its entries and nothing else changes; after `on_packet` the visitor is shown what each entry tells, with the entities as that entry leaves them |
| `LiveContexts.LiveContext.HandleEntity` | crates/haste_core/src/parser.rs:537-593 | one entry against the entity objects and the shared index gives what the value semantics gives with the baselines looked up in the current tables |
| `LiveContexts.LiveContext.HandleFullUpdate` | crates/haste_core/src/parser.rs:599-616 | the tables of a full packet in place, then the index; fails exactly without classes or on keys that cannot be indexed |
| `LiveContexts.LiveContext.HandleClassInfo` | crates/haste_core/src/parser.rs:356-384 | classes are taken once, and from then on the index is that of the tables |
| `LiveContexts.LiveContext.HandleServerInfo` | crates/haste_core/src/parser.rs:429-441 | a tick interval, if there is one, is taken together with the full packet interval that follows from it |
| `DemoParsers.Parser.Reset` | crates/haste_core/src/parser.rs:685-696 | forgets entities, tables, baselines and ticks, keeps serializers, classes and intervals, and rewinds, also after a failed run |
| `DemoParsers.Parser.RunFullPacket` | crates/haste_core/src/parser.rs:808-861 | the segment of one full packet: warm-up unrecorded and without entity decoding, then everything up to the next full packet, whose header is unread; a visitor that an earlier call left silent misses, in the first segment, exactly the calls before its full packet, and is silent afterwards exactly when the full packet was not there; a segment that fails has recorded exactly the calls before |
| `DemoParsers.Parser.RunToTick` | crates/haste_core/src/parser.rs:698-768 | the seek: all commands to the sync tick, then skipping but for full packets, of which the ones with another ahead give only string tables; recorded up to a failure |
| `DemoParsers.Parser.ApplyFullPacket` | crates/haste_core/src/parser.rs:728-758 | the full packet branch of the seek handler, `on_tick_end` included |
| `DemoParsers.Parser.ScanFullPacketTicks` | crates/haste_core/src/parser.rs:777-794 | the ticks of all full packets in file order, with the stream rewound |
| `TickEnds.RunEndsTicks` | crates/haste_core/src/parser.rs:287-299 | of every run that gets through, read off the record alone: one block per command of the file, with its tick and the one before it: `on_cmd`, the calls for its messages, and then exactly one `on_tick_end`, at that tick and with the whole context, if the tick differs from the one before, and none otherwise |
| `TickEnds.SegmentEndsTicks` | crates/haste_core/src/parser.rs:287-299 | the same for a segment and the commands it collects |
| `TickEnds.SeekInBlocks` | crates/haste_core/src/parser.rs:698-768 | the same for a seek, where a full packet after the sync tick ends its tick in any case |
| `TickEnds.CommandAfterEnd` | crates/haste_core/src/parser.rs:287-325 | after `on_tick_end` the next call, if there is one, is `on_cmd` |
| `Sights.RunShows` | crates/haste_core/src/parser.rs:399-449 | a run that gets through shows every message of every packet once, in file order and at the tick of its command; a created or updated entity that is shown is found under its index in the context shown with it, one that left is not |
| `Sights.RunSeesBefore` | crates/haste_core/src/parser.rs:327-412 | the record begins with the calls of the run over the commands before any given one, its `on_cmd`, the calls for its messages before any given one, and `on_packet` of that one: both see the context as everything before left it, without the command or message itself |
| `RunHistories.RunLeaves` | crates/haste_core/src/parser.rs:301-627 | what a run that gets through leaves, as a function of the demo: the first serializers and the first classes there were, the interval announced last and 1800 times its ratio, and of each string table, by its place in the order of creation, what the updates under its number and the snapshots of its name make of it; without entity messages the entities stay |
| `Segments.SegmentsPartition` | crates/haste_core/src/parser.rs:796-861 | for every demo with a full packet, the commands collected by the segments, concatenated, are all commands in file order with the tick and previous tick of the sequential run; no hypothesis on the contents |
| `Segments.SegmentShowsCollected` | crates/haste_core/src/parser.rs:808-861 | a segment that runs through shows the visitor exactly the commands it collects, with the ticks in force |
| `Segments.SegmentsReproduceRun` | crates/haste_core/src/parser.rs:796-861 | under the snapshot hypotheses the visitor records of the segments, each parsed on its own and concatenated, equal that of one sequential run if and only if at every full packet but the first the tick interval in force is the one the init commands set |
| `Segments.SegmentsFollow` | crates/haste_core/src/parser.rs:817-856 | the induction behind it: one segment collecting in step with the run while the later ones warm up |
| `Segments.InitInPacketBreaksSegments` | crates/haste_core/src/parser.rs:844-853 | the condition is needed: for any two different tick intervals, one in force at the start and one announced in an ordinary packet, a demo that meets every other hypothesis and on which the concatenation differs from the run |
| `OneParser.InTurnReproducesRun` | crates/haste_core/src/parser.rs:685-861 | one parser asked for the segments in turn, each call starting from the serializers, classes and intervals that the one before left: the records equal that of the run if and only if the signon packets announce no tick interval, or the one in force at every full packet after the first is the last they announce |
| `OneParser.InTurnKeepsLateInfo` | crates/haste_core/src/parser.rs:685-696 | on the demo of the counterexample one parser in turn shows what the run shows |
| `Traces.RunShownSplits` | crates/haste_core/src/parser.rs:301-325 | what a run over a part of a demo shows, failing or not, is a prefix of what the run over all shows; a run that gets through the part goes on from its context, one that fails there shows nothing more |
| `Traces.RunShownIs` | crates/haste_core/src/parser.rs:301-325 | of a run that gets through, what is shown is all its calls |
| `Traces.SegmentShownIs` | crates/haste_core/src/parser.rs:817-856 | the same for a segment |
| `Traces.SeekShownIs` | crates/haste_core/src/parser.rs:712-767 | the same for a seek |
| `Following.FullPacketCatchesUp` | crates/haste_core/src/parser.rs:618-627 | a snapshot full packet brings a context that lagged behind in step with the sequential one, with the same calls |
| `Following.HandleInStep` | crates/haste_core/src/parser.rs:287-397 | in step, every command does the same to both contexts and shows the visitor the same, the whole context included |
| `Following.WarmFollows` | crates/haste_core/src/parser.rs:843-855 | the warm-up keeps what a later full packet relies on: init state, and of the tables only items the run has too |
| `Snapshots.SnapshotsAgree` | crates/haste_core/src/stringtables.rs:372-378 | after snapshots that restate every item it does not matter what the tables held before |
| `Snapshots.FullUpdatesAt` | crates/haste_core/src/stringtables.rs:372-378 | each table takes exactly the snapshots of its name, in order |
| `Snapshots.EncodedSelfContained` | crates/haste_core/src/stringtables.rs:186-204 | an update whose keys refer only to entries of the same update says the same whatever the buffers hold |
| `EntitySnapshots.EntriesAgree` | crates/haste_core/src/entities.rs:491-591 | two containers that agree outside some pending indices agree everywhere once every pending index was created again, with the same events and bits |
| `EntitySnapshots.CacheGrows` | crates/haste_core/src/entities.rs:523-546 | a cached baseline is never overwritten or dropped |
| `Seeking.SeekEqualsPrefix` | crates/haste_core/src/parser.rs:698-768 | if a full packet near the target follows the sync tick, or nothing does, `run_to_tick` ends with the entities, skipped serializers, string tables, baselines, intervals and tick of handling, in order, every command with a tick up to the target |
| `Seeking.SeekEnds` | crates/haste_core/src/parser.rs:698-768 | told from the demo: if nothing follows the sync tick, or a full packet after it lies near the target, the seek ends in the state of the run, and else with the entities of the sync tick |
| `Seeking.SeekByAnnounced` | crates/haste_core/src/parser.rs:728-734 | in numbers: with r the ratio of the interval announced last before the sync tick, near means at most 1800 * r + 100 ticks before the target |
| `SeekRecords.SeekRecord` | crates/haste_core/src/parser.rs:712-767 | of every seek that succeeds, told from the demo: the visitor is shown every command up to the sync tick, then every full packet, and any other command only while the last full packet passed is near the target, each at its tick and in blocks |
| `Seeking.SeekArrivesIff` | crates/haste_core/src/parser.rs:728-758 | the entities after the seek are those of the run if and only if a full packet near the target follows the sync tick, or nothing does, or the run ends with what lived at the sync tick |
| `Seeking.SeekMissesCreate` | crates/haste_core/src/parser.rs:728-734 | a demo that meets every other hypothesis and on which seek and run differ |
| `PacketFraming.PacketRoundTrip` | crates/haste_core/src/parser.rs:399-408 | packing messages, padding with up to eight bits and reading gives the messages back and leaves the padding |
| `PacketFraming.NineBitsFail` | crates/haste_core/src/parser.rs:403-408 | nine to thirteen bits are no padding and too short for a message: the packet fails |
| `PacketFraming.LargeMessageFails` | crates/haste_core/src/parser.rs:403-408 | a message of more than 2097152 bytes does not fit the buffer and fails, whatever follows |
| `RawCommands.MessagesOfPacked` | crates/haste_core/src/parser.rs:399-446 | decoding a packet of packed messages, with padding of up to eight bits, gives their meanings in order |
| `RawCommands.MessagesOfPacket` | crates/haste_core/src/parser.rs:399-446 | a packet that reads as a whole holds its messages decoded one by one; of any other the messages that could be framed come before the failure |
| `Huffman.BuildHierarchy` | crates/haste_core/src/fieldpath.rs:670-700 | repeated popping, joining and pushing on a heap gives the tree determined by the (weight, number) order alone |
| `Huffman.MergeHeap` | crates/haste_core/src/fieldpath.rs:687-699 | the loop, for any heap contents |
| `Huffman.BinaryHeap.Pop` | crates/haste_core/src/fieldpath.rs:646-654 | a pop gives an element that none is above, and only that one leaves |
| `Huffman.PoppedIsHead` | crates/haste_core/src/fieldpath.rs:646-668 | whatever the layout of the heap, the popped element is the head of the sorted list |
| `Huffman.HierarchyOptimal` | crates/haste_core/src/fieldpath.rs:670-700 | the tree has the described weights at its leaves and, among all trees with these leaves, minimum total weight times depth |
| `HuffmanOrders.TreeIsLast` | crates/haste_core/src/fieldpath.rs:670-700 | any list of nodes in the order of weight and number that holds the described leaves and joins its nodes two by two ends with the tree |
| `OperationCodes.TreeOfDecoder` | crates/haste_core/src/fieldpath.rs:440-600 | the tree of the decoder is the last of 79 nodes whose weights, numbers and order are given as literals |
| `OperationCodes.OperationIsRead` | crates/haste_core/src/fieldpath.rs:440-600 | every operation of the table is read from its code, and the codes of the twenty most frequent are given as literal bits |
| `OperationCodes.DecoderReadsSteps` | crates/haste_core/src/fieldpath.rs:742-792 | any list of operations with the numbers they take, written with these codes, is read as the paths that the operations mean, step by step from the start path, and exactly these bits are consumed |
| `WeightedTrees.Exchange` | crates/haste_core/src/fieldpath.rs:646-700 | the two lightest weights can be made siblings at no cost |
| `WeightedTrees.CostIsWeightedDepth` | crates/haste_core/src/fieldpath.rs:670-700 | the sum of the weights of the joins is the sum of weight times depth |
| `FlatTrees.FlattenBranch` | crates/haste_core/src/fieldpath.rs:727-737 | appends one entry per branch in post-order; the array represents the tree, every index below its parent's |
| `FlatTrees.FlattenChild` | crates/haste_core/src/fieldpath.rs:720-725 | a leaf stays in its parent; a branch becomes an index below the end of the array |
| `FlatTrees.FlatWalkIsWalk` | crates/haste_core/src/fieldpath.rs:758-791 | walking the array reads the same bits and reaches the same operation as walking the tree |
| `FlatTrees.FlatWalkCost` | crates/haste_core/src/fieldpath.rs:758-791 | an operation costs at most as many bits as the index it starts from, plus one |
| `FlatTrees.CodeRoundTrip` | crates/haste_core/src/fieldpath.rs:758-791 | the bits on the way to an operation lead to it |
| `FlatTrees.HuffmanHolds` | crates/haste_core/src/fieldpath.rs:670-700 | every described operation has a code |
| `FieldPathCodec.BuildFlatTree` | crates/haste_core/src/fieldpath.rs:670-737 | building and flattening together |
| `FieldPathCodec.WalkFlat` | crates/haste_core/src/fieldpath.rs:768-789 | the inner loop of the reader: one operation |
| `FieldPathCodec.ReadFieldPaths` | crates/haste_core/src/fieldpath.rs:742-792 | the paths of the bits in the buffer and their number; failure when bits or buffer run out or an operation fails |
| `FieldPathCodec.FieldPathsRoundTrip` | crates/haste_core/src/fieldpath.rs:307-318 | every list of paths of one to seven byte components that fits, encoded step by step as a pop or push and closed by the finish operation, reads back exactly and consumes exactly its bits, over the tree of any weight table |
| `FieldPathCodec.StepRoundTrip` | crates/haste_core/src/fieldpath.rs:385-393 | from any path to any other in one operation |
| `FieldPathCodec.DescriptorsComplete` | crates/haste_core/src/fieldpath.rs:440-600 | the forty operations of the table, with the ones the codec needs among them |
| `FieldPaths.ApplyAllClean` | crates/haste_core/src/fieldpath.rs:37-58 | an operation leaves the slots above the last one zero |
| `FieldPathCodec.ReadPathsClean` | crates/haste_core/src/fieldpath.rs:742-792 | in every path that is ever read, the slots above the last one are zero |
| `FieldPathEditing.FieldPath.Run` | crates/haste_core/src/fieldpath.rs:83-427 | each operation edits the path as its description says; it fails where the code aborts |
| `FieldPathOps.OperationMeans` | crates/haste_core/src/fieldpath.rs:83-427 | for each of the forty operations, any path and any numbers it takes: reading the written numbers gives the components meant (how many are dropped, what is added to which, what is pushed), modulo 256, and consumes exactly them; it fails exactly where fewer than one or more than seven components would be left |
| `FieldPathEditing.FieldPath.IncAt` | crates/haste_core/src/fieldpath.rs:40-46 | one component grows, wrapping at a byte |
| `FieldPathEditing.FieldPath.Push` | crates/haste_core/src/fieldpath.rs:48-51 | one more component; fails at the eighth |
| `FieldPathEditing.FieldPath.Pop` | crates/haste_core/src/fieldpath.rs:53-58 | drops components and zeroes their slots; fails below zero |
| `FxHash.AddToHashInjective` | crates/haste_core/src/fxhash.rs:62-65 | injective in the hash and in the value, modulo 2^64 |
| `FxHash.AddAllInjective` | crates/haste_core/src/fxhash.rs:62-65 | different hashes stay different through any common suffix |
| `FxHash.HashBytesLoop` | crates/haste_core/src/fxhash.rs:79-90 | the loop folds all bytes from zero |
| `HashBits.StepOnBits` | crates/haste_core/src/fxhash.rs:59-65 | one step, bit by bit: the 64 bits of the hash moved up by five around the word, each flipped where the value has a bit, times 0x517cc1b727220a95 modulo 2^64 |
| `HashBits.HashIsSteps` | crates/haste_core/src/fxhash.rs:79-90 | the hash of no bytes is zero, and of one byte more one step more |
| `FieldKeys.ArrayKeysDistinct` | crates/haste_core/src/entities.rs:236-271 | two different indices of one array, followed by any common path, reach the same field under different keys |
| `FieldKeys.KeyAgreement` | crates/haste_core/src/entities.rs:138-156 | for every path: the key of a parsed field is that of its textual path if no step below an element of a fixed array has an index that hashes unlike the name, and is not if exactly one has |
| `FieldKeys.KeyAgreementOff` | crates/haste_core/src/entities.rs:138-156 | off the elements of fixed arrays the keys agree whatever the names |
| `FieldKeys.FixedElementKeyDiffers` | crates/haste_core/src/entities.rs:236-271 | a fixed array whose child is kept under another key than that of its textual path, for every one-byte name but one |
| `FieldKeys.FkeyFromPathLoop` | crates/haste_core/src/entities.rs:138-156 | the loop folds the hashes of the parts |
| `FieldKeys.SendNodeKey` | crates/haste_core/src/flattenedserializers.rs:129-155 | a field with a send node has the key of the path of its dot-separated parts and its own name; one without, or with an empty one, that of its name alone |
| `Serializers.ParseSendTables` | crates/haste_core/src/flattenedserializers.rs:270-369 | fails exactly on an unknown field index; otherwise every field is built once from its message, with the serializers known when a serializer first uses it, and shared from then on |
| `Serializers.ParseOne` | crates/haste_core/src/flattenedserializers.rs:296-362 | one serializer: its fields in order, the remembered ones shared, the others built now and remembered |
| `Serializers.KnownGood` | crates/haste_core/src/flattenedserializers.rs:270-369 | every parsed serializer is well formed, and under a name is what the last message of that name describes |
| `Serializers.MakeFieldGood` | crates/haste_core/src/flattenedserializers.rs:93-176 | the keys and the child tree of a field, by its kind of array or pointer, with as many clones as the array is long |
| `Serializers.LocateLoop` | crates/haste_core/src/entities.rs:229-281 | descends to the field of a path and builds its key on the way |
| `FieldDecoders.SkipAgreesWithDecode` | crates/haste_core/src/fielddecoder.rs:122-864 | for every decoder and input, decoding, skipping and counting stop at the same bit or all fail, and the count is the distance |
| `FieldDecoders.QuantizedAgrees` | crates/haste_core/src/quantizedfloat.rs:247-309 | the same for quantized floats with any combination of flags |
| `FieldDecoders.PreciseAgrees` | crates/haste_core/src/fielddecoder.rs:716-769 | the same for the three flagged angles |
| `FieldEncoders.ValueRoundTrip` | crates/haste_core/src/fielddecoder.rs:122-864 | for every decoder and every value it can give: the value, written with literal widths in its order of components, is decoded to that value and exactly its bits are consumed |
| `FieldEncoders.CoordRoundTrip` | crates/haste_core/src/bitreader.rs:141-176 | the same for a coordinate: whether there is a whole part and a fraction, the sign, 14 bits and 5 bits |
| `FieldEncoders.NormalRoundTrip` | crates/haste_core/src/bitreader.rs:178-194 | the same for a component of a normal: the sign and 11 bits |
| `FieldEncoders.QuantizedRoundTrip` | crates/haste_core/src/quantizedfloat.rs:247-309 | the same for quantized floats with any flags: the low end, the high end and zero in this order, each by one set bit |
| `FieldEncoders.PreciseRoundTrip` | crates/haste_core/src/fielddecoder.rs:716-769 | the same for the three flagged angles |
| `FieldReading.DecodeFrom` | crates/haste_core/src/fielddecoder.rs:122-864 | the decoders as they advance the reader |
| `FieldReading.SkipIn` | crates/haste_core/src/fielddecoder.rs:122-864 | the counting skips as they advance the reader |
| `FieldReading.SkipQuantizedIn` | crates/haste_core/src/quantizedfloat.rs:283-309 | flags read one by one, then the rest skipped, with the count |
| `FieldReading.SkipStringIn` | crates/haste_core/src/fielddecoder.rs:276-286 | byte by byte up to the terminator, with the count |
| `FieldReading.ReadBitcoordFrom` | crates/haste_core/src/bitreader.rs:141-176 | two flags, then sign and parts as they say |
| `FieldReading.ReadBitvec3normalFrom` | crates/haste_core/src/bitreader.rs:216-242 | two optional components and the sign of the third |
| `BitReaders.BitReader.ReadUbitvar` | crates/haste_core/src/bitreader.rs:126-135 | six bits, and none, 4, 8 or 28 more |
| `BitReaders.BitReader.ReadUbitvarfp` | crates/haste_core/src/bitreader.rs:309-323 | up to four flags choose a width of 2, 4, 10, 17 or 31 |
| `BitReaders.BitReader.ReadString` | crates/haste_core/src/bitreader.rs:261-294 | the characters and a NUL at a place in the buffer, the rest of it untouched; fails, with the string read to its end, when it is full; in line mode a newline ends the string too |
| `BitReaders.BitReader.ReadStringToEnd` | crates/haste_core/src/bitreader.rs:296-307 | the characters up to the NUL or, in line mode, the newline |
| `Bits.UbitvarRoundTrip` | crates/haste_core/src/bitreader.rs:126-135 | every 32-bit value reads back |
| `Bits.UbitvarfpRoundTrip` | crates/haste_core/src/bitreader.rs:309-323 | every 31-bit value reads back |
| `Bits.Uvarint32RoundTrip` | crates/haste_core/src/bitreader.rs:91-94 | every 32-bit value reads back (Protocol Buffers encoding, "Base 128 Varints") |
| `Bits.Uvarint64RoundTrip` | crates/haste_core/src/bitreader.rs:96-99 | every 64-bit value reads back |
| `Bits.Varint32RoundTrip` | crates/haste_core/src/bitreader.rs:101-104 | every signed 32-bit value reads back (Protocol Buffers encoding, "Signed Integers") |
| `Bits.TextRoundTrip` | crates/haste_core/src/bitreader.rs:261-307 | every string reads back up to the first NUL and, in line mode, up to the first newline, whichever ended it |
| `BitLayouts.LowBitFirst` | crates/haste_core/src/bitreader.rs:51-53 | bit `i` of a number that is read is the bit at distance `i` |
| `BitLayouts.UbitvarLayout` | crates/haste_core/src/bitreader.rs:126-135 | the four forms bit by bit: four low bits, two that choose 0, 4, 8 or 28 more, and these |
| `BitLayouts.UbitvarfpLayout` | crates/haste_core/src/bitreader.rs:309-323 | the five forms bit by bit: the flags and the bits they announce |
| `BitLayouts.SignedLayout` | crates/haste_core/src/bitreader.rs:101-104 | even numbers stand for 0, 1, 2, ... and odd ones for -1, -2, ... |
| `BitLayouts.Signed64Layout` | crates/haste_core/src/bitreader.rs:106-109 | the same for 64 bits |
| `Entities.SkipEntityAgrees` | crates/haste_core/src/entities.rs:366-394 | skipping an entity succeeds exactly when parsing it does and stops at the same bit, for every serializer tree |
| `EntityContainers.ParseInto` | crates/haste_core/src/entities.rs:217-293 | the entity's fields become those of the bits, each value under the key of its path |
| `EntityContainers.SkipEntityFields` | crates/haste_core/src/entities.rs:366-394 | the reader passes the entity |
| `EntityContainers.EntityContainer.HandleCreate` | crates/haste_core/src/entities.rs:491-552 | head, filter, cached or fresh baseline, delta: the new container, or failure |
| `EntityContainers.EntityContainer.HandleUpdate` | crates/haste_core/src/entities.rs:574-591 | skipped, known and unknown indices; neither a sibling nor a cached baseline changes |
| `EntityContainers.EntityContainer.HandleRemove` | crates/haste_core/src/entities.rs:558-569 | the index is forgotten, and the entity that was there is returned |
| `EntityContainers.HandleOne` | crates/haste_core/src/parser.rs:537-593 | one entry: the container follows, and what the visitor is shown is returned |
| `EntityFilter.FilteredRunIsProjection` | crates/haste_core/src/entities.rs:491-591 | from an empty container, for any filter and any run in which no create switches: the run succeeds if and only if the filtered one does and every untracked create had a baseline that parses, and then tracked entities are equal, the others keep their serializer, both maps are disjoint, and exactly the tracked events are shown |
| `FilteredRuns.FilteredRun` | crates/haste_core/src/parser.rs:301-597 | the same over whole demos, from any state of the parser: with the filter the player gets through if it does without, and the other way round exactly if every untracked create had a baseline that parses; then the visitor is shown the same calls in the same order less those for untracked entities, each with the same context less the untracked entities |
| `EntityFilter.EntriesProject` | crates/haste_core/src/parser.rs:537-593 | the same entry by entry, at the same bit, with the same condition |
| `EntityFilter.CreateKeepsDisjointIff` | crates/haste_core/src/entities.rs:519-551 | a create keeps the two maps disjoint if and only if the other map does not hold the index |
| `EntityBaselines.CacheRefinesRecomputation` | crates/haste_core/src/entities.rs:523-552 | if the baseline bytes of cached classes and the tick interval stay, the run with the cache is the run that parses every baseline afresh |
| `EntityBaselines.CreateRefines` | crates/haste_core/src/entities.rs:523-552 | each created entity is its baseline parsed afresh followed by the delta, under its own index |
| `EntityBaselines.MissingBaselineFails` | crates/haste_core/src/entities.rs:523-546 | a tracked create of a class that is neither cached nor in the baseline table fails, whatever its delta |
| `EntityContainers.EntityContainer.BaselineEntity` | crates/haste_core/src/entities.rs:523-546 | the cached entity, or one parsed now and then cached |
| `StringTableCodec.UpdateRoundTrip` | crates/haste_core/src/stringtables.rs:132-283 | for any entries the wire can tell, fixed-size data of any number of bits and compressed data included, any valid history references and whatever the buffers hold, parsing the encoded update gives the fold of the entries and consumes exactly its bits |
| `StringTableCodec.FixedDataRoundTrip` | crates/haste_core/src/stringtables.rs:223-226 | fixed-size data of any bit width reads back, cut to the size of the table; a table wider than its bits gets stale bytes of the user buffer behind them |
| `StringTableCodec.SizedDataRoundTrip` | crates/haste_core/src/stringtables.rs:227-252 | data of any size that the count can tell reads back; written compressed, it is what the bytes decompress to |
| `StringTableCodec.LargeDataFails` | crates/haste_core/src/stringtables.rs:237-244 | data of more than 131072 bytes, compressed or not, does not fit the buffer and fails |
| `StringTableCodec.ApplyEntriesAt` | crates/haste_core/src/stringtables.rs:257-279 | of that fold: the first key of an index wins, the last data wins |
| `StringTableCodec.RingRefinesList` | crates/haste_core/src/stringtables.rs:186-214 | after any number of pushes every valid reference reads from the ring what the list that drops its oldest holds there |
| `StringTableCodec.KeyRoundTrip` | crates/haste_core/src/stringtables.rs:176-218 | a key sharing a prefix with a history entry, or none, reads back and is remembered |
| `StringTableCodec.LongKeyFails` | crates/haste_core/src/stringtables.rs:176-210 | a key of 1024 characters or more fails, however it is written |
| `StringTableObjects.StringTable.ParseUpdate` | crates/haste_core/src/stringtables.rs:132-283 | items, history and buffers are those of the bits; no item loses its key, no cell its identity |
| `StringTableObjects.StringTable.ApplyItem` | crates/haste_core/src/stringtables.rs:257-279 | a cell that is there is written in place; otherwise a new one is made |
| `StringTableObjects.StringTable.ReadKeyFrom` | crates/haste_core/src/stringtables.rs:176-218 | the key in the string buffer and in the next slot of the ring |
| `StringTableObjects.StringTable.ReadSizedDataFrom` | crates/haste_core/src/stringtables.rs:227-252 | flag, size, bytes, decompression |
| `StringTableObjects.StringTable.ReadFixedDataFrom` | crates/haste_core/src/stringtables.rs:223-226 | the fixed number of bits and of bytes |
| `StringTableObjects.StringTable.DoFullUpdate` | crates/haste_core/src/stringtables.rs:285-314 | item by item a new cell under the old key |
| `StringTables.FullUpdateItems` | crates/haste_core/src/stringtables.rs:297-313 | exactly the restated indices change; known ones keep their key |
| `InstanceBaselines.InstanceBaseline.Update` | crates/haste_core/src/instancebaseline.rs:16-35 | for every class some item names, the index shares the cell of such an item, whatever the order of the visit; other slots stay; succeeds if and only if every textual key is the number of a slot |
| `InstanceBaselines.InstanceBaseline.Clear` | crates/haste_core/src/instancebaseline.rs:58-60 | the index is empty |
| `BaselineKeys.KeyNamesClass` | crates/haste_core/src/instancebaseline.rs:26-32 | the decimal text of any class id, with or without a sign and leading zeros, names that class |
| `BaselineKeys.ClassIsWritten` | crates/haste_core/src/instancebaseline.rs:26-32 | and nothing else names a class: a key that names one is such a text of a number that fits 32 bits |
| `BaselineKeys.ScalarsAreText` | crates/haste_core/src/instancebaseline.rs:26-30 | characters written as UTF-8 (section 3 of RFC 3629) are text, so a key of them that is no number stops the update |
| `BaselineKeys.TextIsScalars` | crates/haste_core/src/instancebaseline.rs:26-30 | any other key is passed over: one that is not is the UTF-8 of some characters |
| `InstanceBaselines.TableContext.ByIdIsItemData` | crates/haste_core/src/instancebaseline.rs:46-52 | while coherent, looking a class up gives the current user data of an item that names it, of the item if there is one only |
| `InstanceBaselines.TableContext.ByIdIsEmpty` | crates/haste_core/src/instancebaseline.rs:37-52 | and nothing for a class that no item names |
| `BaselineLookup.LookupIsIndex` | crates/haste_core/src/instancebaseline.rs:46-60 | in every coherent state in which each class is named once, for every class id, the shared index gives the bytes that a lookup in the current tables gives, or none |
| `InstanceBaselines.TableContext.HandleClassInfo` | crates/haste_core/src/parser.rs:356-384 | coherence begins; succeeds exactly when the keys can be indexed |
| `InstanceBaselines.TableContext.HandleCreateStringTable` | crates/haste_core/src/parser.rs:453-488 | coherence holds after a new table; succeeds exactly when it parses and the keys can be indexed |
| `InstanceBaselines.TableContext.HandleUpdateStringTable` | crates/haste_core/src/parser.rs:490-518 | coherence holds after cells are written in place and new items are added; succeeds exactly when the update parses and the keys can be indexed |
| `InstanceBaselines.TableContext.HandleFullUpdate` | crates/haste_core/src/parser.rs:599-616 | coherence holds after cells are replaced; the tables are those of the snapshots; succeeds exactly when classes are known and the keys can be indexed |
| `InstanceBaselines.TableContext.Reset` | crates/haste_core/src/parser.rs:685-696 | coherence holds after clearing |
| `VarTypes.PrintThenParse` | crates/haste_vartype/src/parser.rs:57-110 | every well-formed expression, printed with any whitespace between the tokens, parses back |
| `VarTypes.ParseThenPrint` | crates/haste_vartype/src/parser.rs:57-110 | a text that parses gives a well-formed expression, starts with exactly the tokens of its printing up to leading zeros in lengths, and then ends or goes on with an unmatched bracket |
| `VarTypes.LexOfText` | crates/haste_vartype/src/tokenizer.rs:82-104 | tokens written out with any gaps tokenize back |
| `VarTypes.LexGivesTokens` | crates/haste_vartype/src/tokenizer.rs:33-76 | every token of a text is well formed |
| `VarTypes.LexOfCharacter` | crates/haste_vartype/src/tokenizer.rs:82-104 | by code point: which characters are a name, a numeral, one of the five marks, whitespace, or no token |
| `VarTypes.LexContinues` | crates/haste_vartype/src/tokenizer.rs:33-39 | a name goes on with exactly the ASCII letters, digits and the underscore |
| `VarTypeObjects.Tokenizer.NextToken` | crates/haste_vartype/src/tokenizer.rs:82-104 | the cursor passes exactly the next lexeme, if there is one |
| `VarTypeObjects.Tokenizer.EatWhile` | crates/haste_vartype/src/tokenizer.rs:56-80 | the cursor passes the longest run |
| `VarTypeObjects.Parser.NextToken` | crates/haste_vartype/src/parser.rs:38-44 | the pushed back token first |
| `VarTypeObjects.Parser.ExpectToken` | crates/haste_vartype/src/parser.rs:46-55 | the wanted token, or the error of what is there instead |
| `VarTypeObjects.Parser.Parse` | crates/haste_vartype/src/parser.rs:57-105 | the expression and what is left, the closing bracket pushed back |
| `VarTypeObjects.ParseType` | crates/haste_vartype/src/parser.rs:108-110 | the whole text |
| `PacketChannelStreams.ReadBoth` | crates/haste_core/src/packet_channel_demo_stream.rs:56-231 | any two splittings of the same bytes, empty chunks included, give the same commands and the same outcome |
| `PacketChannelStreams.PacketChannelDemoStream.EnsureBytes` | crates/haste_core/src/packet_channel_demo_stream.rs:56-87 | the unread bytes stay; it succeeds exactly when so many are to come, and then they are here |
| `PacketChannelStreams.PacketChannelDemoStream.ReadVarint` | crates/haste_core/src/packet_channel_demo_stream.rs:105-138 | the value of the varint at hand, or the error, and the bytes taken |
| `PacketChannelStreams.PacketChannelDemoStream.SkipHeaderIfNeeded` | crates/haste_core/src/packet_channel_demo_stream.rs:141-151 | sixteen bytes once |
| `PacketChannelStreams.PacketChannelDemoStream.ReadCmdHeader` | crates/haste_core/src/packet_channel_demo_stream.rs:155-196 | a function of the unread bytes and of whether the file header was skipped |
| `PacketChannelStreams.PacketChannelDemoStream.ReadCmd` | crates/haste_core/src/packet_channel_demo_stream.rs:198-231 | the body, decompressed if so marked |
| `PacketChannelStreams.PacketChannelDemoStream.ReadAll` | crates/haste_core/src/packet_channel_demo_stream.rs:155-231 | all commands up to the first failure, as a function of the unread bytes |
| `CommandCodecs.VarintValue` | crates/haste_core/src/packet_channel_demo_stream.rs:105-138 | up to five bytes mean their low seven bits as digits to the base of 128, low ones first, modulo 2^32; with more the varint is too large |
| `CommandCodecs.VarintRoundTrip` | crates/haste_core/src/packet_channel_demo_stream.rs:105-138 | every 32-bit number written in base 128 reads back, and its bytes are taken |
| `CommandCodecs.HeaderRoundTrip` | crates/haste_core/src/packet_channel_demo_stream.rs:155-196 | a written header reads back: the command, 64 added if the body is compressed, the tick, with -1 as the largest word, and the size |
| `CommandCodecs.FileRoundTrip` | crates/haste_core/src/demofile.rs:126-188 | of any commands written one after the other the whole-file reader gives exactly these, decompressed, and then the end of the file |
| `CommandCodecs.ChunkedRoundTrip` | crates/haste_core/src/packet_channel_demo_stream.rs:141-231 | behind a file header of sixteen bytes the chunked reader gives the same if and only if the last command takes at least fifteen bytes |
| `PacketChannels.HeaderFits` | crates/haste_core/src/packet_channel_demo_stream.rs:159-186 | with fifteen bytes the three varints never run out, and what follows does not matter |
| `PacketChannels.HeaderAgreesIff` | crates/haste_core/src/demofile.rs:126-170 | at one header the chunked and the whole-file reader agree if and only if fifteen bytes remain or the file has no whole header there |
| `PacketChannels.PlayAgreesIff` | crates/haste_core/src/demofile.rs:126-188 | over a whole file the chunked reader gives a prefix of the commands, and the same commands and outcome if and only if fewer than fifteen bytes remain only where the file ends inside a command |
| `PacketChannels.ShortLastCommandIsLost` | crates/haste_core/src/packet_channel_demo_stream.rs:159-160 | a concrete file whose last command only the whole-file reader gives |
| `Broadcasts.PacketsInOrder` | crates/haste_broadcast/src/broadcasthttp.rs:304-448 | for every sequence of relay answers: a prefix of start, full, delta, delta, ... without gap or repeat; after the first call without a packet, nothing |
| `Broadcasts.CallBounded` | crates/haste_broadcast/src/broadcasthttp.rs:332-400 | one call makes at most 66 requests, and a packet is the answer to the last of them |
| `Broadcasts.DelaysBounded` | crates/haste_broadcast/src/broadcasthttp.rs:53-55 | the pauses of one fetch add up to at most 65.5 seconds |
| `Broadcasts.Get` | crates/haste_broadcast/src/broadcasthttp.rs:184-200 | only transient failures are retried (sections 15.5 and 15.6 of RFC 9110), ten times; the result is the last answer, transient only when all eleven were |
| `FetchCounts.FetchIs` | crates/haste_broadcast/src/broadcasthttp.rs:168-200 | a fetch ends with the first answer that is neither missing, nor a server error, nor without its body, and otherwise with the eleventh |
| `FetchCounts.RequestsByStatus` | crates/haste_broadcast/src/broadcasthttp.rs:142-200 | when every answer has one status: eleven requests for 500 to 599, one for 400 to 499, and for any other one if its body arrives and eleven if it does not; and what the caller is given |
| `FetchCounts.RequestsWithoutResponse` | crates/haste_broadcast/src/broadcasthttp.rs:142-200 | eleven requests when no response ever comes, one when the request cannot be built |
| `FetchCounts.PausesAre` | crates/haste_broadcast/src/broadcasthttp.rs:184-200 | the pauses before the ten retries are 0.5, 1, 2, 4, 8 and then 10 seconds |
| `FetchCounts.MissingFragmentEnds` | crates/haste_broadcast/src/broadcasthttp.rs:384-400 | six times 404 for a delta fragment end the broadcast without an error, after six requests |
| `FetchCounts.LateFragmentArrives` | crates/haste_broadcast/src/broadcasthttp.rs:363-400 | a delta fragment that is there after up to five times 404 is delivered, and the next one follows |
| `BroadcastObjects.BroadcastHttpClient.Get` | crates/haste_broadcast/src/broadcasthttp.rs:184-200 | makes only the given request, with these results, pausing exactly as often as it retries and at most 65.5 seconds |
| `BroadcastObjects.BroadcastHttp.HandleStart` | crates/haste_broadcast/src/broadcasthttp.rs:304-314 | asks for the signup fragment; moves on only with an answer |
| `BroadcastObjects.BroadcastHttp.HandleFullframe` | crates/haste_broadcast/src/broadcasthttp.rs:316-330 | asks for the full frame; moves on only with an answer |
| `BroadcastObjects.BroadcastHttp.HandleDeltaframes` | crates/haste_broadcast/src/broadcasthttp.rs:332-400 | whatever the clock says: asks for one fragment, again up to five times while it is not there, and moves to the next only with an answer |
| `BroadcastObjects.BroadcastHttp.NextPacket` | crates/haste_broadcast/src/broadcasthttp.rs:403-448 | the outcome, the new state, the buffered packet and the requests made |

## Left out

- Protobuf decoding, snappy, HTTP, file readers and the asynchronous parser: foreign code or a near copy of the blocking one.
- Float arithmetic (quantization, coordinates, tick ratios): results stay raw parts or a parameter, since idealised reals would not be the code's rounding.
- Decoder selection from field metadata, field value conversions and entity handles: one-branch lookups.
- LiveContexts.LiveContext.HandleCreateStringTable: two baseline items naming one class stop the player, where the code keeps whichever its hash map visits last; the index itself (`InstanceBaselines`) follows the code for every order.
- LiveContexts.LiveContext.HandleUpdateStringTable: the same.
- LiveContexts.LiveContext.HandleFullUpdate: the same.
- LiveContexts.LiveContext.HandleClassInfo: the same.
- Errors of the visitor: a callback always succeeds.
- FieldKeys.KeyAgreement: says nothing of paths with two or more steps whose index hashes unlike the name, where the differences could cancel by chance.
- A string table created twice: refused, as the debug assertion does.
- The debug assertions of `do_full_update` on table names and item counts: not enforced.
- Integer overflow of ticks, of the full packet interval and of fragment numbers: unbounded here.
- Token spans and the offsets in parse errors: errors carry their kind only.
- The seekable stream buffer and the scan for the last tick of a broadcast: cursor bookkeeping.
- The literal `Str` of type strings: never produced, hence not well formed.
- The header size in bytes: `unread_cmd_header` is modelled as leaving the command unread.
- The `skip` of each decoder as a method: it is a function here, proved to agree with `skip_bits` and `decode`.
