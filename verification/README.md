# Verified model of a price-time-priority matching engine

This project models the logic of a C++ matching engine with a write-ahead log, a
multi-threaded front end and a binary wire protocol, and proves properties of the
model over all inputs, all runs and all interleavings. `dafny verify
dfyconfig.toml` checks everything.

## What is modelled

- **Matching core.** `EngineSpec` describes the engine on flat priority lists:
  each side of a book is one list, best price first, then first come first
  served. `MatchingEngine` is the engine as the program has it: ordered price
  levels, FIFO lists, an id index, a running event number, and the nested
  matching loops. Every method of the class is proved to do what the flat
  specification says. `MatchingLaws`, `AddLaws`, `EventLaws`, `Ledger`,
  `IndexLaws` and `EngineInvariants` prove what the engine promises;
  `Simulation` is the one relation between engines that snapshots, recovery and
  sharding all use.
- **Persistence.** `JsonText`/`JsonCodec` (writer and recursive-descent parser),
  `Crc`, `Wal`/`WalStore` (tagged lines, group commit, replay), `Snapshot`,
  `ShardedSpec`/`ShardedEngine` (routing, ingress numbers, risk, logging before
  applying) and `Recovery`. `Texts` spells out what is written, `ReadingLaws`,
  `ReplayLaws` and `JsonReading` what is made of anything that is read,
  `IngressLaws` what reaches the matching core.
- **Concurrency.** `Ring` is the lock-free queue as a state machine over its
  loads, slot accesses and stores; `Pipeline` is the submitter, the workers and
  the consumer over bounded queues; `RingPipeline` is the same with real rings,
  access by access, and is proved to refine it; `Shutdown` says what stopping does.
- **Wire.** `Protocol`/`WireCodec` and `Session` (stream reassembly); `WireLaws`
  fixes the formats byte by byte.
- **Pool.** `Pool`/`PoolResource`, the free-list allocator, on byte-addressed memory.

A function that says what the program computes is tied to the program's own form by
a method's contract, and to plain terms, with the prices, modes, texts and numbers
written out, by a lemma in one of the law modules.

A C++ `std::string` is a Dafny `string` whose characters are its bytes. A list
iterator is the number of its list node. Exceptions are `Option`/`Fault` values
or a null result. The order in which a hash table of books is visited, the
addresses the global allocator returns and the values left behind by a move are
parameters. `pushed`, `popped`, `submitted`, `drained`, `lost` and `delivered`
are history variables.

## Where the program does not do what one might expect

- The FOK pre-check counts the sender's own orders; with CANCEL_PASSIVE an
  accepted FOK order can be filled in part and its remainder dropped with no
  event. `FillOrKill` and `StepLedger` give the exact conditions,
  `FokLeftShort` an input.
- A reused resting id overwrites its index entry, so a snapshot can change which
  order an id names. `MirrorsExactly` gives the exact condition,
  `ReuseBreaksSnapshots` and `ReuseMayStayInvisible` an input on either side.
- `push` takes its argument by value, so a retry after a failed push sends an
  emptied message, which is then executed on the shard of the empty symbol.
  The same happens to a result. `ExactlyWhenClean` shows that this is exactly
  when the pipeline goes wrong, `PacedIsClean` how a caller rules it out.
- The rounding loop of the ring never ends for requests above 2^63
  (`RoundingEnds`), and the pool's block size is too small exactly when rounding
  overflows (`BlockSizeIsLeast`).
- The diagram in the program's README (lines 54-63) shows the log after the
  matching core; the code logs first, and the model follows the code. The hash
  calls itself FNV-1a but starts from another offset basis; the model keeps the
  one in the code (`RoutedByHash`).

## Model

| member | source | states |
|---|---|---|
| EngineInvariants.StepOk | src/matching_engine.cpp:99-232 | Every add, cancel or replace, whatever its ids, symbol and quantity, keeps the book well formed: best bid below best ask, positive remainders, matching symbol, side and price, price-time order in every list, an index that never dangles; and none of the exceptions for fills, overfill, symbol mismatch or crossing is raised. |
| EngineInvariants.RunOk | src/matching_engine.cpp:99-232 | The same over every run of commands from any well-formed engine: every reachable state is well formed and no reply carries an exception. |
| MatchingLaws.PriorityWalk | src/matching_engine.cpp:117-178 | The two nested loops are one walk down the flat priority list, told position by position with the prices, modes and names spelled out: every order passed was met with quantity left and at a price the sender accepts (any price for MARKET); an own order is passed only under CANCEL_PASSIVE, or as the last one under CANCEL_BOTH; each order passed gives its fill, or its cancel event if it is the sender's own; at most the next order is reduced; ids passed leave the index; and the walk ends only when self-trade prevention stops the sender, the quantity is used up, the list is exhausted or the next price is out of reach. |
| MatchingLaws.WalkIsUnique | src/matching_engine.cpp:117-178 | There is only one such walk: orders and quantity decide how many orders go, how much is taken from the next and whether the sender is stopped. |
| MatchingLaws.AddWalks | src/matching_engine.cpp:99-178 | The same for the whole add: what it leaves on the opposite side of the book is that suffix, its trades are exactly those of the walk, and a rejected FOK order leaves both alone. |
| MatchingLaws.TradesAreFair | src/matching_engine.cpp:67-88 | Every trade has a positive quantity and a price the sender accepts (any price for MARKET), names the sender on its own side, and with self-trade prevention on never pairs a participant with itself. |
| MatchingLaws.MatchTrades | src/matching_engine.cpp:129-173 | In every time-in-force and all four self-trade modes the traded quantity is the smaller of what is wanted and what is reachable, and what remains is the rest, or nothing exactly when an own order is reached with quantity left in a mode that cancels the sender. |
| MatchingLaws.AddTradesAvailable | src/matching_engine.cpp:99-178 | An order, MARKET included, that meets none of the sender's own trades the smaller of its quantity and the volume within its limit, wherever that stands in the list; a FOK order for which that is too little trades nothing. |
| MatchingLaws.MarketTradesAll | src/matching_engine.cpp:121-127 | A MARKET order that meets none of the sender's own trades the smaller of its quantity and everything that rests on the other side, whatever price it names. |
| MatchingLaws.KilledExactly | src/matching_engine.cpp:24-38 | The pre-check, which stops at the first worse price, rejects exactly the FOK orders for which the whole volume within the limit is less than the quantity. |
| MatchingLaws.FillOrKill | src/matching_engine.cpp:102-108 | FOK, exactly: answered by one FOK_UNFILLABLE rejection with all orders and the index untouched if too little volume is within the limit; otherwise accepted, and filled completely if and only if enough volume of others is reachable. |
| AddLaws.AddDoes | src/matching_engine.cpp:99-193 | An add in full, for every order and well-formed engine: the walk it takes, its trades, its complete list of events with ids and quantities, what it leaves on both sides of the book, the index, the entry number of what rests and the event and node counters; every other book stays as it is. |
| AddLaws.OwnOrderMet | src/matching_engine.cpp:133-151 | Self-trade prevention mode by mode, when the first own order stands within reach at position j and quantity is left: with CANCEL_AGGRESSOR the add ends there with that order still resting; with CANCEL_BOTH it ends with both gone; with CANCEL_PASSIVE the own order goes and the walk passes it. Every event is fixed. |
| AddLaws.TradesNameOrders | src/matching_engine.cpp:67-88 | Every trade is with an order of the opposite side, at its price and for no more than it had, buyer and seller named with their own ids and participants; orders are met in priority order, each at most once. |
| AddLaws.AddOwnSide | src/matching_engine.cpp:180-190 | On the sender's own side only the remainder of a GTC order appears: its own id, participant, side and price, exactly the quantity less what traded (nothing if self-trade prevention cancelled the sender), behind everything at its price or better, and indexed; otherwise that side, and every other book, is unchanged. |
| AddLaws.ReplaceInherits | src/matching_engine.cpp:207-232 | A replacement is the announced cancel of what was left, then, in full, an add with the new id, price, quantity and time in force for the old order's participant and side, which may trade with anyone. |
| EventLaws.AddReports | src/matching_engine.cpp:104-190 | The events of an add: one rejection and no trade, or first the admission with its quantity; all about the command's symbol; and exactly one execution per trade, in order, with its ids, price and quantity. |
| EventLaws.StepReports | src/matching_engine.cpp:195-232 | Every command is answered with at least one event, all about its own symbol, reporting its trades one for one. |
| Ledger.StepLedger | src/matching_engine.cpp:114-232 | One command changes total resting volume by accepted less twice executed less cancelled if and only if it is accounted for: no negative quantity and no FOK order with CANCEL_PASSIVE that the pre-check let through on the sender's own volume. |
| Ledger.UnreportedExactly | src/matching_engine.cpp:180-190 | Quantity disappears without an event exactly for a negative quantity, or for an accepted FOK order with CANCEL_PASSIVE whose reachable volume falls short. |
| Ledger.RunLedger | src/matching_engine.cpp:99-232 | Over every accounted run, from any well-formed engine, resting volume is what the events announce. |
| Ledger.VolumeConserved | src/matching_engine.cpp:99-232 | Engine-wide resting quantity equals accepted - 2*executed - cancelled on every run of commands with non-negative quantities and no FOK order using CANCEL_PASSIVE, even when ids are reused. |
| IndexLaws.RunIndexed | src/matching_engine.cpp:40-65 | On every run that introduces no id still resting, the index is a bijection with the resting orders. |
| IndexLaws.IndexHoldsResting | src/matching_engine.cpp:50-64 | An id is in the index if and only if an order with that id rests. |
| IndexLaws.CancelIsExact | src/matching_engine.cpp:195-205 | On such runs a cancel takes out the named order and nothing else: every other order keeps its place and every other index entry stays. |
| IndexLaws.CancelAnswers | src/matching_engine.cpp:195-205 | A cancel answers how much was left of the one order its index entry leads to and takes that order out; an unknown id is answered by UNKNOWN_ORDER and changes no book. One event number is spent either way. |
| IndexLaws.RunAged | src/matching_engine.cpp:47-49 | On every run, even with reused ids, entry numbers strictly increase along each price level and stay below the event number. |
| IndexLaws.RunTidy | src/matching_engine.cpp:40-51 | Every book of every run, in plain terms: positive quantities under the right symbol and side, bids falling and asks rising in price, earlier entries first at equal price, best bid below best ask. |
| Simulation.StepSame | src/matching_engine.cpp:99-232 | An engine that holds a selection of another engine's symbols, in the same order but with other list nodes, entry numbers and event numbers, gives the same events and trades to a command addressed to it, and still mirrors it afterwards. |
| Simulation.RunSame | src/matching_engine.cpp:99-232 | Engines that mirror each other at the same event number give identical numbered replies to every later command sequence. |
| Simulation.StepNumbers | src/matching_engine.cpp:14-17 | Events are numbered without gaps: a command advances the sequence by the number of its events. |
| Corners.FokLeftShort | src/matching_engine.cpp:102-103 | A concrete FOK order with CANCEL_PASSIVE that passes the pre-check, trades half and loses the other half with no event. |
| MatchingEngineImpl.MatchingEngine.Add | src/matching_engine.cpp:99-193 | The nested loops over stored price levels end in the state, numbered events and trades of the flat specification, keep the class invariant and raise nothing. |
| MatchingEngineImpl.MatchingEngine.MatchBook | src/matching_engine.cpp:120-178 | The outer loop, level after level, refines the whole walk of the specification and leaves non-empty, ordered levels. |
| MatchingEngineImpl.MatchingEngine.MatchLevel | src/matching_engine.cpp:129-173 | The inner loop over one level takes steps of the same walk until the quantity or the level is exhausted. |
| MatchingEngineImpl.MatchingEngine.PreventSelfTrade | src/matching_engine.cpp:133-151 | The three self-trade branches on the stored level, tracked step for step in the specification. |
| MatchingEngineImpl.MatchingEngine.FillHead | src/matching_engine.cpp:153-172 | One fill of the level's front order, tracked in the specification; the order leaves the level and the index exactly when nothing is left of it. |
| MatchingEngineImpl.MatchingEngine.SettleRemainder | src/matching_engine.cpp:180-190 | What happens to the unmatched quantity: rested and announced, cancelled and announced, or dropped for FOK, as the specification says. |
| MatchingEngineImpl.MatchingEngine.AvailableVolume | src/matching_engine.cpp:24-38 | The two volume loops compute the volume of the flat list up to the first worse price. |
| MatchingEngineImpl.MatchingEngine.RestOrder | src/matching_engine.cpp:40-51 | Finding or creating the level and appending is inserting behind everything at that price or better, with the index entry overwritten. |
| MatchingEngineImpl.MatchingEngine.RemoveResting | src/matching_engine.cpp:53-65 | Removing through the index entry takes exactly the located order out of the flat list, and the level when it empties. |
| MatchingEngineImpl.MatchingEngine.Cancel | src/matching_engine.cpp:195-205 | Cancel in place equals the specification, by id alone. |
| MatchingEngineImpl.MatchingEngine.Replace | src/matching_engine.cpp:207-232 | Cancel then add, with the old participant and side and no self-trade prevention, equals the specification. |
| MatchingEngineImpl.MatchingEngine.Reject | src/matching_engine.cpp:19-22 | A rejection consumes one event number and changes nothing else. |
| MatchingEngineImpl.MatchingEngine.BestBid | src/matching_engine.cpp:234-239 | The last stored bid level is the head of the flat list. |
| MatchingEngineImpl.MatchingEngine.BestAsk | src/matching_engine.cpp:241-246 | The first stored ask level is the head of the flat list. |
| MatchingEngineImpl.MatchingEngine.SerializeSide | src/matching_engine.cpp:248-282 | The stored levels are written best first, one entry per run of equal prices of the flat list. |
| MatchingEngineImpl.MatchingEngine.SaveSnapshot | src/matching_engine.cpp:284-296 | The snapshot document of the specification, books in the order the hash table is visited. |
| MatchingEngineImpl.MatchingEngine.LoadSnapshot | src/matching_engine.cpp:324-343 | Loading any document, well formed or not, equals the specification, including rejection and skipped entries. |
| Levels.PutRests | src/matching_engine.cpp:41-49 | Appending to a stored level is inserting into the flat priority list. |
| Levels.TakeRemoves | src/matching_engine.cpp:57-63 | Erasing from a stored level is removing the indexed order from the flat list. |
| SnapshotLaws.RestoreMirrors | src/matching_engine.cpp:298-343 | What is loaded from the snapshot of any well-formed engine, reused ids or not and whatever the visiting order of books, mirrors that engine with each id indexed at the last order written under it, although entry numbers and list nodes differ. |
| SnapshotLaws.MirrorsExactly | src/matching_engine.cpp:284-343 | Exactly: the loaded engine mirrors the saved one if and only if the saved index held, for the writing order at hand, exactly the resting ids, each at its last order written. |
| SnapshotLaws.IndexesLastMeans | src/matching_engine.cpp:284-296 | That condition said order by order. |
| SnapshotLaws.SnapshotIsTransparent | src/matching_engine.cpp:284-343 | On every run that meets that condition, the engine loaded from the snapshot answers every later command sequence with identical events, numbers and trades. |
| SnapshotLaws.FreshRunIndexesLast | src/matching_engine.cpp:50 | Every run that never reuses a resting id meets it, for every writing order. |
| RestoredEngine.LoadShaped | src/matching_engine.cpp:298-322 | Any document whatever loads into lists in price and arrival order, filed under their own symbol and side. |
| RestoredEngine.RestoredOk | src/matching_engine.cpp:324-343 | What is loaded from the snapshot of a well-formed engine, reused ids or not, is well formed, so no exception can follow a restart. |
| Corners.ReuseBreaksSnapshots | src/matching_engine.cpp:50 | The condition is needed: with one id resting twice, cancelling it removes one order before the snapshot and the other after it. |
| Corners.ReuseMayStayInvisible | src/matching_engine.cpp:50 | Not every reuse shows: an id offered again at a worse price meets the condition, and the snapshot stays invisible. |
| JsonLaws.RoundTrip | src/json.cpp:11-287 | parse(dump(j)) == j for every nested value without floating-point numbers, with arbitrary byte strings and 64-bit integers. |
| JsonLaws.DumpVisible | src/json.cpp:11-76 | A written value contains no byte below 0x20, so one line is one record. |
| JsonLaws.RawReadBack | src/json.cpp:171-213 | Escaped text followed by a quote reads back as the original bytes, whatever follows. |
| JsonLaws.NumberReadBack | src/json.cpp:245-271 | A printed 64-bit integer reads back up to the next delimiter. |
| JsonReading.BlanksIgnored | src/json.cpp:93-169 | Any nested value written with blanks, tabs and line ends between any two tokens parses to that value. |
| JsonReading.ElementThen | src/json.cpp:153-167 | Behind an array element and blanks only a comma or the closing bracket is accepted. |
| JsonReading.MemberThen | src/json.cpp:121-141 | Behind an object member and blanks only a comma or the closing brace is accepted. |
| JsonReading.UnicodeEscape | src/json.cpp:190-205 | A \u escape with four digits of either case stands for the one, two or three UTF-8 bytes of its code point, whatever follows. |
| JsonReading.ShortEscape | src/json.cpp:181-206 | The eight one-character escapes stand for their bytes; any other is refused. |
| JsonReading.NumberRange | src/json.cpp:245-271 | The decimal text of an integer parses to it if and only if it is a 64-bit one, and is refused otherwise. |
| JsonReading.UnclosedString | src/json.cpp:171-177 | An escaped string that breaks off before its closing quote is refused, wherever it breaks off. |
| JsonCodec.WriteString | src/json.cpp:11-33 | The escaping loop appends the quoted, escaped string. |
| JsonCodec.WriteValue | src/json.cpp:35-76 | The recursive writer appends the text of the value. |
| JsonCodec.Parser.ParseAny | src/json.cpp:102-111 | The recursive-descent parser, advancing its position in place, accepts, rejects and leaves exactly what the grammar function says. |
| JsonCodec.Parser.ParseRawString | src/json.cpp:171-213 | The string loop with escapes and UTF-8 output, in place. |
| JsonCodec.Parser.ParseNumberToken | src/json.cpp:245-271 | The digit loop and range check, in place. |
| JsonCodec.DumpText | src/json.cpp:276-280 | dump() is the text of the value. |
| JsonCodec.ParseText | src/json.cpp:282-287 | parse() accepts and rejects as specified; trailing text is ignored, as in the code. |
| Crc.TableEntry | include/checksum.hpp:15-20 | The inner table loop is eight shifts of the register. |
| Crc.BuildTable | include/checksum.hpp:13-23 | Every one of the 256 entries is right. |
| Crc.TableStep | include/checksum.hpp:27 | One table lookup equals eight bit-steps, for every register and byte. |
| Crc.ComputeCrc | include/checksum.hpp:24-29 | The table-driven loop computes the bit-at-a-time CRC of every message and seed. |
| Crc.CrcContinues | include/checksum.hpp:24-29 | Seeding with the CRC of a prefix gives the CRC of the concatenation. |
| Crc.OneByteChange | include/checksum.hpp:24-29 | Messages of equal length that differ in exactly one byte always have different CRCs. |
| Crc.CheckValue | include/checksum.hpp:10-30 | The CRC of the bytes 123456789 is 0xCBF43926, the check value of CRC-32. |
| Wal.TornTail | src/recovery.cpp:77-116 | Cut at any byte, the log replays to exactly the records whose full text survived, in order, given that the CRC of the torn text differs from that of the full text. |
| Wal.ReplayAll | src/recovery.cpp:100-116 | An intact log replays to every record. |
| Wal.GroupCommit | src/recovery.cpp:77-98 | On every run of append, flush and snapshot, file contents followed by the staging buffer encode all records since the last truncation, and at most 63 records are staged. |
| Wal.CommitsBySixtyFour | src/recovery.cpp:18-18 | Of the records appended to an empty log, the largest multiple of 64 is in the file and the others are staged, for every number of records. |
| ReplayLaws.JunkPassedOver | src/recovery.cpp:106-108 | A line that is too short or has no blank behind eight characters is passed over: records before and after it are all replayed. |
| ReplayLaws.MismatchEnds | src/recovery.cpp:109-112 | A record whose checksum does not match ends the replay with the records before it, whatever follows. |
| ReplayLaws.BadTextAborts | src/recovery.cpp:111-113 | A record whose checksum matches but whose text does not parse aborts the replay. |
| ReplayLaws.CrLfTolerated | src/recovery.cpp:107 | A log whose lines end in carriage return and newline replays whole. |
| Texts.LineText | src/recovery.cpp:77-86 | A line is eight lower-case hexadecimal digits, digit by digit those of the checksum, a blank, the text and a newline. |
| Texts.CommandText | src/sharded.cpp:30-52 | The text logged for each command, key by key and word by word. |
| Texts.RiskText | src/sharded.cpp:75-79 | The text logged for a risk rejection. |
| Texts.SnapshotText | src/matching_engine.cpp:248-296 | The text of a snapshot: event number, then each book under its symbol, bids and asks best price first, one entry per price with its orders in time order, key by key. |
| Texts.DecimalDigits | src/json.cpp:46-48 | Numbers are printed in decimal, digit by digit, without leading zeros. |
| Texts.EscapesWritten | src/json.cpp:11-33 | What is written for each character of a string, control characters included. |
| WalStoreImpl.WalStore.AppendRecord | src/recovery.cpp:77-87 | Staging a tagged line and flushing at the 64th, in place. |
| WalStoreImpl.WalStore.FlushPending | src/recovery.cpp:89-98 | Flushing, in place; nothing happens without an open handle. |
| WalStoreImpl.WalStore.ReplayLines | src/recovery.cpp:103-115 | The line loop: short or untagged lines skipped, a bad checksum stops, the rest parsed in order. |
| WalStoreImpl.WalStore.ReplayCommands | src/recovery.cpp:100-116 | Replay first flushes what is staged. |
| WalStoreImpl.WalStore.SaveSnapshot | src/recovery.cpp:126-140 | Flush, replace the snapshot, truncate the log. |
| WalStoreImpl.WalStore.TruncateWal | src/recovery.cpp:118-124 | Truncation empties file and staging buffer and reopens the handle. |
| WalStoreImpl.WalStore.LoadSnapshot | src/recovery.cpp:142-148 | An absent or empty snapshot file is no snapshot. |
| ShardedEngineImpl.ShardedMatchingEngine.Create | src/sharded.cpp:8-18 | A positive number of shards, each with its own empty engine, empty log and ingress counter at zero; any other count is refused. |
| ShardedEngineImpl.ShardedMatchingEngine.ShardFor | src/sharded.cpp:20-28 | The 64-bit hash loop picks a shard in range, a function of the symbol alone. |
| IngressLaws.RoutedByHash | src/sharded.cpp:20-28 | The shard of a symbol is its hash modulo the shard count, the hash built byte by byte on 64 bits from the program's offset basis and prime. |
| ShardedEngineImpl.ShardedMatchingEngine.ValidateIngress | src/sharded.cpp:54-64 | A stale ingress number costs one event number and nothing else; a newer one is recorded; none is ignored. |
| IngressLaws.AdmittedRises | src/sharded.cpp:54-64 | On every run the ingress numbers a shard lets through rise strictly, so no numbered command is applied twice or out of order. |
| IngressLaws.IngressFromOne | src/sharded.cpp:8-18 | A fresh shard lets through no ingress number below one, and one itself first. |
| IngressLaws.AddSubmitted | src/sharded.cpp:66-88 | An add reaches the matching core if and only if it is on time and 0 < quantity <= maximum and, unless MARKET, its price and price times quantity are within their limits; otherwise the answer is one rejection naming the first limit broken, books and index stay, and a risk rejection is logged. Only the shard of the symbol's hash changes. |
| IngressLaws.CancelSubmitted | src/sharded.cpp:90-104 | A cancel reaches the core if and only if its ingress number is new; otherwise one OUT_OF_ORDER_INGRESS rejection and nothing logged. |
| IngressLaws.ReplaceSubmitted | src/sharded.cpp:106-117 | The same for a replacement, whatever its price and quantity. |
| IngressLaws.DefaultLimitsAdmit | include/risk.hpp:10-15 | The default limits in numbers: which orders reach the core when none are configured. |
| ShardedEngineImpl.ShardedMatchingEngine.Add | src/sharded.cpp:66-88 | Routing, ingress check, risk check, logging before applying: the new state of all shards and the answer are those of the specification, and only the routed shard changes. |
| ShardedEngineImpl.ShardedMatchingEngine.Cancel | src/sharded.cpp:90-104 | The same for cancel. |
| ShardedEngineImpl.ShardedMatchingEngine.Replace | src/sharded.cpp:106-117 | The same for replace, which is not risk-checked. |
| ShardedEngineImpl.ShardedMatchingEngine.SnapshotAll | src/sharded.cpp:119-123 | Every shard is saved and its log truncated. |
| ShardedEngineImpl.ShardedMatchingEngine.ApplyRecord | src/sharded.cpp:132-173 | One record applied to an engine: invalid, passed over, or executed. |
| ShardedEngineImpl.ShardedMatchingEngine.ReplayShard | src/sharded.cpp:175-184 | Snapshot, then log: the rebuilt engine is the one of the specification and well formed; the live shards change only by the flush. |
| Records.CommandReadsBack | src/sharded.cpp:30-52 | A logged command is read back as itself, every field. |
| Records.RiskReadsBack | src/sharded.cpp:72-79 | A logged risk reject is passed over on replay. |
| ReadingLaws.RecordMeans | src/sharded.cpp:132-173 | Every record whatever: invalid without a type or an object for a command; add, cancel or replace by its type, with the first value under each key and the defaults for missing or mistyped ones; passed over otherwise. |
| ReadingLaws.RecordsRun | src/sharded.cpp:175-184 | Replaying records runs their commands in order; one invalid record aborts it. |
| ReadingLaws.ShardRebuilt | src/sharded.cpp:175-184 | A shard is rebuilt from its snapshot, if there is one that is not empty, and the commands of the log behind it, staged ones included. |
| ReadingLaws.DocumentMeans | src/matching_engine.cpp:298-343 | Every snapshot document whatever: refused if and only if its books are not an object of objects; else the event number, zero if missing, and its complete orders resting in the order in which they are written, incomplete levels and orders passed over. |
| ReadingLaws.FindIs | include/json.hpp:60-65 | Lookup finds the first member with the key, if there is one. |
| Recovery.RecoverySucceeds | src/sharded.cpp:175-184 | After every run of commands and snapshots from an empty store, reused ids or not, every shard replays without an exception to a well-formed engine. |
| Recovery.RecoveryAgrees | src/sharded.cpp:66-184 | After every such run whose last snapshot, if any, kept the index, replay rebuilds the same books in the same FIFO order and the same index up to entry numbers, and the live event number exceeds the rebuilt one by exactly the number of risk and ingress rejects on that shard since its last snapshot. |
| Recovery.SnapshotRecoversExactly | src/sharded.cpp:119-123 | Straight after a snapshot the condition is exact: replay mirrors the live engine if and only if the snapshot kept the index. |
| Recovery.RecoveredAnswers | src/sharded.cpp:175-184 | What the rebuilt engine answers to every later command sequence is what the live engine would have answered, every event number lower by that same amount. |
| Recovery.TornRecovery | src/recovery.cpp:77-116 | With the log cut at any byte, replay gives a well-formed engine, and, if the snapshot kept the index, a mirror of the live engine as it was right after the last record that survived. |
| Recovery.FreshOpsFaithful | src/sharded.cpp:119-123 | On runs that never reuse a resting id every snapshot keeps the index. |
| ShardCount.ShardCountInvisible | src/sharded.cpp:20-117 | For runs with globally fresh ids, the order's own symbol on cancel and replace, and rising ingress numbers, n shards give each command the same trades and event payloads as one shard. |
| Ring.StepInv | include/spsc_queue.hpp:33-53 | Every load, slot access and store of either thread, in any state, keeps the ring invariant. |
| Ring.StepHarmless | include/spsc_queue.hpp:39 | No step writes a slot whose value is still owed to the consumer or claimed by the producer. |
| Ring.StepRefines | include/spsc_queue.hpp:33-53 | Each step is a bounded-queue operation or invisible: publishing head appends when there is room, publishing tail removes the first value, which is the one taken out, and a failing check means full, or empty, at that moment. |
| Ring.RingIsFifo | include/spsc_queue.hpp:33-53 | Under all interleavings popped values are a prefix of pushed ones, occupancy never exceeds capacity, and the next step harms no live slot, even as the 64-bit counters wrap. |
| Ring.FullExactly | include/spsc_queue.hpp:34-38 | The wrapped comparison sees a full ring exactly when it is full. |
| Ring.RoundingEnds | include/spsc_queue.hpp:62-66 | The rounding loop ends if and only if the request is at most 2^63. |
| Ring.RoundUpPow2 | include/spsc_queue.hpp:62-66 | The result is the least power of two not below the request. |
| SpscQueueImpl.SpscQueue.constructor | include/spsc_queue.hpp:26-27 | An empty queue whose capacity is the least sufficient power of two; a request of zero gives one slot. |
| SpscQueueImpl.SpscQueue.Push | include/spsc_queue.hpp:33-42 | Appends the value, or fails without storing exactly when full. |
| SpscQueueImpl.SpscQueue.Pop | include/spsc_queue.hpp:45-53 | Removes and returns the first value, or fails exactly when empty. |
| Pipeline.PipelineRefines | include/threaded_engine.hpp:76-134 | In every interleaving of submitter, workers and consumer after one start in which every push finds room at once: what a shard has handed over is a prefix of what the sequential engine answers there, with the same correlation ids, events and trades; what it executed and did not hand over is queued or in hand, except at most one result per shard dropped after a stop; and once nothing waits, everything is accounted for. |
| PipelineExact.ExactlyWhenClean | include/threaded_engine.hpp:76-134 | Exactly: in every run whose commands have a symbol, once everything is drained and nothing lost, the shards have handed over what the sequential engine answers if and only if no push, inbound or outbound, ever failed. |
| PipelineExact.StepMarked | include/threaded_engine.hpp:80-130 | Every step of every thread keeps the mark of a failed push: an emptied command stays, is answered under no symbol, and an emptied result has no events. |
| Pipeline.PacedIsClean | include/threaded_engine.hpp:76-84 | What a caller can check: a submitter that never has more commands outstanding on a shard than a queue has slots never fails a push, and neither does any worker. |
| Pipeline.WorkersKeepToTheirShards | include/threaded_engine.hpp:99-134 | In every run without a failed push a worker is only given commands of its own shard, and executing one changes no other shard. |
| RingPipeline.MoveRefines | include/spsc_queue.hpp:33-53 | With real rings for queues, every load, slot access and store of every thread is invisible or one step of the pipeline over bounded queues. |
| RingPipeline.RingsRefineSequential | include/threaded_engine.hpp:76-134 | Under every interleaving of every ring access of all threads: while no push fails, what the consumer has taken from a shard is a prefix of the sequential answers; when all is drained it is exactly those if and only if no push failed. |
| Pipeline.StepInv | include/threaded_engine.hpp:103-134 | Every step of every thread that does not fail a push keeps the pipeline invariant. |
| Pipeline.SequentialSplits | src/sharded.cpp:66-117 | Each shard of the sequential engine depends on its own commands only. |
| Pipeline.CorrelationIds | include/threaded_engine.hpp:76-78 | The k-th submission carries correlation id k (mod 2^64) in every run. |
| FailedPush.CleanRunExists | include/threaded_engine.hpp:76-134 | For every command there is a run in which no push fails and exactly its sequential answer is drained. |
| FailedPush.EmptiedAnswersDiffer | include/threaded_engine.hpp:80 | A command that was moved away by a failed push is never answered as the command itself would have been, in any state, unless it has no symbol. |
| FailedPush.FailedPushDiverges | include/threaded_engine.hpp:80-82 | A run that fails a push and drains everything, for any two commands, the second with a symbol: what is drained is not what the sequential engine answers, but what it answers to the second command without its symbol and participant. |
| Shutdown.EmptiedResultArrives | include/threaded_engine.hpp:126-130 | A result that finds its queue full is published, once the consumer has made room, as its correlation id alone. |
| Shutdown.StopEnds | include/threaded_engine.hpp:66-72 | Once the pipeline is stopped every worker leaves its loop after at most four more of its own turns, whatever the other threads do, so joining it ends. |
| Shutdown.StopLosesResult | include/threaded_engine.hpp:126-130 | For every command there is a run in which it is executed and a stop loses its result: the bound of one lost result per shard is reached. |
| Protocol.Get64ReadsBack | src/protocol.cpp:23-47 | A signed 64-bit field, negative values included, survives the unsigned big-endian encoding. |
| Protocol.AddReadsBack | src/protocol.cpp:91-137 | unpack(pack(c)) == c for every add whose names have at most 255 bytes, within the 4096-byte limit. |
| Protocol.CancelReadsBack | src/protocol.cpp:139-158 | The same for cancel. |
| Protocol.ReplaceReadsBack | src/protocol.cpp:160-188 | The same for replace. |
| Protocol.CommandReadsBack | src/protocol.cpp:218-240 | A command is encoded if and only if its names fit, and the frame it becomes decodes to it. |
| Protocol.FrameReadsBack | src/protocol.cpp:190-216 | A frame is read back whole, whatever follows it. |
| Protocol.ChangedByteRejected | src/protocol.cpp:200-216 | One changed payload byte, anywhere, makes parse_frame reject the frame. |
| WireLaws.AddPacked | src/protocol.cpp:91-108 | The packed add byte by byte: lengths at 0 and 1, side 1 or 2, time in force 1 to 4, prevention mode 0 to 3, then order id at 5, price at 13 and quantity at 21, eight bytes each in two's complement, most significant first, and the names from 29; refused exactly for names over 255 bytes. |
| WireLaws.AddUnpacked | src/protocol.cpp:110-137 | Exactly which payloads are accepted as an add, 29 to 4096 bytes with room for the names and known codes, and that the command is what those bytes say. |
| WireLaws.CancelPacked | src/protocol.cpp:139-147 | The packed cancel byte by byte. |
| WireLaws.CancelUnpacked | src/protocol.cpp:149-158 | Exactly which payloads are accepted as a cancel, and what they say. |
| WireLaws.ReplacePacked | src/protocol.cpp:160-172 | The packed replacement byte by byte: order id at 2, new id at 10, new price at 18, new quantity at 26, symbol from 34. |
| WireLaws.ReplaceUnpacked | src/protocol.cpp:174-188 | Exactly which payloads are accepted as a replacement, and what they say. |
| WireLaws.FrameWritten | src/protocol.cpp:190-198 | A frame byte by byte: kind, four bytes of length, payload, four bytes of checksum. |
| WireLaws.FrameRead | src/protocol.cpp:200-216 | A frame is incomplete exactly when its length field says so, corrupt exactly when the checksum field differs, and else read as laid out. |
| WireLaws.CommandWritten | src/protocol.cpp:218-231 | An encoded command is a frame of kind 1, 2 or 3 around its packed layout. |
| WireLaws.CommandRead | src/protocol.cpp:233-240 | A payload is read by its kind, 1, 2 or 3, and says the command it is decoded to; other kinds are refused. |
| WireCodec.PutBigEndian | src/protocol.cpp:17-27 | The shift loop writes the most significant byte first. |
| WireCodec.GetBigEndian | src/protocol.cpp:33-47 | The byte loop reads the value back. |
| WireCodec.PackAddOrder | src/protocol.cpp:91-108 | The packer writes the layout of the specification or refuses long names. |
| WireCodec.UnpackAddOrder | src/protocol.cpp:110-137 | All size, truncation and code checks of the unpacker. |
| WireCodec.PackCancelOrder | src/protocol.cpp:139-147 | The cancel packer. |
| WireCodec.UnpackCancelOrder | src/protocol.cpp:149-158 | The cancel unpacker. |
| WireCodec.PackReplaceOrder | src/protocol.cpp:160-172 | The replace packer. |
| WireCodec.UnpackReplaceOrder | src/protocol.cpp:174-188 | The replace unpacker. |
| WireCodec.FrameMessage | src/protocol.cpp:190-198 | Type, length, payload, checksum. |
| WireCodec.ParseFrame | src/protocol.cpp:200-216 | The frame at an offset: incomplete, corrupt or whole, as the bytes from there on decide. |
| WireCodec.Decode | src/protocol.cpp:233-240 | Dispatch on the message type; other types are refused. |
| Session.ChunkingInvisible | src/net.cpp:88-100 | Commands delivered, bytes kept back and the decision to drop the session depend only on the concatenated bytes, for every way of cutting them. |
| Session.StreamDelivers | src/net.cpp:92-94 | A stream of encoded commands and event frames, however it is cut, delivers exactly the commands, in order, and keeps nothing back. |
| Session.DamageDrops | src/net.cpp:95-99 | With one changed payload byte, the commands before it are delivered, the session is dropped there and nothing after it gets through. |
| WireLaws.FrameTaken | src/net.cpp:88-100 | What a session makes of one whole frame of any kind: kind 10 is passed over, a readable command is handed on, anything else drops the session after what was delivered before. |
| Session.DeframeExtends | src/protocol.cpp:200-216 | A verdict on the first frame stands whatever arrives later. |
| WireCodec.Conn.Drain | src/net.cpp:72-101 | One readiness notification on the connection object: append, parse loop, erase what was consumed; equals the specification. |
| Pool.BlockSizeIsLeast | include/object_pool.hpp:49-52 | The block size is the least multiple of a power-of-two alignment that holds the request and a pointer, if and only if rounding up does not overflow. |
| Pool.SlotsApart | include/object_pool.hpp:54-63 | Two different slots never overlap, within a chunk or across chunks. |
| Pool.SlotAligned | include/object_pool.hpp:54-63 | Slots are aligned and never null. |
| PoolResourceImpl.PoolResource.Grow | include/object_pool.hpp:54-63 | Threads the 1024 slots of a new chunk onto the empty free list, which stays acyclic and complete. |
| PoolResourceImpl.PoolResource.Allocate | include/object_pool.hpp:25-37 | Keeps the partition of all slots into free list and live blocks; the block returned is aligned, was not in use, and is the head of the free list when there is one; requests of another size or alignment are passed on and touch nothing. |
| PoolResourceImpl.PoolResource.Deallocate | include/object_pool.hpp:39-46 | Keeps the partition; a pool block becomes the head of the free list, a passed-on block never enters it. |
| PoolResourceImpl.PoolResource.Write | include/object_pool.hpp:42-44 | The owner of a block, from the pool or passed on, may write any byte of it without damaging any of the eight-byte links of the free list. |
| PoolResourceImpl.PoolResource.BlocksCounted | include/object_pool.hpp:54-63 | Each chunk brings 1024 blocks, and every one of them is on the free list or in use. |
| PoolResourceImpl.PoolResource.LiveDisjoint | include/object_pool.hpp:25-37 | Live blocks are disjoint, aligned and large enough for what was asked. |

## Left out

- JSON floating-point numbers: an integral double prints without a point and reads back as an integer; the parser of the model rejects number tokens with a point, exponent or further sign.
- Real files: a file is its contents; directories, fsync, short writes and failed opens are not modelled, nor is a crash between renaming a snapshot and truncating the log, nor appends made after a torn tail.
- `restore_from_snapshots`: it loads snapshots without the log tail; recovery here is `replay_shard`.
- Sockets, polling, accepting, the multicast publisher and the peer-close path, on which the buffer is not parsed.
- Weak memory: acquire and release operations are atomic steps; pinning, padding and spinning hints are not modelled. A command is executed in one step, which Pipeline.WorkersKeepToTheirShards justifies for runs without failed pushes; after one, two workers can race on the shard of the empty symbol, and that race is not modelled.
- A second `start` after `stop`: the pipeline is started once.
- Moved-from strings and vectors are taken to be empty, which is what common library implementations leave.
- 64-bit overflow of prices, quantities, notionals and totals in the matching core; integers are mathematical there, and fixed width in the codec, the checksum, the ring and the pool.
- Risk limits as an invariant of resting orders: `replace` is not risk-checked, so there is none; the check is a filter on `add`.
- Conformance of the shard hash to a published one.
- `SymbolTable`, `Sequencer`, `IngressRing`, the gateway, the demo and the tests: easy members or drivers.
- PoolResourceImpl.PoolResource.Allocate: asks that the request round up without overflow and that the global allocator return aligned memory that is not in use; the destructor and the array form of the STL allocator are not modelled.
- ShardedEngineImpl.ShardedMatchingEngine.ReplayShard: asks that the snapshot on disk, if readable, load into a well-formed engine; Recovery.RecoverySucceeds shows that every run from an empty store meets this.
- JsonCodec.Parser.ParseNumberToken: tokens with a point, an exponent or a further sign, which the program reads as floating-point numbers, fail here.
- Recovery.RecoveryAgrees: the condition on the last snapshot is exact at the snapshot (Recovery.SnapshotRecoversExactly) and sufficient afterwards; later commands can remove the orders that made a difference.
- Ring.RoundUpPow2: asks for at most 2^63, since the loop does not end above it (Ring.RoundingEnds).
