# Verified model of the market-data pipeline

A model, in Dafny, of a hardware feed handler and of the reference programs it is
meant to agree with:

- the ITCH / MoldUDP64 framing parser (`rtl/parser/itch_parser.sv`) against the
  reference record decoder (`golden_model/src/message_oracle.py`);
- the clocked order book engine (`rtl/orderbook/orderbook.sv`) against the reference
  book (`golden_model/src/book.py`);
- both of them wired together, from wire bytes to best bid and offer;
- the file-to-capture packetizer and its reader (`scripts/binaryfile_to_pcap.py`),
  replayed through the parser;
- the SBE message codec (`golden_model/mdp3/codec.py`) and the passthrough packer and
  output FIFO (`rtl/parser/mdp3_parser.sv`).

`dafny verify dfyconfig.toml` checks everything.

## How it is built

**The order book.** `Market` is the meaning: a book is its live orders; levels, best
prices and depth are derived from them; `Publishing` says what it does and publishes in
terms of single orders. `Book` (module `ReferenceBook`) is the reference class with its
dictionaries and caches, proved to step that meaning; `Conservation` runs it and its deep
check over whole message lists.
`FirstHot`, `LevelPipeline`, `TopOfBook` and `ShownLevels` are the bounded level lists
(tree encoder, pipeline stages, list against unbounded map, what the slots show),
`OrderTable` the probed hash table,
`Records` and `Receiver` the meaning of the words on the bus, and `Engine` the closed
form of one message. `Clock` gives all registers after one clock edge: reads see the
registers before it, writes land at it. `TailMeaning` shows that the pipeline states
compute the closed form, `ProbeSafety` that every probe run ends with the direct
lookup, `Overlap` that the two receivers and the swap lose nothing; `ClockSafety` and
`ClockRefinement` carry the invariants over a clock edge, `BookRefinement` and
`StepRefinement` relate one record to one reference message, and `Runs` states the
results over whole runs, `TableRuns` and `LevelRuns` those that need no bound on what
the book holds. `FeedLimits` and `Symbols` put the conditions on the feed alone,
`LostLevels` shows what happens past them. `Progress` bounds every wait, `BookProgress`
whole streams.

**The parser.** `Itch` is the reference decoder, `ItchParser` the machine's clock edge,
`ParserSafety` its invariant, `ParserRuns` the results over whole runs,
`ParserProgress` the absence of deadlock, `QueueRegister` the wide shift register
behind the byte queue; `Gaps` says what the gap pulses tell, and `Letters` what every
letter and byte on the wire and on the bus means. `Chain` and `WireToBook` connect parser
and book, `Lockstep` and `SystemProgress` run both on one clock, `WireFeed` says what
comes out from the wire messages alone, and `FileToBook` starts from a message file.

**In place.** `LevelStore`, `BookDevice`, `ParserDevice` and `PassthroughDevice` are
classes whose fields and arrays are the registers and memories, updated in place; one
call of `Cycle` is proved to give every register the value the edge specifies. `Drive`
switches them on and runs them, with the results over whole runs as its contracts.

**Packets.** `InternetChecksum`, `Packetizer`, `Capture`, `Converter` and `Replay` cover
the packetizer; `SbeValues`, `SbeCodec`, `SbePackets` and `SbeRoundTrip` the codec, with
`SbeBytes` for what stands where; `Passthrough` and `PassthroughRuns` the passthrough
path.

Table size, probe length, list capacity, symbol count, public depth, bus width and
parser queue size are parameters throughout.

## Conditions of the main results

They are forced by the code, and each is something to look for in a feed:

- Lengths are those of the message types (Nasdaq TotalView-ITCH 5.0, sections 1.3 and
  1.4). `Receiver` marks a stream ill formed otherwise; behind the parser this always
  holds (`Chain.StreamReceived`).
- Every record is for one of the first `nsym` locates, and no locate is 0xFFFF, the
  marker of an unused slot (`rtl/orderbook/orderbook.sv:472`). No more than `nsym`
  locates on the wire is enough (`Symbols.FewSymbolsHavePlaces`).
- The side of an add is `B` or `S`. The hardware takes anything but `S` as a bid
  (`rtl/orderbook/orderbook.sv:1293`); the reference would keep levels of a third side
  (`golden_model/src/book.py:66`), which the model of it does not have.
- A reduce, delete or replace carries its order's own locate: table entries hold none
  (`rtl/orderbook/orderbook.sv:80`), and the reference uses the message's locate for
  a delete (`golden_model/src/book.py:177`).
- Accepted orders have fewer than 2^31 shares, since the change is a signed 32-bit
  number; level totals stay below 2^32; no probe path is full when an accepted order
  needs a slot; shares of zero are taken only off a listed level. `Runs.FittingRun` says
  so record by record. Fewer live orders than a path has slots is enough for the third
  (`TableRuns.PathHasRoom`), and the fourth holds within the capacity of the lists.
- No list loses a level while another is missing, or the same replace fills it up again
  (`Runs.KeptRun`). Never having more levels on a side than slots is enough
  (`LevelRuns.CapacityIsEnough`) and not needed: push-outs and discards are allowed.
  Together these are the tame runs. `FeedLimits.FeedRun` is a condition on the messages
  alone that makes a run tame (`FeedLimits.FeedIsEnough`). Once a list has lost a level,
  `LevelRuns.ClockedBookLeads` says what remains true; the table needs none of this
  (`TableRuns.ClockedTable`).
- A reference error leaves its book unchanged and emits nothing; the hardware does the
  same and goes on.

## Where the code does not do what is written about it

- The converter's size check leaves the 20-byte header out: a payload can exceed the
  limit (`Packetizer.LimitCanBeExceeded`), and stays within it exactly under the
  condition of `Packetizer.WithinLimitIff`.
- A `char` field keeps the first byte of a longer text (`SbeValues.LongTextIsCut`), and
  a character string comes back as bytes; exactly the values of
  `SbeValues.FaithfulScalar` come back.
- The encoder writes a group newer than the declared version, and the decoder passes
  over it without skipping its bytes (`SbePackets.NewerGroupIsLost`); a group behind it
  is then read in the wrong place (`SbeRoundTrip.MisreadBehindNewer`). An omitted field
  comes back as zeroes. `SbeRoundTrip.MessageComesBackIff` gives the exact condition for
  every template and content: with newer groups last it is that the content is all that
  the version has, faithfully, and nothing else (`SbeRoundTrip.NewerLastComesIff`); with
  dimensions of one width moreover that there are no entries behind a newer group
  (`SbeRoundTrip.OneWidthComesIff`); with both widths an entry there can come back by
  accident (`SbeRoundTrip.RightByAccident`).
- A level that the bounded list has dropped and that comes back by a later add at or
  behind a missing one breaks the best-first order, and the best price published is then
  wrong, for lists of every capacity (`LostLevels.WrongBestShown`,
  `LostLevels.SystemWrongBest`); `LevelRuns.ListsAlongRunIff` gives the exact
  condition over whole runs. A list that has lost all its levels publishes zeroes while
  the side still has some (`ShownLevels.BestShownIff`).

## Model

| member | source | states |
|---|---|---|
| `Runs.ClockedBookRefinesReference` | rtl/orderbook/orderbook.sv:616-853 | Main theorem of the order book. From reset, over any contents of the table, any input and both ready schedules: while the stream is well formed and the finished records are tame, the events delivered on each channel, plus one still on offer, are exactly those of folding the reference over the finished messages, each once and in order (locate, best prices and quantities, changed flag, depth); between messages table, level lists, previous best prices, market state, trading states, anomaly and cross counters mirror the reference's state. Nothing bounds the number of levels: lists push out and discard |
| `LevelRuns.ClockedBookLeads` | rtl/orderbook/orderbook.sv:1072-1174 | The same machine once its lists have lost levels: until a level gets back into a list at or behind a missing one, every side shows a best-first beginning of its true levels with exact quantities, events come when the reference's come, once and in order, and the best price and quantity published for a side are the reference's if and only if its list is in use or the side is empty; changed flags, last prices and the cross counter follow what is shown |
| `TableRuns.ClockedTable` | rtl/orderbook/orderbook.sv:1291-1374 | In every run of a well-formed stream, between messages the table stores exactly the rows that the finished records leave, each once and within reach of its path: no bound on levels, shares, symbols or locates |
| `Lockstep.SystemToBbo` | rtl/parser/itch_parser.sv:267-544 | Parser and book on one clock, the book's ready line being the parser's consumer: for all datagrams that fit the parser's queue, every cutting into beats and every schedule, the finished records carry the first wire messages of the subset, and as long as they are tame both channels carry the reference book's events for them |
| `Lockstep.RunSplits` | rtl/orderbook/orderbook.sv:133-134 | A run of both on one clock is a run of either under what its pins see, and the words the book has taken are the words the parser has sent |
| `SystemProgress.EverythingFlows` | rtl/parser/itch_parser.sv:250-258 | From every reachable configuration of both, as many cycles as there is work left, with an offering wire and ready consumers, deliver every word of every datagram, pulse once per gap, and deliver every event on both channels |
| `SystemProgress.LeftFalls` | rtl/orderbook/orderbook.sv:133-134 | Each such cycle lowers a natural-number measure, whether the book takes a word, holds one back, or works |
| `WireFeed.WireShown` | rtl/parser/itch_parser.sv:267-544 | Parser and book on one clock, on conditions on the wire messages alone: for every cutting and every schedule both channels have carried, or still offer, the reference's events for the first subset messages, and between messages all registers mirror the reference after them |
| `WireFeed.AllShown` | rtl/orderbook/orderbook.sv:616-853 | Once everything is delivered, both channels have carried the reference's events for all subset messages, each once and in order |
| `FileToBook.FileShown` | scripts/binaryfile_to_pcap.py:96-182 | From a message file on: whatever is read back from the converter's capture and sent, in any cutting and under any schedule, the events are the reference's for the first subset messages of the file |
| `FileToBook.FileDelivered` | scripts/binaryfile_to_pcap.py:96-182 | And as many cycles as there is work, with an offering wire and ready consumers, deliver the events of all messages of the file on both channels, with no gap signalled |
| `FileToBook.KeptOfAll` | rtl/parser/itch_parser.sv:332-544 | What the datagrams bring the book does not depend on how the messages are grouped |
| `WireToBook.TakenIsReceived` | rtl/orderbook/orderbook.sv:133-134 | The stream history of a run is the plain word-by-word receiver over exactly the words that were handshaken |
| `Runs.HazardFreedom` | rtl/orderbook/orderbook.sv:268-298 | In every reachable ST_APPLY or ST_UADD cycle the probe engine has nothing pending or active; in ST_APPLY the table is the one all earlier messages left, and every latched result the message uses equals a direct lookup in it |
| `Runs.DeliversHistory` | rtl/orderbook/orderbook.sv:1224-1274 | Without any bound on sizes: the delivered events, plus one on offer, are those of processing the finished records one by one; between messages so are the registers |
| `Runs.RunInv` | rtl/orderbook/orderbook.sv:449-859 | Every reachable configuration satisfies the invariant that ties receivers, engine, book registers and outputs to the stream |
| `Runs.RunSymbols` | rtl/orderbook/orderbook.sv:626-651 | Registered locates stay distinct and keep their slots; unused slots hold the marker |
| `Runs.RecordsRefine` | golden_model/src/book.py:150-197 | Record-by-record processing agrees with the reference over every tame run: same events, same final state |
| `Letters.CanonicalIff` | golden_model/src/message_oracle.py:53-66 | A message is canonical exactly for the 22 pairs of letter and length of the specification |
| `Letters.RecordsByLetter` | golden_model/src/message_oracle.py:27-75 | A canonical message makes one record, of which every field is given by its bytes, if its letter is one of S R A F E C X D U P, and none otherwise |
| `Letters.WordsByLetter` | rtl/parser/itch_parser.sv:144-180 | The parser puts words on its bus exactly for those ten letters at their lengths |
| `Letters.BusBytes` | rtl/parser/itch_parser.sv:465-513 | Every byte of every word of a record: type, locate, length and number, with eight bytes a word the time, the message from its twelfth byte on, zeroes; the last mark on the last word only |
| `Letters.MessageSays` | golden_model/src/book.py:150-197 | What a wire message tells the book, by its letter and by the offsets of its fields |
| `Letters.AddRecordSays` | rtl/orderbook/orderbook.sv:1292-1293 | A record of letter A or F is an add with reference, side, shares and price at their bytes of the body |
| `Letters.ReduceRecordSays` | rtl/orderbook/orderbook.sv:1308-1310 | A record of letter E, C or X takes shares off an order |
| `Letters.ReplaceRecordSays` | rtl/orderbook/orderbook.sv:1351-1354 | A record of letter U is a replace with both references, shares and price at their bytes |
| `Letters.OtherRecordsSay` | rtl/orderbook/orderbook.sv:1338-1382 | D deletes, S carries its code, H its state byte, and any other letter says nothing |
| `Letters.FieldLengths` | rtl/orderbook/orderbook.sv:1292-1382 | The book takes fields out of nine letters, at the lengths of the specification |
| `Publishing.BestBidIs` | golden_model/src/book.py:87-92 | The best bid is the highest price of a live buy order of the symbol, with the whole live quantity there; zeroes without one |
| `Publishing.BestAskIs` | golden_model/src/book.py:87-92 | The best ask is the lowest price of a live sell order, likewise |
| `Publishing.CrossIff` | golden_model/src/book.py:97-109 | A publication counts a cross if and only if the market is open, the symbol trades (T), some live buy order is priced at or above some live sell order, and no live sell order is priced zero |
| `Publishing.HoursAre` | golden_model/src/book.py:153-159 | Code Q opens the market, M closes it, every other leaves it |
| `Publishing.ChangedIff` | golden_model/src/book.py:110-113 | Over every run an event shows the best bid and offer of the orders after it and is flagged changed if and only if its symbol did not publish just that last |
| `Publishing.AnomalyIff` | golden_model/src/book.py:129-183 | A message counts an anomaly, and does nothing else, if and only if it names an unknown order |
| `Publishing.AddFate` | golden_model/src/book.py:163-166 | An add is refused for a known reference or no shares; otherwise it leaves every other order alone and publishes for its symbol |
| `Publishing.ReduceFate` | golden_model/src/book.py:129-172 | A reduce of more than is live is refused; otherwise it changes one order, gone at zero, and publishes for the order's symbol |
| `Publishing.DeleteFate` | golden_model/src/book.py:173-179 | A delete takes out one order and publishes for the message's symbol |
| `Publishing.ReplaceFate` | golden_model/src/book.py:180-196 | A replace is refused for no shares or a known new reference; otherwise one order becomes another of the same symbol and side |
| `Publishing.TradingIs` | golden_model/src/book.py:160-162 | Trading states change with trading actions of their symbol only; these, system events and unrelated messages move no order and publish nothing |
| `BookRefinement.DepthInOrder` | rtl/orderbook/orderbook.sv:1206-1232 | A public depth shows the best levels with their quantities, bids falling and asks rising, unused slots zero and last, and every price not shown behind all that are |
| `ReferenceBook.Book.Apply` | golden_model/src/book.py:150-197 | Every message steps the meaning of the caching book exactly as the market does and keeps all caches right: levels are the per-price sums of live orders, each best is the extremum of its side or none, the live counts count; a refused message changes nothing |
| `ReferenceBook.Book.constructor` | golden_model/src/book.py:51-61 | The empty book: valid, and its meaning is the initial state |
| `ReferenceBook.Book.LevelAdd` | golden_model/src/book.py:65-85 | One change at one level: refused exactly when the quantity would be negative, then changing nothing; otherwise exactly one level of one side moves and the cached best prices stay the extrema of the changed levels |
| `ReferenceBook.Book.Bbo` | golden_model/src/book.py:87-92 | Reading the caches gives the best bid and offer derived from the live orders |
| `ReferenceBook.Book.Emit` | golden_model/src/book.py:94-113 | Emission steps the meaning as publishing does: event, changed flag, last best prices, cross counter |
| `ReferenceBook.Book.Insert` | golden_model/src/book.py:120-122 | Adds the order and keeps every cache right |
| `ReferenceBook.Book.Remove` | golden_model/src/book.py:124-127 | Removes the order and keeps every cache right; no level is ever driven negative |
| `ReferenceBook.Book.Reduce` | golden_model/src/book.py:129-146 | Takes the shares off, removing the order at zero, and keeps every cache right |
| `ReferenceBook.Book.LevelCount` | golden_model/src/book.py:199-203 | The number of distinct prices at which the symbol has live orders, both sides |
| `ReferenceBook.Book.Rebuild` | golden_model/src/book.py:207-213 | Fails exactly when some order is empty; otherwise the rebuilt levels are the sums over the orders |
| `ReferenceBook.Book.CheckDeep` | golden_model/src/book.py:205-219 | Succeeds exactly when all orders are non-empty, the cached levels are the sums and none is empty; always succeeds on a valid book |
| `ReferenceBook.DeepVerdict` | golden_model/src/book.py:218-219 | Comparing the non-empty rebuilt levels with the non-empty cached ones decides whether the cached levels are the sums |
| `ReferenceBook.BestAfterBump` | golden_model/src/book.py:75-85 | The case split of the best-price cache is right: where the best price moves when one level changes |
| `Market.LevelsAfterInsert` | golden_model/src/book.py:115-122 | A new order raises exactly its own level |
| `Market.LevelsAfterRemove` | golden_model/src/book.py:124-127 | A removed order lowers exactly its own level, which held at least its quantity |
| `Market.LevelsAfterReduce` | golden_model/src/book.py:129-145 | A surviving reduced order lowers exactly its own level by the shares taken |
| `Market.LevelsAreDepths` | golden_model/src/book.py:205-219 | Every level is positive and equals the total live quantity at its price |
| `Market.StepKeepsLive` | golden_model/src/book.py:150-197 | No message leaves an order without shares |
| `Conservation.StepConserves` | golden_model/src/book.py:115-196 | One message: live shares before plus shares entering equal live shares after plus shares leaving |
| `Conservation.VolumeConserved` | golden_model/src/book.py:115-196 | Over every run: shares entered are shares live plus shares gone, and every live order has shares |
| `Conservation.Replay` | golden_model/src/book.py:150-219 | The caching book run over any messages has the meaning and the outcomes of the abstract run, and the periodic deep check after every message never fails |
| `OrderTable.LookupDecides` | rtl/orderbook/orderbook.sv:566-614 | A probe run finds a reference exactly when it is stored, and then returns its slot and entry: tombstones hide nothing |
| `OrderTable.LookupFindsRoom` | rtl/orderbook/orderbook.sv:582-604 | For an absent reference, the run reports full exactly when every slot of the path is taken, and otherwise a vacant slot of the path, also when that is the last slot |
| `OrderTable.WalkFinds` | rtl/orderbook/orderbook.sv:566-614 | A run finds its reference exactly when some remaining slot of the path holds it, and latches that slot and entry |
| `OrderTable.WalkSeeks` | rtl/orderbook/orderbook.sv:582-604 | The first hole is kept; full is reported exactly when no remaining slot is vacant and no hole was known |
| `OrderTable.StoreInsert` | rtl/orderbook/orderbook.sv:1299-1305 | Writing an entry for an absent reference into a vacant slot of its path adds exactly that row |
| `OrderTable.StoreDelete` | rtl/orderbook/orderbook.sv:1344-1346 | Blanking an entry removes exactly its row and keeps every other reachable |
| `OrderTable.StoreUpdate` | rtl/orderbook/orderbook.sv:1325-1332 | Rewriting an entry changes exactly its row |
| `OrderTable.StoreReplace` | rtl/orderbook/orderbook.sv:1351-1374 | The slot found for the new reference before the delete is another one and still free after it; both writes together give orders minus the original plus the new one |
| `OrderTable.PathIs` | rtl/orderbook/orderbook.sv:13-16 | Slot i of a path is the reference plus i, modulo the table |
| `OrderTable.StoredWhere` | rtl/orderbook/orderbook.sv:13-16 | Every stored row is less than a path's length behind its reference, modulo the table |
| `TableRuns.RecordSteps` | rtl/orderbook/orderbook.sv:1291-1374 | Every record for a symbol of the subset performs exactly the map update of its message, or leaves the table unchanged: duplicate, empty, unknown, too large, or with every slot of its path taken |
| `TableRuns.TableAlongRun` | rtl/orderbook/orderbook.sv:1291-1374 | Over every run of records the table stores exactly the folded rows |
| `TableRuns.RowsAreOrders` | golden_model/src/book.py:115-196 | As long as no accepted order finds its path full, those rows are the reference's live orders, whatever symbols messages name and whatever the lists do |
| `TableRuns.PathHasRoom` | rtl/orderbook/orderbook.sv:582-604 | A path cannot be full of fewer rows than it has slots |
| `TableRuns.FewOrdersFindRoom` | rtl/orderbook/orderbook.sv:582-604 | Fewer live orders of the reference than a path has slots at every accepted add and replace: no accepted order finds its path full |
| `TableRuns.LastSlotIsFree` | rtl/orderbook/orderbook.sv:566-614 | The last slot of a path is vacant for a reference above all stored ones, as long as no path wraps |
| `FirstHot.FirstOneTree` | rtl/orderbook/orderbook.sv:423-440 | The tree encoder returns the least set index, and the last index when nothing is set, for every power-of-two width |
| `FirstHot.BuildRows` | rtl/orderbook/orderbook.sv:428-431 | Row k of the tree tells for every block of 2^k bits whether it has a set bit |
| `FirstHot.NarrowOnce` | rtl/orderbook/orderbook.sv:434-438 | Deciding one more index bit keeps the first set bit inside the chosen block |
| `LevelPipeline.LevelOpIsAdjust` | rtl/orderbook/orderbook.sv:1038-1174 | Launch, both decode steps and write-back on a sorted list are insertion, removal, update or discard on the sorted sequence, push-out included |
| `LevelPipeline.AdjustKeepsRanked` | rtl/orderbook/orderbook.sv:1072-1174 | A non-zero change keeps the list strictly best first, positive, within 32 bits and within capacity |
| `LevelPipeline.DecodeHeld` | rtl/orderbook/orderbook.sv:1160-1170 | For a listed price the 33-bit sum is accepted exactly when 0 <= quantity + delta < 2^32, removing at zero |
| `LevelPipeline.DecodeAbsent` | rtl/orderbook/orderbook.sv:1136-1159 | For an unlisted price: discard on a negative change or a full list with nothing worse; otherwise insert at the first worse level or the first vacancy |
| `LevelPipeline.FindsPrice` | rtl/orderbook/orderbook.sv:1052-1115 | The match predicate finds the price at its rank or not at all |
| `LevelPipeline.FindsVacancy` | rtl/orderbook/orderbook.sv:1053-1116 | The first vacant slot is right behind the live levels; there is none exactly when the list is full |
| `LevelPipeline.FindsWorse` | rtl/orderbook/orderbook.sv:1054-1117 | The first worse level is at the rank of the absent price |
| `LevelPipeline.RemoveSlots` | rtl/orderbook/orderbook.sv:1076-1080 | The removal muxes compact the list over the found slot, price and quantity |
| `LevelPipeline.InsertSlots` | rtl/orderbook/orderbook.sv:1081-1086 | The insertion muxes shift the tail right and push the worst level out of a full list |
| `LevelPipeline.StaleQuantityIsIgnored` | rtl/orderbook/orderbook.sv:1161-1170 | What the new-quantity register held before never shows in the written list |
| `LevelPipeline.LevelOpBounded` | rtl/orderbook/orderbook.sv:1072-1100 | Quantities stay within 32 bits for any list and any change |
| `TopOfBook.PrefixStep` | rtl/orderbook/orderbook.sv:1128-1174 | One operation on a bounded list that is a best-first prefix of the true levels leaves such a prefix if and only if it is not an add that enters a list with room at or behind a dropped price |
| `TopOfBook.WithinCapacityStep` | rtl/orderbook/orderbook.sv:1128-1174 | Within capacity the list stays the whole level map, ranked |
| `TopOfBook.EnterBehindDropped` | rtl/orderbook/orderbook.sv:1158-1159 | Entering at or behind a dropped price leaves a list that is no prefix |
| `ShownLevels.BeginningKeptIff` | rtl/orderbook/orderbook.sv:1136-1174 | One operation on slots that show a beginning of the levels: they still do if and only if no level enters a list with room at or behind a missing one, told from the slots and levels before |
| `ShownLevels.TopKeptIff` | rtl/orderbook/orderbook.sv:1136-1174 | One operation on slots that show the best levels: they still do if and only if no listed level empties while another is missing |
| `ShownLevels.TopRegainedIff` | rtl/orderbook/orderbook.sv:1158-1159 | A list one level short shows the best levels again if and only if the next one enters ahead of every missing one |
| `ShownLevels.HalvesShowIff` | rtl/orderbook/orderbook.sv:1351-1374 | Both halves of a replace on one side: what the slots show at the end, if and only if what the first half loses the second makes good |
| `ShownLevels.BestShownIff` | rtl/orderbook/orderbook.sv:1206-1234 | The selected slot is the true best level if and only if some slot is in use or there is no level |
| `ShownLevels.TopShowsBest` | rtl/orderbook/orderbook.sv:1206-1234 | Slots that show the best levels select the best one with its quantity, and zeroes for an empty side |
| `ShownLevels.NothingMissing` | rtl/orderbook/orderbook.sv:1136-1158 | As many slots as levels: nothing is missing, so no change upsets the list |
| `LevelRuns.RecordFollowsIff` | rtl/orderbook/orderbook.sv:1276-1386 | One record that fits the fixed sizes: table, lists and plain registers follow the reference if and only if the record upsets no list |
| `LevelRuns.ListsAlongRunIff` | rtl/orderbook/orderbook.sv:1128-1174 | Over whole runs: at every point the lists show the best levels of their sides (of the weak sides a beginning) if and only if no record along the run upset a list |
| `LevelRuns.CapacityIsEnough` | rtl/orderbook/orderbook.sv:1136-1158 | A run that fits and never has more levels on a side than slots upsets no list |
| `LevelRuns.RecordsShow` | rtl/orderbook/orderbook.sv:1235-1247 | Over whole runs, also past lost levels: an event is flagged changed if and only if it shows something else than the last one of its symbol, the previous-price registers hold what was last shown, and the cross counter is the number of events shown crossed while the market is open and the symbol trades |
| `LostLevels.WrongBestShown` | rtl/orderbook/orderbook.sv:1158-1159 | For every capacity: one falling bid more than slots, removal of the listed ones, then a bid worse than the missing one; the last event shows that bid as best while the missing price is best |
| `LostLevels.ClockedWrongBest` | rtl/orderbook/orderbook.sv:1158-1159 | The clocked book under any schedule: once it has finished these messages the last event on the channel shows the wrong bid |
| `LostLevels.SystemWrongBest` | rtl/orderbook/orderbook.sv:1158-1159 | The same from wire messages on, in any grouping into datagrams, cutting and schedule, for every symbol and every top price |
| `LostLevels.ListedStep` | rtl/orderbook/orderbook.sv:1136-1174 | What each of these messages makes of the list: the last bid of a full list is discarded, removals compact it, and the empty one takes the worse bid |
| `LostLevels.MissingIsBest` | golden_model/src/book.py:115-146 | The reference after these messages: the missing bid is the best |
| `FeedLimits.FeedIsEnough` | rtl/orderbook/orderbook.sv:1291-1374 | Messages within the limits that can be read off the feed (own symbols, shares below 2^31, level totals below 2^32, at every accepted add or replace fewer live orders than a path has slots, never more levels than list slots) make a tame run, whatever table and lists look like |
| `FeedLimits.ClockedBookOnFeed` | rtl/orderbook/orderbook.sv:616-853 | The main theorem on those conditions: events and registers are the reference's, for every input and ready schedule |
| `Symbols.FewSymbolsHavePlaces` | rtl/orderbook/orderbook.sv:626-651 | As long as the stream names no more symbols than the table has slots, and not the marker, every record of every run is for a registered symbol |
| `LevelStore.LevelArrays.LaunchLv` | rtl/orderbook/orderbook.sv:1038-1060 | Stage 1 over the flat arrays captures exactly the addressed side and its per-slot predicates and sums |
| `LevelStore.LevelArrays.DecodeLv2a` | rtl/orderbook/orderbook.sv:1110-1119 | Stage 2a registers the tree encoders' indices and flags |
| `LevelStore.LevelArrays.MaterializeWrite` | rtl/orderbook/orderbook.sv:1072-1100 | Stage 3 writes the launched side in place; every other side of every symbol is untouched |
| `LevelStore.LevelArrays.Operate` | rtl/orderbook/orderbook.sv:1038-1174 | The four stages in a row are one level operation on one side and leave the others alone |
| `LevelStore.LevelArrays.constructor` | rtl/orderbook/orderbook.sv:452-454 | After reset every list is empty |
| `TailMeaning.ApplyThenComplete` | rtl/orderbook/orderbook.sv:745-845 | Whatever the pipeline registers held, the states from ST_APPLY to the end compute the message's closed form: table, lists, counters and at most one event |
| `TailMeaning.LevelStates` | rtl/orderbook/orderbook.sv:778-802 | The three level states write exactly the launched operation back |
| `TailMeaning.HalfStates` | rtl/orderbook/orderbook.sv:803-814 | The add half of a replace is one table write and one level operation on the lists as the delete left them, then emission: no event between the halves |
| `TailMeaning.EmissionStates` | rtl/orderbook/orderbook.sv:815-845 | The three emission states publish the first occupied slot of each side and the depth captured with it, or nothing |
| `BookRefinement.SidesAfterBump` | rtl/orderbook/orderbook.sv:1038-1100 | One order movement written back leaves the lists of all symbols and both sides exact |
| `BookRefinement.BboAgrees` | rtl/orderbook/orderbook.sv:1233-1240 | The published best bid and offer are the reference's |
| `BookRefinement.EmitMirrors` | rtl/orderbook/orderbook.sv:1235-1247 | Zero-initialised previous prices agree with a reference that has published nothing: same changed flag, same cross counting, same event |
| `BookRefinement.LiveIsQuoted` | golden_model/src/book.py:110-113 | A symbol with a live order never has the all-zero best bid and offer, so its first event is a change on both sides |
| `BookRefinement.InsertMirrors` | rtl/orderbook/orderbook.sv:1299-1305 | An accepted add: table and lists still show the orders |
| `BookRefinement.RemoveMirrors` | rtl/orderbook/orderbook.sv:1341-1349 | A delete: table and lists still show the orders |
| `BookRefinement.ReduceMirrors` | rtl/orderbook/orderbook.sv:1325-1335 | A reduce that leaves shares: table and lists still show the orders |
| `BookRefinement.LoweringFits` | rtl/orderbook/orderbook.sv:1316-1335 | Taking shares off a live order never wraps its level and never lengthens the list |
| `StepRefinement.AddSteps` | rtl/orderbook/orderbook.sv:1292-1307 | Add: both sides refuse (duplicate, empty), or both publish from table, lists and orders that show the same |
| `StepRefinement.ReduceSteps` | rtl/orderbook/orderbook.sv:1308-1337 | Execute and cancel: unknown order, too many shares, exact and partial reductions, on both sides alike |
| `StepRefinement.DeleteSteps` | rtl/orderbook/orderbook.sv:1338-1350 | Delete: known and unknown orders, on both sides alike |
| `StepRefinement.ReplaceSteps` | rtl/orderbook/orderbook.sv:1351-1374 | Replace: one atomic move on the original side, or an unknown order, zero shares or a live new reference without any change, on both sides alike |
| `StepRefinement.QuietRests` | rtl/orderbook/orderbook.sv:1376-1382 | System events, trading actions and unrelated messages move no order and emit nothing on either side |
| `StepRefinement.AnomalyRests` | rtl/orderbook/orderbook.sv:1310-1311 | A message for an unknown order counts one anomaly on both sides and changes nothing else |
| `StepRefinement.ListsKeptIff` | rtl/orderbook/orderbook.sv:1276-1386 | One record that fits: table and lists go on showing the orders if and only if the record upsets no list |
| `StepRefinement.ProcessRefines` | rtl/orderbook/orderbook.sv:1276-1386 | Every record within the fixed sizes: same event or none, and hardware and reference still mirror each other |
| `ProbeSafety.ProbeStep` | rtl/orderbook/orderbook.sv:524-614 | One edge outside the table-writing states keeps the engine on exactly the armed runs, each ending with the direct lookup of its reference |
| `ProbeSafety.WalkOnTrack` | rtl/orderbook/orderbook.sv:566-614 | With the registered read one slot ahead, an evaluated slot leaves the rest of the run with the same final result, or ends with it |
| `ProbeSafety.StartOnTrack` | rtl/orderbook/orderbook.sv:538-562 | A starting run is set up to end with the lookup of its reference |
| `ProbeSafety.QuietStep` | rtl/orderbook/orderbook.sv:524-614 | A quiet engine stays quiet and keeps its latched results and counters |
| `ProbeSafety.DoneMeansQuiet` | rtl/orderbook/orderbook.sv:742-743 | The exit condition of ST_WAIT_PROBE, with 16-bit counters, means nothing is pending and every result the message needs is its own |
| `ProbeSafety.ArmOldKeeps` | rtl/orderbook/orderbook.sv:682-711 | Arming the first run anchors the run count so that earlier runs do not count |
| `ProbeSafety.ArmNewKeeps` | rtl/orderbook/orderbook.sv:698-715 | Arming the second run while the first is pending, active or over keeps the first |
| `ProbeSafety.WaitFalls` | rtl/orderbook/orderbook.sv:524-614 | Outside the table-writing states every edge of a busy engine lowers a natural-number measure |
| `ClockSafety.BodyArms` | rtl/orderbook/orderbook.sv:673-731 | A body word arms a run exactly when it completes a reference |
| `ClockSafety.SwapArms` | rtl/orderbook/orderbook.sv:950-999 | The hand-over arms exactly the runs whose words are already in; the others are left to the body words still to come |
| `ClockSafety.EngineStep` | rtl/orderbook/orderbook.sv:449-859 | At every edge the engine keeps serving the message in flight, and is quiet whenever the table is about to be written |
| `ClockSafety.WaitEdge` | rtl/orderbook/orderbook.sv:732-744 | ST_WAIT_PROBE is left only when every armed run has ended |
| `ClockSafety.LastWordQuiet` | rtl/orderbook/orderbook.sv:717-726 | No message reaches ST_APPLY from its body with a run pending, active or armed by its last word |
| `Overlap.NxRecvMatches` | rtl/orderbook/orderbook.sv:867-918 | A word taken by the second receiver is the next word of the stream: buffer, header fields, symbol registration and completion agree |
| `Overlap.SwapMatches` | rtl/orderbook/orderbook.sv:936-1029 | The swap hands the buffer over as it stands, after no word, a half header, part of a body or a complete message |
| `ClockSafety.ArrivingStep` | rtl/orderbook/orderbook.sv:626-731 | While a message is received the receivers match the stream, no further record counts as finished and none changes |
| `ClockSafety.HoldingStep` | rtl/orderbook/orderbook.sv:732-853 | While a message is held, the accepted words are the finished messages, the one in flight, then the next one's prefix; exactly the retiring edge finishes one record |
| `ClockSafety.HoldingEdge` | rtl/orderbook/orderbook.sv:745-853 | A holding state either feeds the second receiver or hands over, never both in one cycle |
| `ClockRefinement.LatchedIsLookup` | rtl/orderbook/orderbook.sv:241-256 | At ST_APPLY the latched results are direct lookups, for whatever fields the received words hold |
| `ClockRefinement.ApplyReads` | rtl/orderbook/orderbook.sv:1276-1386 | Only the runs a message armed have a say in what it does |
| `ClockRefinement.ApplyMeansProcess` | rtl/orderbook/orderbook.sv:745-777 | The message in ST_APPLY, completed, is the record's closed form on its own header and body words |
| `ClockRefinement.HistoryMoves` | rtl/orderbook/orderbook.sv:1238-1273 | Processing advances by exactly the record that retires |
| `ClockRefinement.InvalBook` | rtl/orderbook/orderbook.sv:617-625 | The invalidation blanks every slot of a table that held anything before the first message is received |
| `ClockRefinement.BookStep` | rtl/orderbook/orderbook.sv:616-853 | In every state the book registers are those of the finished records, or become so when the message in flight completes |
| `ClockRefinement.EventsStep` | rtl/orderbook/orderbook.sv:510-514 | Every event is published once and, on each channel, delivered once under any ready schedule |
| `ClockRefinement.InvStep` | rtl/orderbook/orderbook.sv:449-859 | One cycle, any input, any ready lines: the invariant holds again |
| `Records.FieldsArePrefix` | rtl/orderbook/orderbook.sv:390-399 | Fields decoded from the 16-word buffer depend only on the message's own words, not on what an earlier message left |
| `Records.JoinedRefIsField` | rtl/orderbook/orderbook.sv:681-716 | The reference joined from whole words for the probe is the reference field decoded from the body |
| `Bytes.DigitsSay` | golden_model/src/message_oracle.py:71-72 | Each byte of a string is the digit of its place, big-endian and little-endian |
| `Progress.WaitShortens` | rtl/orderbook/orderbook.sv:732-744 | ST_WAIT_PROBE always ends: each cycle the message is applied next or the wait is shorter, whatever arrives |
| `Progress.HeldShortens` | rtl/orderbook/orderbook.sv:732-853 | With ready consumers a held message retires or gets closer to its end in each cycle |
| `Progress.MessageRetires` | rtl/orderbook/orderbook.sv:732-853 | A held message retires within a bounded number of ready cycles, whatever the producer does |
| `Progress.AcceptsWhileArriving` | rtl/orderbook/orderbook.sv:133-134 | Between messages and while one arrives every offered word is accepted |
| `BookProgress.BusyFalls` | rtl/orderbook/orderbook.sv:616-853 | Without a word, every cycle with ready consumers lowers a natural-number measure until the machine rests |
| `BookProgress.EverythingPublished` | rtl/orderbook/orderbook.sv:616-853 | From every reachable configuration, as many eager cycles as there is work left take every word of a stream of whole records, finish every record, and deliver every event on both channels |
| `BookDevice.Device.Cycle` | rtl/orderbook/orderbook.sv:449-859 | The book as a class with arrays updated in place: one call moves every register, the table and the lists to the values of one clock edge |
| `BookDevice.Device.constructor` | rtl/orderbook/orderbook.sv:450-508 | All registers as at reset, over a table that is not reset |
| `BookDevice.LocLookup` | rtl/orderbook/orderbook.sv:404-415 | The loop stops at the first slot that holds the locate, or returns 31 |
| `BookDevice.Device.ApplyTable` | rtl/orderbook/orderbook.sv:1276-1386 | One message applied to the table and the symbol's registers, in place |
| `Drive.DriveBook` | rtl/orderbook/orderbook.sv:449-859 | The book class after reset, driven for any cycles: said of its arrays, registers, the words taken and the events delivered, the table array stores the rows of the finished records, and while these are tame both channels have carried the reference's events and the arrays mirror its state |
| `Itch.IterMessageRecords` | golden_model/src/message_oracle.py:46-75 | The decoder succeeds exactly when all messages are canonical, then yields the records of the subset with the global index; otherwise it stops at the first bad message |
| `Itch.RecordsStep` | golden_model/src/message_oracle.py:57-75 | Each message appends its record or none, and always takes one index |
| `ParserRuns.ParserDelivers` | rtl/parser/itch_parser.sv:332-544 | For all datagrams that fit, every cutting into beats and every schedule: the words put on the bus are a prefix of the messages' words, exactly those of the closed datagrams between datagrams, and gap pulses count exactly the same-session headers with an unexpected number |
| `ParserRuns.ParserIsOracle` | golden_model/src/message_oracle.py:46-75 | With canonical messages the words are the reference decoder's records, last marks and global index included; once all is closed the consumer has exactly those |
| `ParserRuns.MessageIsRecord` | rtl/parser/itch_parser.sv:465-513 | Head, second and body words of one message are its record on the bus, for both bus widths |
| `ParserRuns.StreamIsOracle` | golden_model/src/message_oracle.py:55-75 | Word by word the messages of the datagrams are the decoder's records with the same numbering |
| `ParserRuns.FirstWordDigits` | golden_model/src/message_oracle.py:42-43 | The packed first word's bytes are type, locate, length and the 32-bit index |
| `Gaps.InOrderHasNone` | rtl/parser/itch_parser.sv:331-371 | A stream of one session numbered on from datagram to datagram has no gap |
| `Gaps.LostIsOneGap` | rtl/parser/itch_parser.sv:331-371 | One datagram of it lost: exactly one gap if it had messages, none otherwise |
| `Gaps.TwiceIsOneGap` | rtl/parser/itch_parser.sv:331-371 | One datagram twice in a row: likewise |
| `Gaps.NewSessionIsNone` | rtl/parser/itch_parser.sv:335-350 | The first datagram of another session is no gap, whatever its number |
| `ParserRuns.CaptureIsClean` | rtl/parser/itch_parser.sv:456-463 | On entry to ST_CAP no output word is pending, so the captured message leaves the queue once |
| `ParserRuns.RunInv` | rtl/parser/itch_parser.sv:267-544 | Every reachable configuration is in step with the datagrams it was fed |
| `ParserSafety.FlowStep` | rtl/parser/itch_parser.sv:208-262 | Across an edge the bytes of the queue and those still to come make up what is left of the datagram: nothing lost, repeated or mixed with the next one |
| `ParserSafety.NextIsWhole` | rtl/parser/itch_parser.sv:248-263 | After a datagram is closed the next one is still whole |
| `ParserSafety.BusStep` | rtl/parser/itch_parser.sv:106-120 | A word leaves the bus only in a handshake and stays unchanged until then |
| `ParserSafety.TakeHeader` | rtl/parser/itch_parser.sv:331-371 | Taking a header keeps the parser in step: session, number and count are the datagram's, and one gap more is counted exactly for the same session at another number |
| `ParserSafety.TakeEmpty` | rtl/parser/itch_parser.sv:351-370 | A header without messages keeps the parser in step: its datagram is closed at once and the expected number stays right |
| `ParserSafety.StepLen` | rtl/parser/itch_parser.sv:385-409 | The length state keeps the parser in step: the captured registers are those of the next message, which is never given up |
| `ParserSafety.StepCap` | rtl/parser/itch_parser.sv:457-463 | The capture state keeps the parser in step: the message leaves the queue whole, aligned on the next length |
| `ParserSafety.WordsMatch` | rtl/parser/itch_parser.sv:184-196 | The captured registers put the message's own words on the bus, zero-padded |
| `ParserSafety.EmitEdge` | rtl/parser/itch_parser.sv:465-513 | Each free bus cycle shows exactly the next word of the record, and nothing after the last |
| `ParserSafety.StepNext` | rtl/parser/itch_parser.sv:515-544 | Past a message the parser stays in step: on to the next one, or the datagram closed with nothing of it left |
| `ParserSafety.InvStep` | rtl/parser/itch_parser.sv:267-544 | One cycle, any schedule: the invariant holds again |
| `ParserProgress.RoomForBeat` | rtl/parser/itch_parser.sv:59-66 | While a header or a message is incomplete a whole beat always fits, thanks to the margin of one beat |
| `ParserProgress.StatesFall` | rtl/parser/itch_parser.sv:331-544 | Unless a header or a message is incomplete, every edge with a ready consumer passes a state |
| `ParserProgress.WorkFalls` | rtl/parser/itch_parser.sv:250-258 | Each cycle with an offering producer and a ready consumer lowers a natural-number measure |
| `ParserProgress.WorkNeverRises` | rtl/parser/itch_parser.sv:250-258 | Whatever the consumer does, no cycle leaves more to do |
| `ParserProgress.EverythingArrives` | rtl/parser/itch_parser.sv:267-544 | From every reachable configuration that many such cycles deliver every word of every datagram and count every gap |
| `QueueRegister.ShiftDrains` | rtl/parser/itch_parser.sv:323-324 | Shifting the wide register drains the oldest bytes |
| `QueueRegister.JoinAppends` | rtl/parser/itch_parser.sv:259-260 | The moved beat meets only zero bits, so joining it appends its bytes |
| `QueueRegister.ByteReads` | rtl/parser/itch_parser.sv:122-124 | Reading byte i of the register reads byte i of the queue, zero past its end |
| `QueueRegister.QueueEdge` | rtl/parser/itch_parser.sv:313-328 | The shift-and-join of one edge on the wide register is the byte queue's edge, and never outgrows the register |
| `ParserDevice.Device.Cycle` | rtl/parser/itch_parser.sv:267-580 | The parser as a class updated in place: one call is one clock edge |
| `ParserDevice.Device.constructor` | rtl/parser/itch_parser.sv:268-276 | All registers as at reset |
| `ParserDevice.Device.BodyWordAt` | rtl/parser/itch_parser.sv:185-196 | The byte loop builds the zero-padded body word |
| `Drive.DriveParser` | rtl/parser/itch_parser.sv:267-580 | The parser class after reset, driven for any cycles: for whatever datagrams the bytes taken cut, the words it has put out are a beginning of the records, exactly the closed datagrams' between datagrams, and the pulses are the gaps |
| `Chain.StreamReceived` | rtl/orderbook/orderbook.sv:626-731 | The parser's words are a well-formed stream for the book, with canonical lengths, and bring it exactly the subset's wire messages, in order |
| `Chain.BeginningReceived` | rtl/orderbook/orderbook.sv:626-731 | So is any beginning of them |
| `Chain.MessageReceived` | rtl/orderbook/orderbook.sv:626-731 | One message's words become exactly one record and leave nothing begun |
| `Chain.HeadIsGood` | rtl/orderbook/orderbook.sv:626-661 | The parser's head word gives the book its type, locate and body length |
| `Chain.RecordMeans` | rtl/orderbook/orderbook.sv:1292-1382 | The fields the book decodes from the words are the wire message's own fields |
| `Packetizer.GroupsJoin` | scripts/binaryfile_to_pcap.py:136-154 | The groups put together are the messages: order and contents kept |
| `Packetizer.GroupsAreGreedy` | scripts/binaryfile_to_pcap.py:145-149 | A group is closed only when it and the next message together with the header exceed the payload, or when it has the number of messages allowed; no group of more than one message exceeds either limit |
| `Packetizer.WithinLimitIff` | scripts/binaryfile_to_pcap.py:140-149 | All datagrams are within the payload limit if and only if every message with its length prefix and the 20-byte header is |
| `Packetizer.LimitCanBeExceeded` | scripts/binaryfile_to_pcap.py:140-144 | A 38-byte message passes the size check for a limit of 40 and makes a larger payload |
| `Packetizer.NumbersArePrefixSums` | scripts/binaryfile_to_pcap.py:123-133 | Datagram k is numbered one plus the messages of all datagrams before it |
| `InternetChecksum.IpChecksum` | scripts/binaryfile_to_pcap.py:47-55 | Both loops, odd lengths included, compute the folded one's complement checksum |
| `InternetChecksum.ChecksumVerifies` | scripts/binaryfile_to_pcap.py:63-74 | Any header with its checksum put in checks to zero |
| `InternetChecksum.Fold` | scripts/binaryfile_to_pcap.py:53-54 | Folding ends, fits 16 bits, keeps the sum modulo 65535, and is zero only for zero |
| `InternetChecksum.FoldsToOnes` | scripts/binaryfile_to_pcap.py:53-55 | A sum plus the complement of its fold folds to all ones |
| `InternetChecksum.ChecksumIs` | scripts/binaryfile_to_pcap.py:47-55 | The checksum makes the header, read as one big-endian number, a multiple of 65535; it is all ones exactly for a header of zeroes |
| `Capture.HeadersSay` | scripts/binaryfile_to_pcap.py:63-79 | What the headers of a record say: the first message's time in microseconds, the sizes of frame, packet and datagram, both addresses and both ports, and an IPv4 header that checks to zero |
| `Capture.FileSays` | scripts/binaryfile_to_pcap.py:113-116 | The 24 bytes the file starts with, and the records right behind them |
| `Capture.PayloadSays` | scripts/binaryfile_to_pcap.py:119-126 | Session, number and count in the first 20 bytes of a payload, and each message behind its two-byte length |
| `Capture.PackableIff` | scripts/binaryfile_to_pcap.py:63-79 | A datagram is written exactly when its session has ten bytes and sequence number, count and both sizes fit their fields |
| `Capture.CutCaptureReads` | scripts/binaryfile_to_pcap.py:158-182 | A capture cut short at any byte behind its head gives the packets before the cut, and is told damaged unless the cut is between two records |
| `Capture.SentToGroup` | scripts/binaryfile_to_pcap.py:58-60 | A frame goes to the group address of its IPv4 address: 01-00-5E and the low 23 bits (RFC 1112 section 6.4) |
| `Capture.IpHeaderVerifies` | scripts/binaryfile_to_pcap.py:68-72 | The header that is sent checks to zero |
| `Capture.IterPcapPackets` | scripts/binaryfile_to_pcap.py:158-182 | The reading loop yields the packets of the file up to its end or its first damage |
| `Capture.IterMessages` | scripts/binaryfile_to_pcap.py:176-181 | The inner loop yields as many length-prefixed messages as announced, cut at the payload's end |
| `Capture.ReadsWhatWasWritten` | scripts/binaryfile_to_pcap.py:119-182 | Reading back a written capture gives every datagram's number, messages and payload, in order |
| `Capture.ReadsRecord` | scripts/binaryfile_to_pcap.py:126-131 | One record is read back whole, and reading goes on right behind it |
| `Converter.Convert` | scripts/binaryfile_to_pcap.py:96-155 | With a session of ten bytes (any other is refused) the conversion succeeds exactly on whole files (up to the message limit) whose messages pass the size check and whose datagrams' header fields hold; it then writes exactly the capture of the grouped messages |
| `Converter.Conversion.Put` | scripts/binaryfile_to_pcap.py:145-153 | One message: flushed first when it does not go in; the file is always the closed groups' capture |
| `Converter.Conversion.Flush` | scripts/binaryfile_to_pcap.py:119-134 | Writes the open group as one numbered datagram, or fails exactly when a field cannot hold its value |
| `Converter.Conversion.Finish` | scripts/binaryfile_to_pcap.py:154-155 | After the last flush the file is the capture of all messages |
| `Converter.ParsesFrames` | scripts/binaryfile_to_pcap.py:82-93 | A file of length-prefixed messages parses into exactly them |
| `Converter.CutFileParses` | scripts/binaryfile_to_pcap.py:82-93 | A message file cut short at any byte gives the messages before the cut, and the cut is told unless it is between two messages |
| `Converter.FeedSays` | scripts/binaryfile_to_pcap.py:119-134 | Datagram k carries the session, group k, and as its number one plus the messages before it |
| `Converter.ClosedStay` | scripts/binaryfile_to_pcap.py:145-150 | A closed group never changes, whatever follows |
| `Replay.FeedCarriesAll` | scripts/binaryfile_to_pcap.py:119-154 | The datagrams carry the file's messages byte for byte |
| `Replay.FeedPacksIff` | scripts/binaryfile_to_pcap.py:119-154 | With a limit that UDP carries, every datagram of a file holds all its fields if and only if every message fits one with both headers |
| `Replay.ConvertsIff` | scripts/binaryfile_to_pcap.py:96-155 | A file of length-prefixed messages is converted if and only if every message passes the size check and fits a datagram |
| `Replay.LimitStops` | scripts/binaryfile_to_pcap.py:136-139 | With a limit exactly the first messages are converted, whatever follows in the file |
| `Replay.RoundTrip` | scripts/binaryfile_to_pcap.py:96-182 | Convert a file of such messages, then read the capture back: the same messages in the same order, in numbered packets, nothing damaged |
| `Replay.FeedHasNoGap` | scripts/binaryfile_to_pcap.py:123-133 | The numbering has no gap at any datagram |
| `Replay.ReplayThroughParser` | rtl/parser/itch_parser.sv:332-544 | A converted file sent through the hardware parser under any schedule gives the reference records of the file, and no gap is signalled |
| `PassthroughRuns.RecordsDelivered` | golden_model/mdp3/codec.py:372-385 | For all captured messages and every ready schedule the delivered words are a beginning of the records' words, none lost or repeated, the last mark only on a record's last word, the buffer never above its depth; once idle exactly all of them |
| `PassthroughRuns.EverythingDelivered` | rtl/parser/mdp3_parser.sv:585-628 | From every reachable configuration a bounded number of ready cycles delivers every word |
| `PassthroughRuns.BodyIsKept` | golden_model/mdp3/codec.py:372-390 | The record's bytes are the two prefix words, the body exactly, and zero padding to a word |
| `PassthroughRuns.MarkedAt` | rtl/parser/mdp3_parser.sv:589-612 | What each word of a record is, and that only the last is marked |
| `PassthroughRuns.PackStep` | rtl/parser/mdp3_parser.sv:585-624 | One step of the byte-serial packer writes exactly the record's next word or takes one more byte |
| `PassthroughRuns.InvStep` | rtl/parser/mdp3_parser.sv:585-628 | One cycle, any arrival, any ready line: the invariant holds again |
| `Passthrough.FifoStep` | rtl/parser/mdp3_parser.sv:210-236 | One edge of buffer and output register: a queue that loses its front exactly on a handshake and gains what is pushed; the word on offer stays until taken |
| `Passthrough.QueuePush` | rtl/parser/mdp3_parser.sv:201-204 | Pushing behind the last slot appends, also when the pointer wraps |
| `Passthrough.QueuePop` | rtl/parser/mdp3_parser.sv:201-204 | Advancing the head drops the front, also when the pointer wraps |
| `PassthroughDevice.Device.Cycle` | rtl/parser/mdp3_parser.sv:220-236 | The path as a class with an array buffer: one call is one clock edge |
| `Drive.DrivePassthrough` | golden_model/mdp3/codec.py:372-385 | The path's class after reset, driven for any cycles: the words delivered are a beginning of the records' words, all of them once idle, and the buffer array never holds more than it can |
| `PassthroughDevice.Device.Move` | rtl/parser/mdp3_parser.sv:785-789 | Push, pop and the count's net balance, in place |
| `PassthroughDevice.Device.constructor` | rtl/parser/mdp3_parser.sv:221-226 | All registers as at reset |
| `SbeValues.ScalarRoundTrip` | golden_model/mdp3/codec.py:59-99 | An encodable scalar comes back if and only if it is an integer in range or one byte of text, not a character string |
| `SbeValues.LongTextIsCut` | golden_model/mdp3/codec.py:61-65 | A two-character text comes back as its first character |
| `SbeValues.ValueRoundTrip` | golden_model/mdp3/codec.py:52-89 | An encodable value of any type comes back if and only if each of its parts does |
| `SbeValues.CompositeRoundTrip` | golden_model/mdp3/codec.py:69-80 | A composite comes back if and only if it names exactly its parts, constants with their constant, and each part comes back |
| `SbeValues.ValueSizes` | golden_model/mdp3/codec.py:52-56 | An encoding takes the type's width, within the size the schema computes |
| `SbeBytes.IntegerStands` | golden_model/mdp3/codec.py:59-66 | An integer is encoded exactly when it is in range, byte k being its k-th digit to base 256, a negative one as its complement |
| `SbeBytes.DecodedEncodes` | golden_model/mdp3/codec.py:92-99 | Any bytes decode to the scalar that those bytes encode |
| `SbeBytes.CharacterStands` | golden_model/mdp3/codec.py:61-65 | A character is the first byte of a text, zero for an empty one, or a number below 256 |
| `SbeBytes.PartIs` | golden_model/mdp3/codec.py:38-39 | A value that is no collection of parts is meant for every part |
| `SbeBytes.PartsEncodeIff` | golden_model/mdp3/codec.py:34-40 | A composite is encoded exactly when every part but the constants is given and encodes |
| `SbeBytes.NeedsNoValueIff` | golden_model/mdp3/codec.py:34-40 | The types that are encoded without a value are those that a value without parts will do for |
| `SbeBytes.PartStands` | golden_model/mdp3/codec.py:34-40 | A part stands behind the parts before it, constants taking no room |
| `SbeCodec.BlockHolds` | golden_model/mdp3/codec.py:113-123 | After all fields are written each one's bytes stand at its offset: no field overwrites another |
| `SbeCodec.BlockReads` | golden_model/mdp3/codec.py:197-201 | A block decodes field by field to what its values give, wherever it stands and for any version |
| `SbeCodec.EntriesRead` | golden_model/mdp3/codec.py:216-226 | Any number of encoded entries decode in order, and decoding ends right behind them |
| `SbeCodec.GroupsRead` | golden_model/mdp3/codec.py:202-227 | Encoded groups decode one after another when none is newer than the version |
| `SbeCodec.GroupsTake` | golden_model/mdp3/codec.py:125-142 | The groups take the sum of their dimensions and entries |
| `SbeBytes.FieldStands` | golden_model/mdp3/codec.py:113-123 | At a field's offset stands the value under its name, or else under its tag; zeroes without one or for a newer field |
| `SbeBytes.BlockEncodesIff` | golden_model/mdp3/codec.py:113-123 | A block is encoded exactly when every given value of the version is and every other may be left out |
| `SbeBytes.RestIsZero` | golden_model/mdp3/codec.py:111-123 | Bytes of a block that belong to no given field of the version stay as they were |
| `SbeBytes.DecodedFields` | golden_model/mdp3/codec.py:195-201 | Any bytes decode to exactly the fields of the version that lie inside the block sent, each from its offset |
| `SbeBytes.GroupStands` | golden_model/mdp3/codec.py:125-142 | Each group stands behind the groups before it: block length in two bytes, zeroes, the number of entries in the last byte of three or eight, then the entries |
| `SbeBytes.PlaceOfGroup` | golden_model/mdp3/codec.py:125-142 | Where a group stands: three or eight bytes and the entries of each group before it |
| `SbeBytes.EntryStands` | golden_model/mdp3/codec.py:134-141 | Entry k of a group is its block, k blocks on |
| `SbePackets.MessageSize` | golden_model/mdp3/codec.py:144-146 | A message takes 10 bytes, its block, and each group's dimension and entries |
| `SbeBytes.MessageStands` | golden_model/mdp3/codec.py:144-146 | An encoded message is size, block length, template, schema and version in ten bytes, low byte first, the root block, and the groups |
| `SbeBytes.MessageEncodesIff` | golden_model/mdp3/codec.py:104-146 | A message is encoded exactly when block and groups are and every number of the prefix fits two bytes |
| `SbeBytes.PacketStands` | golden_model/mdp3/codec.py:149-152 | A packet is the number in four bytes, the time in eight, and the messages |
| `SbeBytes.DecodedOrNot` | golden_model/mdp3/codec.py:186-196 | Templates 46, 47, 52 and 53 are decoded, with a root block no longer than the schema's, and nothing else |
| `SbeBytes.WalkStands` | golden_model/mdp3/codec.py:169-183 | Message i of any packet stands where the one before ended, with the numbers of its prefix; a size below ten or past the end is the last, empty one |
| `SbePackets.NewerGroupIsLost` | golden_model/mdp3/codec.py:204-205 | A group newer than the declared version is written and not read |
| `SbeRoundTrip.RowComesBackIff` | golden_model/mdp3/codec.py:113-123 | A block's row comes back if and only if it names exactly the fields of the version, each with a value faithful to its type |
| `SbeRoundTrip.GroupsComeBackIff` | golden_model/mdp3/codec.py:202-227 | The groups come back if and only if the content names exactly those of the version, the entries up to the first newer group are exact, and what is found for each later one, that many bytes before its place, are its entries |
| `SbeRoundTrip.MessageComesBackIff` | golden_model/mdp3/codec.py:104-227 | For every template, version and content that can be encoded: decoding gives what was put in if and only if the fields are exact, exactly the groups of the version are named, and each is found with its entries |
| `SbeRoundTrip.NewerLastComesIff` | golden_model/mdp3/codec.py:202-227 | With newer groups last: it comes back if and only if it is everything the version has, faithfully, and nothing else |
| `SbeRoundTrip.OneWidthComesIff` | golden_model/mdp3/codec.py:202-227 | With dimensions of one width: if and only if it is that and has no entries behind a newer group |
| `SbeRoundTrip.RightByAccident` | golden_model/mdp3/codec.py:202-227 | With dimensions of both widths an entry behind a newer group can come back: its count is read out of another group's block length |
| `SbeRoundTrip.PacketComesBackIff` | golden_model/mdp3/codec.py:149-227 | The same for every message of an encoded packet |
| `SbeRoundTrip.MisreadBehindNewer` | golden_model/mdp3/codec.py:204-214 | With a newer group in front of an older one, an exact content does not come back: the older group is read where the newer one's dimension stands |
| `SbePackets.GroupsFoundIff` | golden_model/mdp3/codec.py:203-205 | Decoding any bytes finds all groups of the template if and only if none is newer than the version |
| `SbePackets.FieldComesBack` | golden_model/mdp3/codec.py:198-201 | A field's own value comes back if and only if it is faithful to its type |
| `SbePackets.EntriesComeBack` | golden_model/mdp3/codec.py:216-225 | Every entry of a group comes back, in order |
| `SbePackets.GroupComesBack` | golden_model/mdp3/codec.py:202-226 | Every group comes back under its name |
| `SbePackets.IterPacketMessages` | golden_model/mdp3/codec.py:169-183 | The walk ends for every packet, with a final empty message exactly at a size that cannot be |
| `SbePackets.PacketRoundTrip` | golden_model/mdp3/codec.py:149-183 | Every message of an encoded packet is handed out as encoded, in order, nothing else |
| `SbePackets.WriteBlock` | golden_model/mdp3/codec.py:113-123 | The block filled in place is the encoded block; it is given up exactly when a value does not encode |
| `SbePackets.WriteAt` | golden_model/mdp3/codec.py:52-56 | Writes the bytes at the offset and nothing else |

## Left out

- Error pulses of parser and book, the `m_len` and `m_idx` sanity checks that only feed them, and `pr_empty_found`, which nothing reads.
- References of fewer than 64 bits: the book's `K` is 64 here, so a table reference is the whole reference number.
- Strict-cross mode of the reference book, which raises after it has changed the book.
- What lists and public depth show after a level has got back in at or behind a missing one: the results stop there, as the property fails there.
- Trading actions through the whole chain: the parser's subset has no `H`, so in `WireToBook` the trading states never change; the book alone handles them.
- Parser messages larger than the queue (`ST_DRAIN`), malformed byte strobes, and recovery from truncated datagrams: the reset-to-header and discard branches are modelled, the claims assume well-formed datagrams.
- The queue of the parser is a byte sequence in `ItchParser`; `QueueRegister` relates it to the wide register, one edge at a time.
- The clock edges are functions on register values, and the classes' handlers follow them branch by branch; what is proved of runs is said of the classes in `Drive`.
- The next-state output of `swap_next`, a blocking output variable in the source, takes effect at the edge like the other registers.
- Capture of MDP 3.0 messages and their decoding into fixed tables (`rtl/parser/mdp3_parser.sv`), and the choice between its two capture buffers: `Passthrough` takes captured messages in order.
- Enumeration values given by name and numbers given as text in the codec; reading the schema from XML, which is not part of this model.
- Annex M records of the decoded templates.
- Converter statistics other than the packet count, file and command-line handling, the default settings; a partial capture left behind by a failed conversion.
- Latency counters, timing, memory inference, random corpora, statistics and the board-level wrapper.
