# A verified model of the matching engine

This project models a price-time limit order book behind a write-ahead journal and a two-thread TCP
exchange, and proves what the parts promise and what they promise together. `dafny verify
dfyconfig.toml` checks all of it.

The parts, bottom up:

- **Order book.** `FlatBook` is the reference: one sequence of resting orders in arrival order, searched
  for the best price and then the earliest arrival. `OrderBook` is the production book as a class: two
  price ladders, a list per level, a running total per level, an index from ids to locators, the set of
  ids ever seen, and two 64-bit counters that wrap to 0. `Ladder`, `BookState` and `BookQueries` connect
  the two: every method of the class does exactly what the flat book does. `BookLaws` and `BookRuns` state
  the laws of the flat book over all command sequences, and `BookAnswers` the exact condition of each
  of its answers; they therefore hold of the class.
- **Journal.** `Bytes`, `Crc32c`, `JournalCodec` and `JournalEncoder` are the frames; `CrcRemainder`
  proves what the checksum is, `Layouts` where every field stands, `JournalLaws` and `JournalDamage` the
  other laws; `JournalScan` what a whole file means; `JournalStorage` the file, as octets
  and a synced length, and its writer.
- **Durable engine.** `DurableEngine` runs batches and recovers; `DurableRuns` follows file, engine and
  acknowledgements through every run of batches, partial writes, failed syncs, crashes and recoveries.
- **Wire protocol.** `WireCodec`, `WireLaws` and `StreamParser`: frames and the incremental parser.
- **Exchange.** `Gateway` holds the small shared objects (queue, limiter, output buffer) and the
  conversions. `Pipeline` is the exchange as a step machine in which one step is one mutex section, one
  access to an atomic or one socket event, and the gateway thread, the worker thread, sockets and
  whoever asks for a stop are interleaved arbitrarily. `PipelineObjects` ties the shared objects to its
  steps, and the other `Pipeline…` modules prove what every interleaving keeps. `ClientView` is the
  client's side, and `Exchange` composes everything.

The results that need all of it are in `Exchange`: a client that sends commands reads their results in
one sequential book run over the admission order (`ClientSeesOneBook`, `ClientReadsItsResults`), a
published result survives every later crash (`PublishedResultSurvives`), and acknowledgements survive
any number of lives of the exchange (`AcknowledgedForever`).

Two expectations hold only under a condition on the configuration, and both directions are proved:

- A stream of well-formed requests is read completely exactly if every frame in it fits the parser's
  limit (`StreamIsReadExactlyIfItFits`). So cancel requests pass from 28 octets on, which is what the
  gateway's configuration check asks for (src/gateway_server.cpp:347), and submit requests from 45.
- Every batch size has an entry in the batch histogram in every run exactly if the smaller of the batch
  limit and the in-flight limit is at most the request queue's capacity (`EveryBatchIsCounted`); the
  configuration check does not compare them (src/exchange_server.cpp:208-211).

Crashes are modelled as keeping every synced octet and any prefix of the later ones. A truncation that was
not synced is treated as done. Sequential consistency is assumed of the atomics.

## Model

| member | source | states |
|---|---|---|
| FlatBook.BestIndex | tests/reference_order_book.hpp:22-121 | the maker chosen next has the best price of its side and, among equal prices, arrived first; none is chosen only if the side is empty |
| FlatBook.Match | src/order_book.cpp:169-217 | matching stops only when no maker is left that may trade with what remains of the order |
| BookAnswers.MatchTakesOffer | src/order_book.cpp:169-217 | matching takes exactly the smaller of what is wanted and the sum of what the other side has open within the order's limit |
| BookAnswers.EveryTradeIsFair | src/order_book.cpp:176-198 | every trade names the order as taker and an order of the other side as maker, at the maker's price, at most a buyer's limit and at least a seller's, for no more than is open; whoever was ahead by price or arrival has been filled before |
| BookAnswers.EveryTradeOfARunIsFair | src/order_book.cpp:176-198 | the same for every trade of every result of every run |
| FlatBook.Submit | src/order_book.cpp:341-452 | a rejected order leaves the reference book unchanged and makes no trade; an accepted one was new, is remembered, and splits its quantity into executed and resting |
| BookRuns.AcceptedOrder | src/order_book.cpp:405-451 | an accepted order's trades are worth its executed quantity, and the rest of it stands behind all other orders, or nothing does if nothing is left |
| BookLaws.NobodyIsPassedOver | src/order_book.cpp:169-217 | every fill of a match hits a maker of the other side within the taker's limit, at the maker's price, and every order with a better price or the same price and an earlier arrival has been filled completely by then |
| BookLaws.MatchKeepsValid | src/order_book.cpp:169-217 | matching keeps the book uncrossed, in arrival order, with distinct ids and level totals within 64 bits |
| BookLaws.MatchLeavesOwnSide | src/order_book.cpp:381-395 | matching never changes the taker's own side, so the overflow check made before it still holds after it |
| BookLaws.SubmitKeepsValid | src/order_book.cpp:341-452 | any submitted order, valid or not, leaves a well-formed book |
| BookLaws.CancelKeepsValid | src/order_book.cpp:454-474 | any cancellation leaves a well-formed book |
| BookRuns.RunKeepsValid | src/order_book.cpp:262-319 | every book reachable by any commands is uncrossed, ordered, without duplicate ids and without overflow |
| BookRuns.RunConserves | src/order_book.cpp:169-240 | over every run, for one order id or for all: accepted quantity = open + cancelled + traded, counting a trade for maker and taker |
| BookRuns.QuantityIsConserved | src/order_book.cpp:400-474 | accepted quantity = resting + cancelled + twice the traded volume |
| BookRuns.RestingOrderHistory | src/order_book.cpp:192-215 | what is missing from a resting order is the sum of all trades that name it as maker or taker |
| BookRuns.RunNumbersTrades | src/order_book.cpp:186-199 | over every run trade ids continue without gap, repeat or zero |
| BookRuns.SeenIsAccepted | src/order_book.cpp:354-403 | the ids the book remembers are exactly those it ever accepted, resting or not |
| BookAnswers.FieldAnswers | src/order_book.cpp:342-353 | each of the four malformed-field rejections is given exactly for its field, in the order of the checks |
| BookAnswers.AnswerShape | src/order_book.cpp:341-452 | a rejection carries a reason, no quantities and no trades and leaves the book as it was; an acceptance carries none |
| BookAnswers.OrderAnswers | src/order_book.cpp:354-452 | after any run the exact condition of every other answer to an order: duplicate, no trade ids, no arrival number (2^64-1 orders have come to rest), level overflow, and acceptance in all other cases, executed as far as it is offered and resting with the rest |
| BookAnswers.CancelAnswers | src/order_book.cpp:454-474 | an id is cancelled exactly if it rests, with what is open of it, and that order alone leaves the book; any other id is not found and changes nothing |
| BookAnswers.CancelAnswersOverRuns | src/order_book.cpp:454-474 | after any run an id is found exactly if more was accepted for it than was traded and withdrawn, and the difference is cancelled |
| Ladder.HeadIsBest | src/order_book.cpp:176-181 | the first order of the first level is the maker the flat book chooses, and a ladder is empty exactly if the flat book has no maker |
| Ladder.PatchRefines | src/order_book.cpp:201-216 | reducing an order in its level, erasing it or its level when empty, is executing it in the flat book |
| Ladder.JoinedRefines | src/order_book.cpp:74-117 | appending an order to its level, or to a new level in its place, is appending it to the flat book |
| Ladder.LevelTotal | src/order_book.cpp:381-395 | the running total found at a price is the sum of the open quantities resting there |
| Ladder.PreviewIsMatch | src/order_book.cpp:119-156 | the preview foretells the remaining quantity and the number of trades of the match that follows |
| BookSimulation.TradeRefines | src/order_book.cpp:178-216 | one trade with the head of the best level keeps the production state representing the flat book, and the total covers it |
| BookSimulation.RestRefines | src/order_book.cpp:74-117 | resting an order keeps the production state representing the flat book, index and counter included |
| BookSimulation.LocatorLeadsToOrder | src/order_book.cpp:219-230 | an id is indexed exactly if it rests, and its locator leads to its node in its level, so the corrupt-locator branch is unreachable |
| BookSimulation.WithdrawalRefines | src/order_book.cpp:232-239 | taking an order out through its locator is cancelling it in the flat book |
| BookQueries.DepthIsUnique | src/order_book.cpp:242-260 | the specification of depth (best levels first, none skipped, right totals and counts) admits one answer |
| BookQueries.LadderDepth | src/order_book.cpp:242-260 | the first levels of a ladder are that answer |
| BookQueries.IndexIsBijection | src/order_book.cpp:302-318 | the index and the lists hold the same ids, each listed once |
| BookQueries.InvariantsAlwaysHold | src/order_book.cpp:262-319 | every state that represents a flat book passes the whole self-check |
| OrderBook.PreviewLevel | src/order_book.cpp:132-149 | walking one level absorbs its makers in list order and counts the trades |
| OrderBook.PreviewMatch | src/order_book.cpp:119-156 | the two loops return the remaining quantity and trade count of the flat match, without changing anything; counting never reaches the early return |
| OrderBook.RoomToRest | src/order_book.cpp:381-441 | what was checked before matching suffices for the remainder to be inserted after it |
| OrderBook.OrderBook.CanIssueTradeIds | src/order_book.cpp:158-167 | the wrapping loop agrees with one comparison: no id needed, or the counter is not exhausted and enough ids are left below 2^64 |
| OrderBook.OrderBook.TradeWithBest | src/order_book.cpp:178-216 | one iteration trades with the flat book's best maker at its price; the terminate branch is unreachable |
| OrderBook.OrderBook.Match | src/order_book.cpp:169-217 | the loop leaves the flat match's book, remainder and trades, numbered from the counter; what those are is said by the laws of the flat match above |
| OrderBook.OrderBook.InsertRestingOrder | src/order_book.cpp:74-117 | the remainder joins the end of its level and of the arrival order |
| OrderBook.OrderBook.Submit | src/order_book.cpp:341-452 | result and new book are those of the flat book, whose every answer is given exactly above; a rejection changes no field; the self-check passes |
| OrderBook.OrderBook.CancelRestingOrder | src/order_book.cpp:219-240 | following a locator cancels that order in the flat book |
| OrderBook.OrderBook.Cancel | src/order_book.cpp:454-474 | result and new book are those of the flat book, whose every answer is given exactly above; the self-check passes |
| OrderBook.OrderBook.Best | src/order_book.cpp:476-490 | the best price of a side and everything open at it, or nothing exactly if the side is empty |
| OrderBook.OrderBook.Find | src/order_book.cpp:492-506 | an order is found exactly if it rests, with its fields |
| OrderBook.OrderBook.Depth | src/order_book.cpp:508-516 | the best levels of a side, at most as many as asked for, none skipped |
| OrderBook.OrderBook.ActiveOrderCount | src/order_book.cpp:518-520 | the size of the index is the number of resting orders |
| Bytes.ValueOfBigEndian | src/journal.cpp:31-83 | reading a big-endian field gives the number that was written |
| Bytes.BigEndianOfValue | src/journal.cpp:31-83 | writing what was read gives the same octets |
| Bytes.Append | src/journal.cpp:40-53 | the shifting loop appends the big-endian octets |
| Bytes.Read | src/journal.cpp:58-80 | the accumulating loop reads them |
| Crc32c.UpdateInjective | src/journal.cpp:88-101 | over any octets the checksum state is never forgotten: different states stay different |
| Crc32c.BurstIsSeen | src/journal.cpp:88-101 | replacing at most four consecutive octets anywhere in a stream of any length changes the state |
| Crc32c.UpdateLoop | src/journal.cpp:88-101 | the branch-free bit loop computes the update that the next row identifies |
| CrcRemainder.ChecksumIsRemainder | src/journal.cpp:88-113 | for every stream the checksum is CRC-32C: the message times x^32 with its 32 highest coefficients inverted, divided by the Castagnoli polynomial given by its exponents, the remainder inverted |
| CrcRemainder.PolynomialIsDivisor | src/journal.cpp:91-91 | the reflected constant is the Castagnoli polynomial without its highest power |
| JournalEncoder.EncodePayload | src/journal.cpp:137-157 | the payload is built field by field |
| JournalEncoder.ComputeFrameCrc | src/journal.cpp:103-113 | two updates cover the header part and the payload as one stream |
| JournalEncoder.BuildRecord | src/journal.cpp:199-223 | the frame with the checksum patched in is the encoding of the record; sequence 0 is refused |
| JournalLaws.DecodeOfEncode | src/journal.cpp:199-288 | a frame is decoded to its record and consumes itself, whatever follows |
| JournalLaws.EncodeOfDecode | src/journal.cpp:225-288 | whatever is accepted is the one encoding of the decoded record |
| JournalLaws.PrefixIsTruncated | src/journal.cpp:225-288 | every proper prefix of a frame is truncated and nothing else |
| JournalLaws.TruncatedIsShort | src/journal.cpp:225-288 | a truncated tail has at most 48 octets |
| JournalLayout.FileHeaderLayout | src/journal.cpp:167-175 | the sixteen octets of the file header |
| JournalLayout.SubmitRecordLayout | src/journal.cpp:137-223 | every field of a submit record at its octets, the checksum over octets 4 to 19 and 24 to 48 |
| JournalLayout.CancelRecordLayout | src/journal.cpp:137-223 | every field of a cancel record at its octets |
| JournalLayout.FrameVerdicts | src/journal.cpp:225-288 | which octets lead to which of the decoder's verdicts, for every input |
| JournalDamage.CoveredDamage | src/journal.cpp:225-288 | up to four consecutive covered octets changed: the frame is refused as corrupt, never as truncated, even if its type and length change |
| JournalDamage.OctetDamage | src/journal.cpp:225-288 | any one octet of a frame changed: refused as corrupt |
| JournalScanLaws.HeaderIsUnique | src/journal.cpp:177-197 | exactly one file header is accepted |
| JournalScanLaws.ScanOfCutFile | src/journal_storage.cpp:223-297 | a clean journal of any length, cut anywhere behind its header, yields exactly the commands whose frames are complete, the size of those frames, and the next number |
| JournalScanLaws.AcceptedFileIsCanonical | src/journal_storage.cpp:223-297 | whatever file is accepted is a clean journal and a tail of at most 48 octets without a complete frame |
| JournalScanLaws.ScanOfClean | src/journal_storage.cpp:223-297 | a clean journal is read back completely |
| JournalScanLaws.RepairIsIdempotent | src/journal_storage.cpp:406-431 | cutting the tail off leaves a file with the same commands and no tail |
| JournalScanLaws.OctetDamageIsFatal | src/journal_storage.cpp:269-281 | one changed octet anywhere in a clean journal of any length makes the scan fail |
| JournalScanLaws.BurstIsFatal | src/journal_storage.cpp:269-281 | so do up to four consecutive covered octets of any one record |
| JournalScanLaws.ScanStopsAtFirstBadFrame | src/journal_storage.cpp:262-281 | behind any number of clean frames, the first bad or misnumbered one decides with which error the scan fails |
| JournalStorage.Available | src/journal_storage.cpp:454-458 | the 64-bit expression counts the numbers left, and none for 0 |
| JournalStorage.ScanDescriptor | src/journal_storage.cpp:223-297 | the loop over an 88-octet window computes the scan of the whole file |
| JournalStorage.ThroughIsSupply | src/journal_storage.cpp:139-174 | a frame gets through exactly as far as the positive answers before the first zero or failure add up |
| JournalStorage.BatchGetsThrough | src/journal_storage.cpp:481-488 | however short the writes are, a batch is written completely if none fails and there are enough of them |
| JournalStorage.JournalFile.WriteAll | src/journal_storage.cpp:139-174 | short writes and interrupts leave the prefix of the frame that the answers let through, and success is having written all of it |
| JournalStorage.JournalFile.WriteFrames | src/journal_storage.cpp:481-488 | frame by frame, the prefix of all frames that the answers let through is written, and success is having written all of it |
| JournalStorage.JournalWriter.AppendBatchAndSync | src/journal_storage.cpp:442-510 | file, writer and result are those of the batch specification with as many octets written as the answers let through and the sync as given |
| JournalStorage.EncodeBatch | src/journal_storage.cpp:460-479 | every frame of a batch is encoded, with consecutive numbers, before anything is written |
| DurableEngine.BatchIsApplied | src/durable_engine.cpp:149-173 | however short the writes are, a batch is applied if no call fails and there are enough of them |
| DurableEngine.BatchVerdict | src/durable_engine.cpp:149-173 | a batch is applied exactly if engine, writer, numbers, writes, sync and application are all in order; otherwise the engine has failed, the first thing that went wrong is reported, and the file has grown by no more than the batch |
| DurableEngine.GroupCommit | src/durable_engine.cpp:149-173 | a batch leaves the same file, book, writer and results as its two halves one after the other |
| DurableEngine.GroupCommitOfSingles | src/durable_engine.cpp:135-173 | and the same as its commands one by one |
| DurableEngine.OneRepairSuffices | src/durable_engine.cpp:99-114 | for any file the failure branch behind a repair is unreachable |
| DurableEngine.RecoveryIsIdempotent | src/durable_engine.cpp:92-133 | recovering a recovered file changes neither file nor engine |
| DurableEngine.DamageStopsRecovery | src/durable_engine.cpp:92-133 | one changed octet in a clean journal: recovery refuses it and leaves it alone |
| DurableEngine.BurstStopsRecovery | src/durable_engine.cpp:92-133 | the same for up to four consecutive covered octets of any one record |
| DurableEngineObject.ApplyCommand | src/durable_engine.cpp:44-70 | a command does to the book object what it does to the flat book |
| DurableEngineObject.Replay | src/durable_engine.cpp:183-194 | replaying into a fresh book object gives the run of the commands |
| DurableEngineObject.DurableEngine.ExecuteBatch | src/durable_engine.cpp:149-173 | file, engine and result are those of the batch specification for the given answers, sync and exception |
| DurableEngineObject.RepairFile | src/journal_storage.cpp:406-431 | the repair object does what the repair specification says |
| DurableEngineObject.RecoverEngine | src/durable_engine.cpp:92-133 | recovery of a file object does what the recovery specification says and returns a valid engine exactly if it succeeds |
| DurableRuns.HealthyBatchKeepsGood | src/durable_engine.cpp:149-173 | whatever a batch meets (partial write, failed sync, exception), file, engine and acknowledgements stay in agreement |
| DurableRuns.RecoveryOfCut | src/durable_engine.cpp:92-133 | recovery of any cut journal yields the complete commands, their book and the next number, and a file of exactly their frames |
| DurableRuns.EveryRunIsGood | src/durable_engine.cpp:92-173 | over every run of batches, failures, crashes and recoveries: the file is a cut clean journal, a healthy engine is its replay and writes on behind it, every acknowledged command stands in the synced part under its number with its result |
| DurableRuns.AckSurvivesCrash | src/durable_engine.cpp:92-173 | crash and recovery keep a prefix of the journal that covers every acknowledgement |
| DurableRuns.NothingAcknowledgedIsLost | src/durable_engine.cpp:92-173 | the same at any moment of any run from a fresh file |
| WireLaws.ClientRoundTrip | src/wire_protocol.cpp:368-481 | a request frame is decoded to its request, whatever follows |
| WireLaws.ClientIsCanonical | src/wire_protocol.cpp:447-481 | whatever is accepted is the one encoding of its request |
| WireLaws.ClientIsStable | src/wire_protocol.cpp:447-481 | a verdict other than truncated does not change with more octets |
| WireLaws.ClientPrefixIsTruncated | src/wire_protocol.cpp:447-481 | every proper prefix of a request frame is truncated |
| WireLaws.ClientVerdict | src/wire_protocol.cpp:119-158 | forty-five octets always suffice for a verdict |
| WireLaws.ServerRoundTrip | src/wire_protocol.cpp:394-561 | a response frame is decoded to its response, whatever follows |
| WireLaws.ServerIsCanonical | src/wire_protocol.cpp:483-561 | whatever is accepted encodes back to the same octets |
| WireLaws.ServerIsStable | src/wire_protocol.cpp:483-561 | a verdict other than truncated is final |
| WireLaws.ServerPrefixIsTruncated | src/wire_protocol.cpp:483-561 | every proper prefix of a response frame is truncated |
| WireLayout.SubmitRequestLayout | src/wire_protocol.cpp:368-392 | every field of a submit request at its octets |
| WireLayout.CancelRequestLayout | src/wire_protocol.cpp:368-392 | every field of a cancel request at its octets |
| WireLayout.SubmitResponseLayout | src/wire_protocol.cpp:394-445 | every field of a submit response at its octets, with the octet of every rejection reason |
| WireLayout.CancelResponseLayout | src/wire_protocol.cpp:394-445 | every field of a cancel response at its octets |
| WireLayout.UnavailableLayout | src/wire_protocol.cpp:394-445 | the octets of an unavailable response |
| WireLayout.ClientVerdicts | src/wire_protocol.cpp:119-158 | which octets lead to which verdict on a request, for every input |
| StreamSpec.ParseConcat | src/wire_protocol.cpp:645-662 | parsing may stop at any octet of a stream and go on there |
| StreamSpec.CutsDoNotMatter | src/wire_protocol.cpp:576-612 | for every limit and every split of a stream into pieces, requests and failure are those of the whole stream |
| StreamSpec.LimitIsNeverReached | src/wire_protocol.cpp:592-595 | with a limit of at least 45 no stream fails for its length |
| StreamSpec.LimitDoesNotMatter | src/wire_protocol.cpp:592-599 | and the limit does not influence the result |
| StreamSpec.SmallLimitsFail | src/wire_protocol.cpp:592-595 | with any smaller limit a well-formed submit request ends the stream |
| StreamSpec.StreamRoundTrip | src/wire_protocol.cpp:576-612 | a stream of well-formed requests is read up to the first whose frame exceeds the limit, which ends it |
| StreamSpec.StreamIsReadExactlyIfItFits | src/wire_protocol.cpp:576-612 | it is read completely, and nothing else is read, exactly if every frame fits the limit |
| StreamParser.ClientStreamParser.ProcessAvailable | src/wire_protocol.cpp:645-662 | the loop reads every complete request in the buffer and stops at the first incomplete or bad one |
| StreamParser.ClientStreamParser.CompactIfNeeded | src/wire_protocol.cpp:630-643 | compaction keeps the unread octets and leaves less read than unread |
| StreamParser.ClientStreamParser.TakePiece | src/wire_protocol.cpp:589-609 | one iteration takes what fits, and storage exceeds the limit by less than one frame |
| StreamParser.ClientStreamParser.Feed | src/wire_protocol.cpp:576-612 | the buffered parser computes the stream's parse, piece by piece |
| BoundedQueue.BoundedQueue.TryPush | include/matching/detail/bounded_queue.hpp:21-32 | a value is appended exactly if the queue is open and has room |
| BoundedQueue.BoundedQueue.TryPop | include/matching/detail/bounded_queue.hpp:34-42 | values leave in the order they came, also after closing |
| InFlight.InFlightLimiter.TryAcquire | src/gateway_types.cpp:102-112 | a reservation is given exactly if a slot is free, and the count is the number of reservations held |
| InFlight.InFlightLimiter.ReleaseOne | src/gateway_types.cpp:128-134 | the process ends exactly if no slot is in use |
| InFlight.InFlightReservation.Release | src/gateway_types.cpp:91-96 | a reservation gives its slot back once, and never ends the process |
| OutputBuffer.ConnectionOutputBuffer.Append | src/connection.hpp:20-28 | output is taken exactly if it fits the bound, and follows what is pending |
| OutputBuffer.ConnectionOutputBuffer.Flush | src/connection.hpp:43-72 | the answers of the socket decide how much is sent from the front of what is pending and how the flush ends |
| OutputBuffer.ConnectionOutputBuffer.Clear | src/connection.hpp:38-41 | dropping output keeps what was sent |
| PipelineObjects.Admit | src/gateway_server.cpp:265-278 | limiter and queue carry out the admission steps of the step machine from the flags to the end; a refused request leaves both as they were |
| PipelineObjects.Publish | src/exchange_server.cpp:93-98 | the queue carries out the publishing step, and the process ends exactly if the step does |
| PipelineObjects.QueueResponse | src/gateway_server.cpp:316-321 | the output buffer carries out the delivery of a response, or its connection is given up exactly if the step gives it up |
| PipelineObjects.DrainCompletion | src/gateway_server.cpp:302-310 | queue, buffer and reservation carry out the taking of a response and the release of its slot |
| PipelineObjects.FlushOutput | src/gateway_server.cpp:322-327 | the output buffer carries out the send steps of a connection |
| PipelineSafety.EveryRunIsSafe | src/exchange_server.cpp:93-196 | in every interleaving the in-flight count is requests queued + unpublished + responses queued + the one being admitted or drained; queues keep their bounds; batches are never empty nor too long; requests are answered once and in admission order; failure and shutdown are announced in order; nothing aborts |
| PipelineProgress.EveryRunWakes | src/gateway_server.cpp:129-167 | in every interleaving the wake-up protocol holds: news behind the gateway's back comes with a signal, set or about to be set |
| PipelineProgress.SleepIsWoken | src/gateway_server.cpp:129-167 | a gateway in poll without a signal: an unseen response, close or stop has a writer about to signal, and pending requests mean the worker still has work |
| PipelineProgress.RestMeansNoWork | src/gateway_server.cpp:141-188 | the exchange is at rest only with no slot in use, every admitted request answered and taken, nothing pending, reads on, and no stop or failure outstanding |
| PipelineDrain.WorkerFinishes | src/exchange_server.cpp:169-196 | once the request queue is closed the worker finishes after boundedly many of its own moves, whatever else happens |
| PipelineDrain.GatewayFinishes | src/gateway_server.cpp:141-188 | and then so does the gateway |
| PipelineDrain.ShutdownCompletes | src/gateway_server.cpp:207-216 | every run that has closed the request queue completes its shutdown if both threads get enough moves, with every admitted request answered and no slot in use |
| PipelineBatches.BatchSizesAreExact | src/exchange_server.cpp:172-182 | the batch sizes that occur are exactly those from one to the smaller of the batch limit and the in-flight limit |
| PipelineBatches.EveryBatchIsCounted | src/exchange_server.cpp:129-132 | in all runs every batch size has a histogram entry exactly if the smaller of the two limits is at most the queue capacity |
| PipelineReplies.BatchEffect | src/exchange_server.cpp:141-155 | a batch extends the journal by a prefix of its commands, by all of them if applied, with their sequential results and acknowledgements |
| PipelineReplies.EveryRunIsLinear | src/exchange_server.cpp:129-183 | in every interleaving the results are those of one sequential run over the admitted commands, the journal is the startup journal and a prefix of them, acknowledgements match, and every reply is the answer to its request, a refusal behind the last result |
| PipelineReplies.EveryReplyIsProper | src/exchange_server.cpp:111-153 | in every run every reply is addressed to its request, is of its kind, so the terminate branch of the summary is unreachable, and is a valid response frame, so no connection is given up for one; what it says is `ClientView.AnswerTells` |
| PipelineIntake.FeedReads | src/gateway_server.cpp:244-258 | a receive moves a connection's parser on with its octets and yields fewer than 148 requests |
| PipelineIntake.EveryRunTakesIn | src/gateway_server.cpp:244-296 | in every interleaving the parsers, the pending queue and the admissions of every connection agree |
| PipelineIntake.AdmittedIsPrefixOfStream | src/gateway_server.cpp:244-296 | what was admitted from a connection is a gap-free prefix of the requests in its octets; while it takes part the rest is waiting; at most 147 requests ever wait, so none is dropped |
| ClientView.CallArrives | src/gateway_types.cpp:18-48 | a command that a client encodes field by field, sends, and that is decoded and admitted, is the same command under the same request id |
| ClientView.CallsArriveInOrder | src/gateway_types.cpp:18-48 | whatever part of the stream of a client's commands has arrived, the requests in it are the first of exactly those commands |
| PipelineDelivery.EveryRunDelivers | src/gateway_server.cpp:297-326 | in every interleaving the octets sent and waiting on a connection are the encoded responses to it in order, all of them while it takes part, and the waiting ones keep the output bound |
| PipelineClosing.GivingUpHasReason | src/gateway_server.cpp:244-326 | in every run a connection stops taking part only if its peer hangs up, sending fails, its stream is malformed, or the next response does not fit its output bound |
| ClientView.ReadsWhatWasSent | src/connection.hpp:43-72 | a client that has any part of a sequence of response frames reads the first of those responses, and all of them in the end |
| ClientView.AnswerTells | src/gateway_types.cpp:50-74 | a response tells the request's id and, field by field, the status, reason and quantities of the result, or that the engine is unavailable |
| Exchange.ClientSeesOneBook | src/gateway_server.cpp:244-326 | for every run and connection: its admitted requests are the first it sent, the results are one sequential run over all admitted commands, and the octets sent to it begin the encoded answers to its requests, in order |
| Exchange.ClientReadsItsResults | src/gateway_server.cpp:244-326 | a client that sends the frames of its commands reads, one by one and in order, the results of exactly those commands in one sequential run over the admission order, field by field, or that the engine is unavailable; none is missing while it takes part and nothing waits |
| Exchange.PublishedResultSurvives | src/exchange_server.cpp:129-183 | a published result survives any later crash: recovery replays every command up to it in admission order, to the same result |
| Exchange.ResultsArePublished | src/exchange_server.cpp:129-183 | under every configuration some run from a fresh journal serves a client and publishes a result, so the two statements above are about something |
| Exchange.FailureIsFinal | src/exchange_server.cpp:133-138 | after a failure neither journal, book nor results ever change |
| Exchange.AnswersAfterFailure | src/exchange_server.cpp:133-166 | and every later answer is a refusal |
| Exchange.OneRefusalIsFinal | src/exchange_server.cpp:129-183 | once one request has been answered unavailable, so is every later one, and neither journal nor book changes again |
| Exchange.AcknowledgedForever | src/durable_engine.cpp:92-173 | over any number of lives of the exchange, each with any run, crash and recovery, an acknowledgement once given holds in every later one |

## Left out

- Sockets, poll, eventfd, fcntl and listener setup are nondeterministic inputs, one boolean signal and a send oracle; accept failures, the connection limit and the wrap of connection ids are not modelled.
- File system calls beyond write, sync and truncate: opening, directory sync, pread retries, error numbers and descriptor ownership.
- Exceptions from failed allocations, including the rollback in resting-order insertion and the fallback loop of the worker; the engine's apply loop may fail after any number of commands.
- Hashing, container capacities, move mechanics of reservations, test hooks, test access, benchmarks and statistics other than the histogram index.
- List iterators are modelled by the arrival number of their node, which is unique in a book.
- The two threads are modelled on values as a step machine, not as objects with methods; the queue, the limiter and the output buffer they use are classes, and `PipelineObjects` ties their methods to the steps.
- BoundedQueue.BoundedQueue.TryPop: blocking until a value or the close arrives (wait_pop) appears only as the worker's waiting step in the step machine.
- Exchange.ClientSeesOneBook: claims a prefix only for what reaches a client, because shutdown flushes output once and a connection that is too slow is given up.
- PipelineDrain.ShutdownCompletes: counts moves of the two threads; that the operating system grants them is assumed.
- Enum-to-enum mapping tables have no properties of their own outside the codec laws, and exact-length frame decoding is not modelled.
