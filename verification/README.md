# Verified model of the NBA favourite-price trading bot

The bot buys the favourite of an NBA game on Kalshi, keeps a SQLite ledger of what it ordered, filled and
settled, replicates that ledger through an object store to a dashboard host, and can be paused from there.
This project models the parts of it in which a promise spans several functions, several processes or a whole
run, and proves those promises for every input and every run.

## How it is built

| file | what it covers |
|---|---|
| `Replication.dfy` | bucket, publisher memory and one publisher tick as single store calls, each of which may be done, refused, or done and then raise; crashes, restarts, commits by the bot, and a manifest that is corrupted, deleted or rolled back at any moment |
| `PublisherSafety.dfy`, `ChangeDetection.dfy` | the inductive invariants of that machine and what follows for whole runs |
| `PublisherProcess.dfy` | the publisher as a class; every tick is proved to be a run of the machine |
| `Subscriber.dfy`, `EndToEnd.dfy`, `ReplicationLimits.dfy` | a sync pass call by call, the class that runs it, publisher and subscriber together, and concrete runs that break the promises when their conditions fail |
| `Delivery.dfy` | what a published manifest says, what a pass makes of it, and what the dashboard shows |
| `SnapshotKeys.dfy`, `KeyOrder.dfy` | the text form of snapshot keys, and how they sort |
| `Ledger.dfy`, `LedgerDb.dfy` | the three tables: each operation as a function on their value, then as a method that changes them in place |
| `LedgerRuns.dfy`, `Settling.dfy` | what the tables keep over any run; settlement sums, fees, repeated fills |
| `Bookings.dfy` | which fills each settlement was computed from, when none is booked twice, and the total |
| `FillSync.dfy`, `FillFigures.dfy`, `Accounting.dfy` | attribution of fills to orders, the figures written with it, and the jobs that sync and settle |
| `OrderProtocol.dfy`, `OrderProcess.dfy`, `Text.dfy` | the write-ahead order protocol against an exchange that accepts, refuses or stays silent, and the job as a method proved to be a run of it |
| `Attribution.dfy` | the jobs that give order ids to rows, run against that protocol: whose row an id ends on, and what that does to the bookings |
| `PauseLatch.dfy` | remote key, latch file, poller memory, restarts and resume |
| `Strategy.dfy`, `Exposure.dfy`, `ExposureCap.dfy`, `BotRecords.dfy` | sizing, lots, and the exposure cap over runs of evaluations, lost and recovered orders, fills and adoptions |
| `PoissonBinomial.dfy`, `BraceScan.dfy`, `LoginBudget.dfy`, `ClockSkew.dfy`, `Freshness.dfy` | self-contained algorithms |

A process is modelled as a datatype of states, a datatype of single actions and a step function; a run is a
sequence of actions. Objects that the program updates in place are classes whose methods are proved equal to
the functions the theorems speak about. SHA-256 is injective (`Sha256(content)` is a constructor). Money is in whole
cents; probabilities, percentages and average prices are exact reals; replication times are microseconds.
A missing value and an empty string that the program tests for truth are both `None`.

## Where the code falls short of its promise

Each of these is a run or an input in the project, next to the exact condition under which the promise holds.

- A reply such as a 502 from a "load balancer" is read as insufficient funds because its text contains
  "balance" (kalshi/client.py:461). If the exchange had accepted the order, its row says rejected, which no
  lookup revisits: `OrderProtocol.GatewayErrorBreaksTheGuarantee`; exactly when, for a reply: `RecordedAsRejection`,
  and over a whole run: `AcceptedOrderOverRun`.
- A sync pass cut off between replacing the file and writing its state, followed by the return of earlier
  bytes, ends in a pass that reports success over the wrong file: `ReplicationLimits.TornPassServesStaleBytes`.
- A manifest rolled back inside the reserve makes a restarted publisher repeat a seq:
  `ReplicationLimits.RollbackRepeatsSeq`; exactly when: `PublisherSafety.NextSeqAfterRollback`.
- Two overlapping polls and a latch file that cannot be written let orders through while the pause is still
  in the key: `PauseLatch.StaleReadReleasesOrders`; exactly when: `PolledPauseObeys`.
- An accepted order whose reply and lookup were both lost has no lot, and the next placement can exceed the
  exposure cap: `ExposureCap.LostOrderBreaksTheCap`; exactly when: `CapExactlyAtEveryPlacement`; by how much at
  most, given the drawdown breaker: `BreakerBoundsTheExcess`.
- A position is adopted at its average price rounded to a cent, so 149 cents for 2 contracts become a lot of 148
  (nba_trading/main.py:446): `ExposureCap.AdoptedAt148`; exactly when: `AdoptedLotFallsShort`. It counts only while
  Kalshi leaves the cost out: `CoverageExactly`.
- Retention sorts snapshot keys as text, which is their order only while seqs have at most nine digits:
  `KeyOrder.BillionSortsLow`; in order for equally many digits: `KeyOrder.TextOrderIsKeyOrder`.
- Nothing in the ledger refuses an order id that another row already holds. A fill sync while a POST is in flight
  can make two rows share one: `OrderProtocol.RacedReplySharesAnOrderId`; exactly when:
  `LedgerRuns.DistinctIdsStepwise`.
- A fill can be booked twice: `sync_fills` gives the fills of an unknown order id to the row of the ticker that has
  waited longest (nba_trading/main.py:1092-1098), which need not be that order's row. Once that row is settled, a
  lookup writes the id on its own row (nba_trading/main.py:544), which is settled from the same fills:
  `Attribution.MisattributedFillBooksTwice`. Over a run of the protocol ids stay on their own rows exactly when no
  job gives one to another order's row (`Attribution.RightIdsExactly`), and then nothing is booked twice
  (`RightlyAttributedBooksOnce`); otherwise exactly when: `Bookings.BookedOnceExactly`. That a ticker with two open
  rows is not settled protects the fills too (`Bookings.NoFillBookedTwice`), but only while no id is written beside
  a settled row that holds it, which the code does not check.

## Model

| member | source | states |
|---|---|---|
| PublisherSafety.NextSeqBounds | nba_trading/replication/snapshot.py:210-236 | the next seq exceeds every stored snapshot key, the previous manifest and the floor cases it must exceed |
| PublisherSafety.NextSeqIsLeast | nba_trading/replication/snapshot.py:210-236 | and it is the least number that does, the floor counting only without a manifest or beyond its reserve |
| PublisherSafety.StepKeepsSafe | nba_trading/replication/publisher.py:45-90 | every single store call, failure, crash or tampering keeps floor bounds, fresh keys, no dangling manifest and enough snapshots |
| PublisherSafety.VisibleSeqsIncrease | nba_trading/replication/snapshot.py:185-236 | over any run without a rollback, each visible manifest has a seq strictly above all earlier ones, across crashes, half-failed writes and lost manifests |
| PublisherSafety.LastManifestNeverDangles | nba_trading/replication/publisher.py:71-90 | at every step of every run the manifest last written names a present snapshot with its digest and size |
| PublisherSafety.SnapshotsNeverOverwritten | nba_trading/replication/snapshot.py:158-160 | no step changes a stored snapshot, and a new one never lands on a key used before, even one pruned since |
| PublisherSafety.PruneKeepsNewest | nba_trading/replication/snapshot.py:479-496 | a snapshot disappears only while at least `keep` higher-sorted ones exist, and never the visible one |
| PublisherSafety.NextSeqAfterRollback | nba_trading/replication/snapshot.py:210-236 | after any run, rollbacks included, the next seq is at most 99 below anything published, above it all when the manifest is too old for the floor, and above a given seq if and only if one of the readable sources covers it |
| ChangeDetection.HeartbeatNamesContentSeen | nba_trading/replication/publisher.py:193-217 | a heartbeat that reuses the previous snapshot names the content the database had at that tick's version read, for any interleaving of commits and failed publishes |
| ChangeDetection.UnchangedMeansPublished | nba_trading/replication/publisher.py:137-147 | a tick that sees no change holds the digest of the current content |
| PublisherProcess.SeqFloor.Ensure | nba_trading/replication/snapshot.py:185-207 | the floor object and its cache after the call, as the machine's floor step |
| PublisherProcess.PickNextSeq | nba_trading/replication/snapshot.py:210-236 | the loop over manifest, floor, previous and listing returns the machine's next seq whenever every read works |
| PublisherProcess.Publisher.PruneSnapshots | nba_trading/replication/snapshot.py:479-496 | one prune is a run of the machine; when every call works it leaves exactly the newest `keep` snapshots and the protected one |
| PublisherProcess.Publisher.PublishOnce | nba_trading/replication/publisher.py:45-90 | one publish is a run of the machine by the publisher's own actions, ending published or in the failure state, and published whenever every call works; its manifest has the given or the next seq, this clock's time and, as a heartbeat, everything else of the last one, else the digest, size and stamps just read |
| PublisherProcess.Publisher.RunTick | nba_trading/replication/publisher.py:193-244 | a whole tick is a run of the machine from idle to idle; when every call works it publishes if and only if the version changed or a heartbeat is due; an undisturbed publisher counts its seq up by one |
| Subscriber.UndisturbedPass | nba_trading/replication/subscriber.py:285-336 | a pass over an unchanging bucket that succeeds serves the named snapshot if and only if the state file did not lie about the file |
| Subscriber.Replica.Sync | nba_trading/replication/subscriber.py:285-336 | one `_sync`: the new state to write, and the file replaced only by bytes of the right size and digest |
| Subscriber.Replica.SyncOnce | nba_trading/replication/subscriber.py:231-264 | one pass equals the machine's pass, whatever fails in it |
| EndToEnd.NeverBackwards | nba_trading/replication/subscriber.py:302-312 | in any run without a rollback, no pass that reads an intact manifest fails with a seq that went backwards |
| EndToEnd.SuccessServesTheManifest | nba_trading/replication/subscriber.py:231-336 | a pass about to record success serves exactly the bytes its manifest names, if no pass was torn or no superseded bytes came back |
| EndToEnd.UndisturbedPassServes | nba_trading/replication/subscriber.py:231-336 | after any such run, an undisturbed pass succeeds and serves the snapshot the manifest names |
| Delivery.EveryManifestTells | nba_trading/replication/snapshot.py:454-475 | every manifest published in a run was made by one step of it, and its stamps, digest, size and key are exactly those that step read or kept |
| Delivery.PassLeaves | nba_trading/replication/subscriber.py:231-336 | what any pass leaves behind, field by field: when it succeeds, what it stores then, when the moment of the last advance moves, what a failure keeps and counts |
| Delivery.FreshManifestTurnsGreen | nba_trading/replication/subscriber.py:267-336 | from the publisher's clock to the banner: a manifest made at a time and read as news turns the banner green exactly within the stated tolerances |
| Delivery.BannerExactly | nba_trading/dashboard/freshness.py:91-168 | when the banner is green, amber and red, with every bound in seconds |
| Delivery.BotExactly | nba_trading/dashboard/freshness.py:147-216 | when the bot is said to be alive, silent or unknown, and the age shown |
| Delivery.AgesAgree | nba_trading/replication/subscriber.py:134-176 | the ages the subscriber reports are the banner's, never negative on its own clock |
| ReplicationLimits.TornPassServesStaleBytes | nba_trading/replication/subscriber.py:320-336 | a concrete run in which both conditions fail and a successful pass leaves the wrong bytes served |
| ReplicationLimits.RollbackRepeatsSeq | nba_trading/replication/snapshot.py:228-236 | a concrete run with a rollback inside the reserve that publishes one seq twice |
| SnapshotKeys.KeyTextRoundTrip | nba_trading/replication/snapshot.py:158-165 | the seq parsed from a key is the seq it was made for, past nine digits too |
| SnapshotKeys.KeyTextInjective | nba_trading/replication/snapshot.py:158-165 | keys with different seq or digest text differ |
| KeyOrder.ReadExactly | nba_trading/replication/snapshot.py:163-168 | a text is read as the key of a seq exactly if it has the form of a key with those digits |
| KeyOrder.TextOrderIsKeyOrder | nba_trading/replication/snapshot.py:158-160 | keys with equally many digits sort as text by seq and then by digest, as retention lists them |
| KeyOrder.NineDigits | nba_trading/replication/snapshot.py:158-160 | all seqs below a billion have nine digits |
| KeyOrder.BillionSortsLow | nba_trading/replication/snapshot.py:158-160 | the billionth key sorts below the one before it |
| LedgerTables.LedgerDb.BeginOrder | nba_trading/ledger.py:307-324 | the row is appended unless its client id is there, and which it was |
| LedgerTables.LedgerDb.MarkPlaced | nba_trading/ledger.py:326-337 | the placed row, or the refusal with nothing changed |
| LedgerTables.LedgerDb.SetOrderOutcome | nba_trading/ledger.py:339-357 | the allowed transition, or the refusal with nothing changed |
| LedgerTables.LedgerDb.ApplyOrderState | nba_trading/ledger.py:359-382 | the exchange's state on any unsettled row, adopted rows staying adopted |
| LedgerTables.LedgerDb.AdoptOrder | nba_trading/ledger.py:384-421 | a new adopted row unless the order id is known |
| LedgerTables.LedgerDb.AttachOrderId | nba_trading/ledger.py:451-463 | an id only for an unsettled adopted row without one |
| LedgerTables.LedgerDb.UpsertFills | nba_trading/ledger.py:506-537 | the fill table after the batch, and the number of new rows |
| LedgerTables.LedgerDb.FillsForOrder | nba_trading/ledger.py:539-545 | exactly the fills of the order, each once |
| LedgerTables.LedgerDb.RecordSettlementFromFills | nba_trading/ledger.py:547-591 | the settlement row, computed by one pass over the listed fills, equals the sums over the set of fills, whatever their order, and is their cash flow: 100 cents per net YES contract if YES won, less signed count times price, less fees |
| LedgerTables.AddUp | nba_trading/ledger.py:567-581 | gross, fees and contracts of the listed fills, refusing exactly when some side is unsupported |
| LedgerRuns.BeginKeepsWellFormed | nba_trading/ledger.py:307-324 | a row is created if and only if the client id was absent; nothing else moves |
| LedgerRuns.ChangesOneRow | nba_trading/ledger.py:326-382 | every other row update touches one unsettled row, keeps its identity and raises its rank or keeps its outcome |
| LedgerRuns.LedgerStateMachine | nba_trading/ledger.py:170-180 | over any run of the calls main.py makes: client ids distinct, outcomes only rise in rank, settled rows frozen, every settlement on an open row |
| LedgerRuns.OpenIsAbsorbing | nba_trading/ledger.py:339-382 | placed stays placed and adopted stays adopted over any run |
| LedgerRuns.ApplyComposes | nba_trading/ledger.py:359-382 | applying two states of an order is applying one: the later wins where it says something, the earlier fills in the rest |
| LedgerRuns.ReplyAndLookupCommute | nba_trading/main.py:872-884 | a reply and a lookup of one order may be recorded in either order: same outcome, id and fill, no other row touched |
| LedgerRuns.DistinctIdsStepwise | nba_trading/ledger.py:326-463 | order ids stay distinct if and only if no call that goes through writes an id another row holds |
| Bookings.RunKeepsBooks | nba_trading/ledger.py:547-591 | over any run each settlement keeps standing for the fills of its own order |
| Bookings.BookedOnceStepwise | nba_trading/ledger.py:547-591 | one step keeps every fill booked once if and only if it does not settle a row whose order id was settled from fills before |
| Bookings.BookedOnceExactly | nba_trading/ledger.py:547-591 | the same over any run |
| Bookings.IdsInPlaceStepwise | nba_trading/main.py:1142-1154 | when rows are settled only alone on their ticker and an id goes to rows of one ticker, a call never books an order id a second time, and leaves settled ids on one row if and only if it writes no id beside a settled row holding it, which the code does not check |
| Bookings.NoFillBookedTwice | nba_trading/main.py:1142-1154 | over any run that settles only rows alone on their ticker, gives an order id to rows of one ticker and (unchecked by the code) writes none beside a settled row holding it, no fill is booked twice, even while rows share an id |
| Bookings.TotalPnlIsSumOverFills | nba_trading/ledger.py:547-591 | after any run that settles no order id from fills twice, the total fill-sourced PnL is the sum over exactly the booked fills of payoff minus fee, each once |
| Bookings.GuardedTotalIsSumOverFills | nba_trading/ledger.py:547-591 | in particular after every such run |
| Attribution.TraceFollows | nba_trading/main.py:806-910 | every run of the order protocol is a run of the ledger by the calls main.py makes, so its settlements have books |
| Attribution.HeldExactly | nba_trading/ledger.py:326-463 | a row holds exactly the order id that the last call to give it one gave |
| Attribution.SyncGivesFreshIds | nba_trading/main.py:1083-1108 | attributing one order id is a single call, which gives the id only if no row holds it |
| Attribution.IdBesideHolderExactly | nba_trading/main.py:1092-1098 | a reply or lookup about to write an order's id finds it on another row, settled or not, if and only if an earlier job gave it to that row, which is then not the order's own |
| Attribution.RightIdsStepwise | nba_trading/main.py:1083-1108 | one protocol step keeps every order id of the bot on its own order's row if and only if it is not a job giving one to another row |
| Attribution.RightIdsExactly | nba_trading/main.py:1083-1108 | the same over any run of evaluations, lost and late replies, lookups, jobs and crashes |
| Attribution.RightlyAttributedBooksOnce | nba_trading/main.py:1062-1196 | over any run of the protocol in which jobs give no id to another order's row, no two rows share an id and no fill is booked twice |
| Attribution.RightlyAttributedTotal | nba_trading/ledger.py:547-591 | after such a run the total fill-sourced PnL is the sum over exactly the booked fills of payoff minus fee, each once |
| Attribution.MisattributedFillBooksTwice | nba_trading/main.py:1092-1098 | a possible run, with a truthful exchange, the sync as `sync_fills` does it and settlements of lone rows only, in which two games name one market and one fill is booked for both rows |
| Settling.SumRemove | nba_trading/ledger.py:567-581 | a sum over fills does not depend on the order in which they are taken |
| Settling.UpsertedExactly | nba_trading/ledger.py:506-537 | what one fill record does: skipped without an id or a price, stored as reported when new, completed where a field was missing when known |
| Settling.RecordedIsCash | nba_trading/ledger.py:547-591 | what is recorded, exactly when it is: the cash flow of the stored fills with their sides and actions, or of the row's count at its limit; refused exactly when a side is unknown |
| Settling.UpsertAssembles | nba_trading/ledger.py:506-537 | after any batches of agreeing records, a stored fill is the true fill cut down to the fields some record carried |
| Settling.UpsertsCommute | nba_trading/ledger.py:506-537 | the fill table depends only on which records arrived, not on order, batching or repetition |
| Settling.RepeatedUpsertIsNoOp | nba_trading/ledger.py:506-537 | an overlapping batch of known records changes nothing |
| Settling.FeeGuardIsHarmless | nba_trading/ledger.py:187-190 | taking 1e-9 off before rounding up never changes the fee |
| Settling.FeeOfParts | nba_trading/ledger.py:187-190 | the fees of n long-YES fills at one price, each rounded up, cost between 0 and n - 1 cents more than the fee on the whole |
| Settling.FillPnlNearComputed | nba_trading/ledger.py:567-586 | the PnL settled from any n long-YES fills at one price, YES bought or NO sold, is the computed fallback less 0 to n - 1 cents |
| Settling.RecordedNearFallback | nba_trading/ledger.py:547-591 | the same of the settlement the ledger records, against the row's own limit price and filled count |
| Settling.RoundTripIsPriceDifference | nba_trading/ledger.py:567-581 | contracts bought at one price and sold at another earn the difference, whoever wins |
| Settling.BuyingNoIsSellingYes | nba_trading/ledger.py:572-577 | buying NO pays what selling YES pays, a missing side counting as YES |
| Settling.YesMinusNo | nba_trading/ledger.py:567-581 | YES winning instead of NO is worth exactly 100 cents per net long contract |
| FillSync.Round | nba_trading/main.py:1105 | the limit recorded for an adopted order is the nearest whole cent to its average price, halves going to the even one |
| FillSync.SyncOrderEffect | nba_trading/main.py:1083-1108 | one pass of the loop body handles its order id and touches no row that had an id |
| FillSync.SyncKeepsDistinctIds | nba_trading/main.py:1062-1109 | `sync_fills` keeps order ids distinct, changes only rows without an id, never a settled one, and adds only adopted rows |
| FillSync.EveryFilledOrderOnOneRow | nba_trading/main.py:1062-1109 | with adoption on, every NBA order id with a positive total ends on exactly one row |
| FillSync.SyncAgainChangesNothing | nba_trading/main.py:1062-1109 | running it again on the same fills, in either mode, changes no order row and no settlement |
| FillFigures.FillsUnderExactly | nba_trading/main.py:1078-1082 | the list of an order id holds each NBA fill reported under it, in order |
| FillFigures.OrdersInExactly | nba_trading/main.py:1078-1082 | the order ids handled are those of the reported NBA fills, each once |
| FillFigures.OneOrderTaken | nba_trading/main.py:1083-1108 | which row takes an order id, the longest waiting first, and the contracts, average price and limit written beside it |
| FillFigures.AverageBetween | nba_trading/main.py:1090 | with positive counts the average lies between the lowest and the highest fill price |
| FillFigures.SyncedFigures | nba_trading/main.py:1062-1109 | after the whole job every row is as it was or has taken one reported order with that order's contracts and average, and every new row has its own fills' count, average and nearest limit |
| Accounting.UnresolvedOrdersByTicker | nba_trading/ledger.py:423-437 | the dictionary holds, per ticker, the unresolved rows without an id in order |
| Accounting.GroupByOrder | nba_trading/main.py:1078-1082 | the dictionary holds, per NBA order id in order of appearance, its fills |
| Accounting.QueuesAfterApply | nba_trading/main.py:1092-1098 | popping the dictionary's queue keeps it equal to what a fresh query would give |
| Accounting.AttributeOne | nba_trading/main.py:1083-1108 | the loop body, with the dictionary read once before the loop, equals the attribution rule on the current tables |
| Accounting.SyncFills | nba_trading/main.py:1062-1109 | the whole job equals the rule; when it raises half way, what it did keeps every property of the rule |
| Accounting.SettleOne | nba_trading/main.py:1155-1186 | the exact row and settlement one pass of the loop body leaves: asked for its state only without stored fills, booked if and only if the picture is complete |
| Accounting.SettleOpenOrders | nba_trading/main.py:1124-1196 | the exact effect of the job, row by row and independent of their order: settled are precisely the rows alone on their ticker whose market resolved, whose lookup answered and whose picture is complete |
| Accounting.CountedOnceIsAlone | nba_trading/main.py:1142-1154 | the dictionary's count decides exactly whether a row is the only open one on its ticker |
| Accounting.SettledWhileAlone | nba_trading/main.py:1142-1154 | the count is taken once, before the loop; a row it finds alone is still alone at its turn, whatever was settled before |
| Accounting.SettlesOnlyCompletePictures | nba_trading/main.py:1124-1132 | what was settled covers all contracts Kalshi reports, or has a fill count, or ended unfilled; never with a second open row on the ticker or after a failed sync |
| Accounting.SettledExactly | nba_trading/main.py:1142-1186 | the converse too, written out: a row is settled if and only if it is the only open one of its resolved ticker in a fresh cycle, its lookup answered, its stored fills cover what is reported or it has a count or ended without fills, and its sides are known |
| Accounting.RowsToldExactly | nba_trading/main.py:1172-1176 | which rows are told their state, and which fields move |
| Accounting.SettledAtCash | nba_trading/main.py:1180-1182 | what the job writes is the cash flow of the row's fills, or of the row as last told |
| Accounting.JobKeepsTables | nba_trading/main.py:1124-1196 | the job keeps the tables well formed, order ids distinct, and every outcome and settled row as it was |
| OrderProtocol.AtMostOnePost | nba_trading/main.py:806-910 | over any run of evaluations, crashes, restarts and late decisions, at most one POST per client order id |
| OrderProtocol.PostIsPrecededByItsRow | nba_trading/main.py:808-819 | whenever a POST goes out its row is already committed and no POST for it went out before |
| OrderProtocol.AcceptedOrderIsNotRejected | nba_trading/main.py:851-910 | the row of an accepted order is submitting, unconfirmed, not_found or placed if and only if its reply was not recorded as a rejection that nothing has repaired since |
| OrderProtocol.ReadAsRejectedIsMisread | nba_trading/main.py:860-899 | that record, read off the actions of the run: some reply to its POST read like a rejection while its row was submitting, and no later call applied the exchange's state to the row |
| OrderProtocol.AcceptedOrderOverRun | nba_trading/main.py:851-910 | hence over any run the row of an accepted order is in one of those outcomes if and only if no reply was misread and left at that |
| OrderProtocol.RacedReplySharesAnOrderId | nba_trading/main.py:1083-1108 | a concrete run in which a fill sync beside an in-flight POST leaves two rows with one order id, neither alone on its ticker |
| OrderProtocol.ReadErrorExactly | kalshi/client.py:447-463 | every HTTP error by code and text: a rejection if and only if it is not a 409 and is a 403 naming the location attestation or mentions insufficient or balance in any case; which one; otherwise the outcome is unknown |
| OrderProtocol.RecordedAsRejection | kalshi/client.py:447-463 | a reply is recorded as a rejection exactly when it is such an error while the row is still submitting |
| OrderProtocol.BalanceReadsAsRejection | kalshi/client.py:461-463 | any error other than 409 whose text mentions balance anywhere is recorded as a rejection |
| OrderProtocol.AcceptedOrderRecordedAsRejected | kalshi/client.py:447-463 | for every such reply there is a run that ends with an accepted order in a rejection outcome |
| OrderProtocol.GatewayErrorBreaksTheGuarantee | kalshi/client.py:461-463 | a 502 from a load balancer is one |
| OrderProtocol.StepKeepsInv | nba_trading/main.py:507-609 | every protocol step keeps rows, POST log and refusals consistent, lookups and recovery included |
| OrderProcess.ResolveOrder | nba_trading/main.py:507-558 | the lookup writes exactly what the protocol says and never sends |
| OrderProcess.RecordAnswer | nba_trading/main.py:860-899 | the reply is written down as the protocol says, with the exact row for each kind of reply, and the exchange must be asked exactly when the reply neither confirms nor reads like a rejection |
| OrderProcess.SendOrder | nba_trading/main.py:840-910 | from the committed row to the end of the job: exactly which protocol steps happen for each kill switch, reply and lookup, and the tables they leave |
| OrderProcess.OrderPart | nba_trading/main.py:806-910 | the order part is exactly the run of the protocol its inputs call for; it adds one POST if and only if the row is new and no pause arrived |
| OrderProcess.OrderPathExactly | nba_trading/main.py:806-910 | the protocol steps of each case: an existing row is looked up only while submitting or unconfirmed, a new one is blocked or sent once and looked up exactly when the reply leaves it open |
| OrderProcess.LookupResolves | nba_trading/main.py:507-545 | the row an answered lookup leaves, field by field, with every other row and the POST log alone |
| OrderProcess.RecoverOrders | nba_trading/main.py:580-594 | startup recovery consists of lookups of unresolved rows and sends nothing; afterwards every row is exactly as its lookup says, and only rows whose lookup raised are still submitting or unconfirmed |
| PauseLatch.FileForbidsOrders | nba_trading/main.py:79-99 | once the latch file is there, no run without its removal allows an order in any mode |
| PauseLatch.KillSourceExactly | nba_trading/main.py:79-99 | what forbids orders, and exactly when nothing does, in each mode |
| PauseLatch.FreshProcess | nba_trading/main.py:79-99 | a stopped process sends nothing, and a new live one must read the key before it may |
| PauseLatch.StartObeys | nba_trading/main.py:79-99 | a process that starts while the pause is in the key obeys it from its first moment |
| PauseLatch.PolledPauseObeys | nba_trading/control.py:264-324 | the bookkeeping of a read that saw the pause makes the process obey it, exactly unless the file could not be written while a read from before the pause is outstanding |
| PauseLatch.StandingPauseForbidsOrders | nba_trading/control.py:244-351 | from then on no order is allowed while the pause stays in the key, through errors, polls, crashes, restarts and failed writes |
| PauseLatch.StaleReadReleasesOrders | nba_trading/control.py:291-306 | the exception is real: a concrete run of two overlapping polls |
| PauseLatch.PollReleasesExactly | nba_trading/control.py:291-308 | a poll releases a paused live bot if and only if it read "not paused" and the local file is gone |
| PauseLatch.NothingElseReleases | nba_trading/control.py:326-351 | besides such a poll only the removal of the file can release it |
| PauseLatch.ResumeClearsFirst | nba_trading/control.py:471-497 | a resume may remove the file only after the key was cleared |
| PauseLatch.ResumeReleases | nba_trading/control.py:471-497 | after a resume the next poll releases the bot if and only if the file is gone |
| PauseLatch.OperatorReleases | nba_trading/control.py:291-308 | deleting the file by hand releases the bot at the next poll if and only if no pause is in the key |
| PauseLatch.AckTellsTheTruth | nba_trading/control.py:310-324 | an acknowledgement says latched exactly when the file is there |
| PauseLatch.AcknowledgedExactly | nba_trading/control.py:310-324 | only a poll that saw a pause acknowledges, the request it saw, and not one acknowledged last |
| PauseLatch.ControlPoller.OnSuccess | nba_trading/control.py:264-308 | the poller's fields, the file and the acknowledgement after a successful read |
| PauseLatch.ControlPoller.PollOnce | nba_trading/control.py:244-254 | one poll is a read step and a bookkeeping step of the machine |
| PauseLatch.Resume | nba_trading/control.py:471-497 | the file goes only after the remote delete succeeded, and the exit code says whether it did |
| PoissonBinomial.EachVectorOnce | nba_trading/dashboard/data.py:138-145 | the reference sum ranges over every win/loss vector exactly once |
| PoissonBinomial.PlayBackward | nba_trading/dashboard/data.py:141-144 | the in-place backward pass computes the next row from the old one |
| PoissonBinomial.PlayAtOnce | misprice_discovery/edge_validation.py:284-286 | the simultaneous array update computes the same row |
| PoissonBinomial.ProbAtLeast | nba_trading/dashboard/data.py:138-145 | the result is the total probability of all vectors with at least k wins |
| PoissonBinomial.PoissonBinomialCdf | misprice_discovery/edge_validation.py:280-287 | the result is the total probability of all vectors with at most k wins |
| PoissonBinomial.TotalIsOne | nba_trading/dashboard/data.py:138-145 | the distribution sums to one |
| PoissonBinomial.OrderDoesNotMatter | nba_trading/dashboard/data.py:138-145 | the distribution is the same for every order of the games |
| PoissonBinomial.MirrorExactly | misprice_discovery/edge_validation.py:312-315 | j losses have the probability of n - j wins |
| PoissonBinomial.LossesMirrorWins | misprice_discovery/edge_validation.py:312-315 | at most L losses is exactly at least n - L wins |
| PoissonBinomial.BandLossPValue | misprice_discovery/edge_validation.py:312-315 | the p-value of a band is the chance of winning at least as many games as were won |
| BraceScan.FirstBalancedObject | agent_trader/runtime.py:466-495 | the loop selects what the scan, read as a state machine, selects |
| BraceScan.PassValue | agent_trader/runtime.py:473-489 | inside an object the scan takes any printed value, nested braces and quotes in strings included, and is back where it was |
| BraceScan.SelectsThePrintedObject | agent_trader/runtime.py:466-495 | for every object printed with RFC 8259 section 7 escaping, after prose without "{" and before any text, exactly the object is selected |
| BraceScan.SelectsFromTheRawReply | agent_trader/runtime.py:445-495 | the same after the reply was stripped of white space |
| BraceScan.CutShortSelectsNothing | agent_trader/runtime.py:466-495 | an object cut short anywhere yields no candidate |
| LoginBudget.AttemptLog.Prune | nba_trading/dashboard/auth.py:67-69 | the deque loses exactly its expired prefix |
| LoginBudget.AttemptLog.Reserve | nba_trading/dashboard/auth.py:72-81 | a slot is granted and stamped, or refused, as the gate says |
| LoginBudget.AttemptLog.Release | nba_trading/dashboard/auth.py:84-90 | the first equal stamp is handed back, or nothing |
| LoginBudget.BudgetHoldsInEveryWindow | nba_trading/dashboard/auth.py:67-131 | from an empty gate, over any run of concurrent sessions every closed window of 300 s holds at most 10 attempts that were checked and did not sign in |
| LoginBudget.HeldAfter | nba_trading/dashboard/auth.py:72-90 | what counts against the budget: each accepted attempt once, until it signs in |
| LoginBudget.RejectsExactlyWhenFull | nba_trading/dashboard/auth.py:72-81 | after any such run an attempt is turned away if and only if the window ending now is already full |
| ClockSkew.EstimateClockSkew | kalshi/client.py:21-56 | the loop returns the skew of the first sample that is not slow, fails exactly when that sample is unusable or all are slow, and then reports the shortest round trip |
| ClockSkew.ErrorBound | kalshi/client.py:46-48 | the estimate is off by at most half the round trip plus half a second |
| ClockSkew.ErrorBoundIsReached | kalshi/client.py:46-48 | no smaller bound would do |
| ClockSkew.EstimateWithinThreeSeconds | kalshi/client.py:17-56 | at the default limit a returned estimate is at most three seconds off |
| Freshness.GreenExactlyWhen | nba_trading/dashboard/freshness.py:147-168 | the banner is green if and only if the data advanced within the last minute and no clock looks wrong |
| Freshness.BackendSkewCancels | nba_trading/dashboard/freshness.py:147-216 | shifting all backend time stamps by one constant changes neither the data age nor anything said about the bot |
| Freshness.SkewPassesThrough | nba_trading/replication/subscriber.py:275-282 | the same from the manifest through the state file, for shifts of whole seconds |
| Freshness.StaysFrozen | nba_trading/replication/subscriber.py:267-282 | over any run of passes with no higher seq and the file in place, the stored moment of the last advance never moves |
| Freshness.FrozenDataTurnsRed | nba_trading/dashboard/freshness.py:91-97 | hence the level is broken at every time more than 180 s after it, whatever the manifests claim |
| Strategy.CapSharesIsLargest | nba_trading/strategy.py:90-103 | the capped size is the largest that was asked for, is affordable and stays under the cap |
| Strategy.SharesWithinFraction | nba_trading/strategy.py:52-73 | the size before capping is the largest within the bankroll fraction at the ask |
| Strategy.LimitPriceExactly | nba_trading/strategy.py:76-87 | the limit is the largest price within the buffer above the ask and within the cap |
| Strategy.HeadroomExactly | nba_trading/strategy.py:90-103 | a cost fits the headroom exactly when open cost and it stay within the percentage of equity |
| Exposure.Portfolio.AddPosition | nba_trading/portfolio.py:52-59 | one lot is appended to its ticker and nothing else changes |
| Exposure.Portfolio.ExposureCents | nba_trading/portfolio.py:92-118 | the two loops add up each ticker once, Kalshi's number first, and list exactly the tickers of unknown cost |
| Exposure.CostExactly | nba_trading/portfolio.py:92-118 | what each ticker counts for, Kalshi's number first, and when its cost is unknown |
| Exposure.Portfolio.Reconcile | nba_trading/portfolio.py:126-154 | the lots after the loop that deletes from the dictionary it walks, and exactly which tickers were dropped |
| Exposure.KeptExactly | nba_trading/portfolio.py:126-154 | a ticker is kept exactly while something is held or one of its lots is younger than its grace period |
| Exposure.CorrectedExactly | nba_trading/portfolio.py:149-151 | only the last lot's quantity is corrected, and to what |
| Exposure.CorrectedAddsUp | nba_trading/portfolio.py:149-151 | the corrected lots add up to the holding, or to the older lots when those already exceed it |
| BotRecords.OrdersExactly | nba_trading/main.py:691-783 | an evaluation orders at least n contracts if and only if the breaker is closed, ask and limit are in the band, and n contracts fit the fraction, the cash and the cap |
| BotRecords.TripsExactly | nba_trading/portfolio.py:203-222 | the breaker trips exactly when the loss since the high-water mark is the limit's percentage of it or more |
| BotRecords.MarkExactly | nba_trading/portfolio.py:189-203 | the mark is the largest equity seen |
| BotRecords.PlacementWrites | nba_trading/main.py:872-910 | which lot and which unresolved row a placement leaves, for each reply and lookup |
| BotRecords.SyncWrites | nba_trading/main.py:430-478 | for each ticker the lots a position sync leaves, their price and count, and which rows it resolves |
| ExposureCap.StepKeepsInv | nba_trading/main.py:430-478 | every step of evaluations, replies, lookups, adoptions, fills and cancellations keeps lots, rows and account consistent, cash non-negative, and equity as it was |
| ExposureCap.ExposureIsOffByTheGaps | nba_trading/portfolio.py:92-118 | what an evaluation counts as exposure is what is truly committed less exactly the uncounted part of each ticker |
| ExposureCap.SoundReadCoversOpenCost | nba_trading/main.py:679-690 | when every resting order has its lot and every missing cost is covered by lots, at least everything committed is counted |
| ExposureCap.AdoptedLotFallsShort | nba_trading/main.py:446 | a lot adopted at the rounded average costs less than the position if and only if the average rounds down, halves going to the even cent, and then by at most half a cent per contract |
| ExposureCap.AdoptedAt148 | nba_trading/main.py:446 | 2 contracts that cost 149 cents are adopted as a lot of 148 |
| ExposureCap.CoverageExactly | nba_trading/main.py:445-478 | the lots of a held ticker cover its cost if and only if there are any and they are our own, adopted at 100, or not rounded down |
| ExposureCap.SoundExactly | nba_trading/portfolio.py:92-118 | exactly when a read of positions counts everything |
| ExposureCap.PlacementExactly | nba_trading/main.py:763-783 | an order the exchange takes leaves open cost within the cap if and only if it fits under the cap corrected for cash gained since it was read and for what was left uncounted |
| ExposureCap.CapExactlyAtEveryPlacement | nba_trading/main.py:763-783 | the same if-and-only-if at every placement of every run, lost, late, recovered and adopted orders included; cash is never negative and equity never moves |
| ExposureCap.SoundPlacementStaysWithinCap | nba_trading/main.py:763-783 | a placement after a read that counted everything stays within the cap, in any run |
| ExposureCap.UnrecordedStepwise | nba_trading/main.py:851-910 | an order becomes uncounted exactly when it is taken late or without a reply or lookup that records it, and stops being so exactly when it is found again, fills or is cancelled |
| ExposureCap.CapHoldsAtEveryPlacement | nba_trading/main.py:763-783 | over any run in which replies or lookups record every order taken and lots cover missing costs, every placement stays within the cap |
| ExposureCap.PeakSeenByRead | nba_trading/portfolio.py:189-203 | one read that counts everything at known cost, with cash unmoved, makes the high-water mark at least all equity |
| ExposureCap.BreakerBoundsTheExcess | nba_trading/main.py:691-702 | once the mark has been that high, at any placement of any run, whatever was lost, the drawdown breaker keeps the excess over the cap below its share of the peak less the cap's share of that, plus any cash that left since it was read |
| ExposureCap.LostOrderBreaksTheCap | nba_trading/main.py:895-910 | a concrete run at the default cap and drawdown limit in which one reply and its lookup are lost, the breaker stays closed, and the next, recorded order leaves 36 of 100 open under a cap of 30 |

## Left out

- PublisherProcess.Publisher.RunTick: the schema and integrity checks of a snapshot are one failure the environment may choose; the race between the inode check and the open in `_read_dv`, staleness alerts and the status file are not modelled.
- SnapshotKeys.KeyTextRoundTrip: the pattern's digits are ASCII digits; Python's also match other decimal digits, which no writer of keys produces.
- PublisherSafety.SnapshotsNeverOverwritten: the eight hex digits in a key are a number that depends on the digest, so two digests may share it, as in the source.
- PublisherProcess.Publisher.PruneSnapshots: the listing is sorted by seq as a number, which is the order of the texts for seqs below a billion.
- OrderProtocol.ReadErrorExactly: lower case is that of ASCII letters; Python also folds other letters, some of them to ASCII ones.
- Subscriber.Replica.SyncOnce: inspection of the downloaded database (`inspect_db`, schema checks) is folded into a download the environment makes fail; `user_version` is not kept.
- EndToEnd.NeverBackwards: one publisher is the only writer of snapshots; a second writer is not part of this model.
- EndToEnd.SuccessServesTheManifest: assumes that no pass was torn or that superseded bytes never recur, because the code does not guarantee it otherwise.
- LedgerTables.LedgerDb.UpsertFills: the time stamp column is not kept, and records without a count are treated like records that cannot be stored.
- LedgerTables.LedgerDb.RecordSettlementFromFills: the average entry price column is not kept; a result other than yes or no raises before anything happens and is not a value here.
- LedgerTables.LedgerDb.AdoptOrder: the branch that is handed a client order id is not modelled, since main.py never passes one.
- Accounting.SettleOpenOrders: the fill sync it starts with is the method SyncFills; the reports of stuck or duplicated rows are not modelled.
- OrderProtocol.AtMostOnePost: the ledger works, as the promise assumes; the fallback for a broken ledger is not part of this model.
- OrderProcess.OrderPart: what happens before the write-ahead row (kill switch, breaker, market and price checks) and the scheduling of fill checks are not part of it.
- PauseLatch.StandingPauseForbidsOrders: a pause that could not be written to the latch file is kept only in memory and in the remote key, as in the source.
- PauseLatch.PollReleasesExactly: events, alert timing and the pause command are not modelled; the file the pause command writes is the action WriteFile.
- PoissonBinomial.ProbAtLeast: arithmetic is exact; floating-point rounding is not modelled.
- BraceScan.SelectsThePrintedObject: only the scan is modelled, not the fenced-block attempts before it nor the JSON parser after it.
- BraceScan.SelectsFromTheRawReply: white space is space, tab and line ends; Python strips more characters.
- LoginBudget.BudgetHoldsInEveryWindow: delays, the password comparison and the page itself are not modelled.
- ClockSkew.EstimateClockSkew: parsing of the Date header is a value that is there or not.
- Freshness.GreenExactlyWhen: message texts are not modelled.
- ExposureCap.StepKeepsInv: orders fill all-or-nothing at or below their limit, the exchange holds their cost back from cash and takes none that cash does not cover, a market held or ordered has one position, and a lot is not dropped while its order rests; fees, settlement and sales are out. Lots are stored in the database, so a crash is an evaluation given up, or one whose reply and lookup never come.
- ExposureCap.CapExactlyAtEveryPlacement: it speaks of the placement itself; an order the exchange takes only after the client stopped waiting is judged at the next placement, as part of what was left uncounted.
- Bookings.NoFillBookedTwice: that an order id names one ticker is the exchange's promise; that no id is written beside a settled row holding it is promised by nothing and is a condition, which MisattributedFillBooksTwice shows to be needed and IdBesideHolderExactly traces to its one cause. The same holds for GuardedTotalIsSumOverFills.
- Attribution.RightlyAttributedBooksOnce: that a job gives an order's id only to that order's row is a condition, since the fill sync knows only the ticker; `sync_fills` and the reply of a lookup are whole calls, and their pages and retries are not modelled.
- The schedule, paper trades, alerts, Streamlit pages and command lines: they would only add easy members.
- The agent and research code besides the brace scan and the Poisson-binomial sum: model calls, randomness and plots.
- Sportsbook-sourced research: single-pass formulas and persistence.
- Legacy imports and the legacy order, fill and settlement calls: no longer on any path main.py takes.
