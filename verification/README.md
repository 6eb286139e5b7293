# Verification of the Kairos core

Kairos keeps an append-only investment ledger and an order engine over one
serialised SQLite writer. This project models the parts of its Go core
(`services/core`) whose correctness does not show in any single function, and
proves what they promise:

- **The ledger.** Exact decimal arithmetic, canonical timestamps, CSV import with
  previews and receipts, FIFO replay into cash, holdings and realised profit, cash
  corrections, the one-way switch of the replay order, and the activity pages read
  while events are appended.
- **Orders.** The life of an order, arming, halting and leasing execution, the
  reservation written before an external call, the submit protocol under crashes,
  and reconciliation with what the broker reports.
- **Paper accounts.** The rules for targets, orders and fills, and the replay that
  recomputes every stored fill from bars, capacity and cash.
- **Readers and validators.** The candle pages and their merge, broker position
  differences and their validator, and the scanner for UTF-16 escapes.

`dafny verify dfyconfig.toml` checks everything.

## How it is built

Each table is a sequence that only grows and each transaction is one atomic step.
Code that loops over and updates local maps or lists is a method with the same loop,
proved equal to a specification function; the laws are lemmas about that function.
The service object whose methods change the tables is a class (`LedgerService.Store`,
`OrderService.OrderBook`): every method states its whole new state as a step function
of the old one, and lemmas about arbitrary sequences of those steps give the whole-run
theorems. Beside the step functions stand laws that tell the answer without them, from
the log, the file or the inputs alone: which lots are left, what each import row is, on
which bar an order fills and at what amounts, what a snapshot's texts read as, when each
writer writes and what. The three helper packages `internal/exact`, `internal/orderdomain` and
`internal/paperdomain` are modelled from their source, not assumed.

| layer | modules |
|---|---|
| numbers, texts, time | `Results`, `Exact`, `DecimalText`, `UtcText`, `Sums` |
| ledger replay | `LedgerTable`, `Fifo`, `FifoLaws`, `FifoOrder`, `FifoLedger`, `LedgerReplay`, `SnapshotLaws` |
| ledger import and policy switch | `RowChecks`, `CashVoids`, `CashCorrections`, `ImportRows`, `ImportLaws`, `LedgerDb`, `LedgerInvariants`, `LedgerLaws`, `ApplyLaws`, `LedgerService` |
| ledger reading | `LedgerActivity` |
| orders | `OrderDomain`, `OrderHistory`, `OrderStore`, `AppendLaws`, `ExecutionAuthority`, `AuthorityLaws`, `Dispatch`, `OrderInvariants`, `AccountLimit`, `SubmitProtocol`, `OrderService`, `SubmissionLaws`, `Reconciliation`, `ReconciliationLaws`, `ReconciliationOutcomes`, `ForgottenFill` |
| paper accounts | `PaperIntents`, `PaperTargets`, `PaperFill`, `FillLaws`, `PaperAccount`, `PaperReplay`, `PaperLaws`, `PaperLog`, `DelayedFill` |
| market data, broker, bundles | `CandleBatch`, `CandleLaws`, `BrokerPositions`, `BrokerRows`, `BrokerLedger`, `SplitLedger`, `JsonSurrogates` |

Clocks, generated identifiers and answers of the broker are arguments, so every
theorem holds for all of them: clocks may run backwards and differ between processes.

## What does not hold as one might expect

Each of these is proved with the exact condition under which the code does what one
would expect, and with an instance that shows the exception.

- *The two replay orders agree when they rank events alike* – except in `as_of` when
  the last event is before 1970: the legacy clock starts at 1970 and stands still there
  (`LedgerReplay.AlikeSnapshots`, `LedgerReplay.BeforeEpochDiffers`).
- *normalize is idempotent on its outputs* – exactly when the year, moved to UTC, still
  has four digits. A local time in year 0000 that falls in the year before is previewed
  as new, and the ledger it would make does not replay, so apply refuses it
  (`RowChecks.NormalizeAgain`, `RowChecks.YearZeroIsLost`).
- *A MATCHED reconciliation leaves filled = quantity − remaining* – exactly when the
  lookup still lists every execution stored earlier; otherwise more is filled than the
  broker says. One run of the writers reaches such an order, of ten with four filled,
  and a valid lookup is accepted that leaves it with eight filled where the broker says
  four (`ReconciliationLaws.MatchedQuantity`, `ReconciliationLaws.ForgottenExecution`,
  `ForgottenFill.EightNotFour`).
- *The validator accepts what positionDifferences produces* – exactly when no text is
  longer than 64 characters (`BrokerPositions.ProducedIsAccepted`,
  `BrokerPositions.LongTextRefused`).
- *The broker comparison sees the FIFO holdings* – exactly of the stocks of which nothing
  goes unread. ledgerKRXQuantities reads neither splits nor other accounts' trades,
  while FIFO lots are kept for all accounts together; on any ledger it misses exactly
  what those create, and it fails exactly on a sale that leaves less than it has missed.
  A stored ledger of three rows, ten bought, split by two, fifteen sold, replays and
  fails (`BrokerLedger.QuantitiesTell`, `BrokerLedger.AgreeExactly`,
  `BrokerLedger.FullMatchTells`, `SplitLedger.ReplaysButFails`).
- *A bounded paper replay is the full replay of the truncated log* – exactly when the
  bar of every kept fill has closed by the cutoff; then it cannot fail. One accepted log
  whose bar closes later shows the difference (`PaperLaws.BoundedIsTruncated`,
  `PaperLaws.LateBarDiffers`).
- *Raw timestamp text sorts by time* – it does not, which is what the replay-policy
  switch repairs (`UtcText.RawTextsMissort`, `UtcText.TrimmedTextsSortByTime`).

## Model

| member | source | states |
|---|---|---|
| Exact.FiniteIsResidue | services/core/internal/exact/exact.go:24-49 | a fraction is a finite decimal if and only if what is left of its denominator without factors 2 and 5 divides its numerator, the test the formatter's loops make |
| Exact.QuantizeHalfEven | services/core/internal/exact/exact.go:51-64 | rounding the magnitude and restoring the sign is rounding the real value to the nearest multiple, ties to even |
| Exact.FIFOAllocation | services/core/internal/exact/exact.go:66-83 | the rational allocation succeeds and has the value of the allocation on real numbers, for every input whose division is defined |
| Exact.AllocationLaws | services/core/internal/exact/exact.go:66-83 | on a non-negative finite cost neither error can occur; the allocation and what it leaves are finite, within the cost, and within 5e-9 of the exact share |
| DecimalText.FormatOfParse | services/core/internal/exact/exact.go:13-49 | every accepted decimal text is its value's canonical text |
| DecimalText.ParseOfFormat | services/core/internal/exact/exact.go:13-49 | every finite value's text parses back to that value |
| DecimalText.FormatOfValue | services/core/internal/exact/exact.go:24-49 | equal values have equal texts, however the fraction is written |
| UtcText.TrimmedTextsSortByTime | services/core/core.go:1731-1737 | canonical UTC texts compared after rtrim of Z sort exactly in time order, and tie only when equal |
| UtcText.RawTextsMissort | services/core/core.go:1731-1737 | compared whole, any fraction of a second sorts before the whole second it follows |
| UtcText.CanonicalIsFormat | services/core/broker_snapshot.go:515-518 | the canonical texts are exactly the renderings of valid stamps with a four-digit year |
| UtcText.ToUtcInstant | services/core/core.go:1427-1557 | moving a local time with any offset Go takes, up to 24 hours and 60 minutes, to UTC keeps it valid and names the same instant |
| UtcText.ParseOfZoned | services/core/core.go:1427-1557 | every four-digit-year stamp is read back from its own text in any zone |
| UtcText.WideYearUnparsed | services/core/broker_snapshot.go:515-518 | a year before 0 or after 9999 prints as a text the parser refuses |
| LedgerTable.RankedIsOrdering | services/core/core.go:1731-1758 | the query returns every selected row once, strictly ordered by key and sequence |
| LedgerTable.ThroughOfAppended | services/core/core.go:1743-1758 | rows appended later never show below an old revision |
| Fifo.SellConservesCost | services/core/core.go:1835-1857 | what leaves the lots is exactly what the sale is charged, for any lots |
| Fifo.SellLaws | services/core/core.go:1835-1857 | on sound lots a sale succeeds if and only if the units suffice, takes exactly that many and leaves sound lots |
| Fifo.TakeLaws | services/core/core.go:1837-1853 | on a sound lot no allocation error can occur; a lot taken whole takes exactly its whole cost and a lot cut stays sound |
| Fifo.CutNearExact | services/core/core.go:1837-1853 | one partial sale adds at most 5e-9 to the distance between a lot's cost and its exact proportional cost |
| Fifo.SplitSound | services/core/core.go:1809-1818 | a split moves no cost and keeps the rounding bound |
| FifoLaws.NetIsResidual | services/core/core.go:1763-1859 | for any rows at all, cash plus open cost minus realised profit is a sum of per-event terms |
| FifoLaws.Conservation | services/core/core.go:1763-1859 | on checked rows that sum is exactly the non-trade cash flows, whatever the buys, sells and splits |
| FifoLaws.CashIsSum | services/core/core.go:1770-1800 | each balance is the sum of its cash flows, and balances exist exactly for the currencies met |
| FifoLaws.ReplaySound | services/core/core.go:1763-1859 | over a whole replay balances stay finite decimals, lots positive, and n partial sales leave a cost within n times 5e-9 of the exact share across any splits |
| FifoLaws.ReplayStops | services/core/core.go:1763-1859 | a replay goes on past a checked event if and only if a split finds a lot and a sale finds its units |
| FifoLaws.OrdersAgreeOnMoney | services/core/core.go:1731-1737 | whenever both replay orders succeed they agree on cash and, per currency, on realised profit minus open cost |
| FifoLaws.AlikeOrdersAgree | services/core/ledger_replay_policy.go:84-111 | if both orders rank all events alike they read the same rows, and the clocks agree if and only if the last text is not below the zero time |
| FifoOrder.SellOrder | services/core/core.go:1835-1857 | a sale eats the lots from the front: if the lots were the last purchases, whole but for the first, they still are, with exactly the units sold gone |
| FifoOrder.OldestSoldFirst | services/core/core.go:1809-1857 | in every replay of checked events the open lots of a position are its last purchases in reading order, whole but for the first, and exactly the units sold are gone from the earlier ones and that first |
| FifoOrder.SaleRealises | services/core/core.go:1835-1859 | a sale realises its amount less the cost that left its lots |
| FifoLedger.OldestIsSold | services/core/core.go:1832-1857 | bought at 100, bought at 200, sold at 300: 200 is realised and 200 is left in the lots |
| LedgerReplay.SellLots | services/core/core.go:1835-1857 | the SELL loop terminates on every input and computes the lots and charge of the specification |
| LedgerReplay.MultiplyLots | services/core/core.go:1809-1818 | the SPLIT loop multiplies every lot's units and touches no cost |
| LedgerReplay.Post | services/core/core.go:1770-1859 | one event, with each of its refusals, computes the specification's step |
| LedgerReplay.ReplayRows | services/core/core.go:1763-1859 | the whole loop over exact rationals computes the specification's book and fails exactly when it does |
| LedgerReplay.FormatAll | services/core/core.go:1868-1903 | rendering succeeds if and only if all values are finite decimals, and gives their canonical texts |
| LedgerReplay.SnapshotFromPolicy | services/core/core.go:1731-1903 | the snapshot, with its cutoff and every refusal, is the specification's for each policy |
| LedgerReplay.CheckedSnapshot | services/core/core.go:1861-1903 | a checked ledger that replays can always be rendered |
| LedgerReplay.CutoffIsStable | services/core/core.go:1743-1758 | a replay through revision k depends only on the first k events |
| LedgerReplay.AlikeSnapshots | services/core/ledger_replay_policy.go:84-111 | if the orders rank alike either both snapshots exist or neither, and they differ only in the label and, exactly when the last event is before the zero time, in as_of |
| LedgerReplay.BeforeEpochDiffers | services/core/core.go:1769-1790 | one event in 1969 shows the as_of exception |
| SnapshotLaws.CashShown | services/core/core.go:1861-1903 | a currency's cash is shown if and only if some event names it, and its text reads as the sum of its cash flows |
| SnapshotLaws.SnapshotBalances | services/core/core.go:1861-1903 | read back from the texts, cash plus the cost of the holdings less realised profit is the sum of the non-trade cash flows |
| SnapshotLaws.HoldingShown | services/core/core.go:1861-1903 | a position is shown if and only if more units were bought than sold, and its quantity text reads as the rest |
| SnapshotLaws.HoldingLabelled | services/core/core.go:1826-1829 | a holding carries the instrument, symbol and currency of the trade that opened its position |
| SnapshotLaws.ClockIs | services/core/core.go:1769-1790 | as_of is the last time read, or for the legacy policy the greatest text and never below the zero time |
| SnapshotLaws.SnapshotLists | services/core/core.go:1731-1786 | a snapshot through a revision reads its first events in order, under the time the last of them was recorded at, and lists their ids and each receipt once as first met |
| RowChecks.NormalizeAccepts | services/core/core.go:1427-1557 | normalize accepts exactly the fitting rows with a parseable time and changes only the id, the time text and the instrument id |
| RowChecks.NormalizeAgain | services/core/core.go:1427-1557 | normalizing an accepted row again gives it back if and only if its UTC year has four digits |
| RowChecks.YearZeroIsLost | services/core/core.go:1427-1557 | a concrete accepted row whose stored time is not canonical |
| RowChecks.FitsChecked | services/core/core.go:1477-1551 | every accepted row has the numbers the replay counts on, with a buy's amount exactly minus its cost |
| RowChecks.SignInText | services/core/migrations/009_fx_exchange.sql:28-60 | in accepted decimal texts a leading dash is a negative sign and "0" is zero, so the table's text checks mean what they say |
| RowChecks.FitsTable | services/core/migrations/009_fx_exchange.sql:28-60 | no row normalize accepts is refused by the table's own CHECK clause |
| CashVoids.CancelInText | services/core/migrations/022_ledger_replay_policy.sql:46-58 | two canonical decimals add to zero if and only if their texts are opposite |
| CashVoids.GuardAgrees | services/core/core.go:1395-1421 | the exact check and the table's trigger on text accept the same corrections |
| CashVoids.ReversalCancels | services/core/core.go:1395-1421 | a valid correction takes back its target's cash flow in every currency |
| CashCorrections.CorrectionTarget | services/core/core.go:1350-1366 | each correction has one target, stored earlier, reversed exactly; no event is corrected twice |
| CashCorrections.CorrectionsCancel | services/core/core.go:1395-1421 | cash flows add up to those of the ledger with every correction and target removed |
| CashCorrections.CorrectionsLeaveNoTrace | services/core/core.go:1763-1859 | that reduced ledger replays, in either order, to the same cash, lots and realised profit |
| ImportRows.ParseCsv | services/core/core.go:1272-1376 | the row loop with its maps of ids seen classifies a file as specified, and fails exactly on too many rows or a stored correction that no longer checks |
| ImportRows.ScanOk | services/core/core.go:1302-1375 | the rows called new fit, are pairwise distinct, are not stored, and claim distinct corrections |
| ImportLaws.RowExactly | services/core/core.go:1302-1375 | of every row, against the stored events and the rows before: an error exactly when it does not normalize, unresolved exactly when its account or symbol is unknown, duplicate or conflict exactly when its source id was used, for the same data or not, a bad correction exactly when it does not undo an unclaimed stored cash event, and new otherwise |
| ImportLaws.DuplicateOrConflict | services/core/core.go:1315-1347 | a row whose source id is stored, or was new or duplicate earlier in the file, is a duplicate if and only if every other column is the same, and otherwise source_event_conflict |
| LedgerDb.ProveLedgerEvents | services/core/ledger_activity.go:272-318 | the event check accepts exactly the contiguous tables all of whose rows are what normalize makes of them |
| LedgerInvariants.TableIsProven | services/core/ledger_activity.go:272-350 | every table the writers leave behind passes the event check |
| LedgerInvariants.ApplyKeeps | services/core/core.go:1614-1712 | apply keeps the database invariant whatever it answers |
| LedgerInvariants.ActivateKeeps | services/core/ledger_replay_policy.go:155-189 | so does the policy switch |
| LedgerInvariants.ProofSurvivesAppend | services/core/ledger_replay_policy.go:191-239 | appending events never breaks the stored proof of the switch |
| LedgerInvariants.RunsAreValid | services/core/core.go:1214-1712 | any interleaving of previews, applies and switches keeps the invariant: revision is the event count, sources are unique, the current ledger replays |
| LedgerLaws.CommittedLedger | services/core/core.go:1614-1712 | every committed ledger passes the event check, has unique sources and corrections, and under the corrected policy replays without overselling |
| LedgerLaws.CommittedMoney | services/core/core.go:1763-1859 | in every state the writers reach balances are finite, lots sound, and cash plus open cost minus realised profit is the sum of the non-trade cash flows |
| LedgerLaws.RunsGoForward | services/core/core.go:1614-1712 | over any run events are only appended, receipts only added, the policy switched at most once and one way |
| LedgerLaws.RetriesAreStable | services/core/core.go:1626-1648 | a key once answered returns the same receipt at any later time and changes nothing; with another preview it is refused |
| LedgerLaws.LegacyIsFrozen | services/core/core.go:1695-1698 | while the legacy policy is in force no apply succeeds and the revision stays where it was |
| LedgerLaws.TransitionStaysProven | services/core/ledger_replay_policy.go:191-239 | after the switch its record is never rewritten and still proves, whatever is imported later |
| LedgerLaws.FreshRowsInsert | services/core/core.go:1677-1690 | no constraint or trigger refuses a row of a preview that is still current |
| LedgerLaws.FreshPreviewApplies | services/core/core.go:1614-1712 | with a current preview and new ids, apply succeeds if and only if the clock has a four-digit year, the new times are canonical and the resulting ledger replays |
| ApplyLaws.RefusedExactly | services/core/core.go:1640-1664 | a request with a new key is refused for a missing preview, from its expiry on, for a row in error or unresolved, or for another revision, in that order, and then for nothing before the insert |
| ApplyLaws.AppliedExactly | services/core/core.go:1674-1712 | a commit had a current, unexpired and clean preview; it appends its new rows in file order under one receipt and one time, the receipt counts new and duplicate rows, and nothing else changes |
| ApplyLaws.ActivatedExactly | services/core/ledger_replay_policy.go:155-189 | the switch happens if and only if revision, events and corrected snapshot approved are those shown now, not before the ledger's own time and in a four-digit year; it writes one transition and touches no event |
| ApplyLaws.ShownForApproval | services/core/ledger_replay_policy.go:122-153 | what is shown is the whole ledger and its two snapshots under the captured recorded_at |
| LedgerService.MigratedIsValid | services/core/migrations/022_ledger_replay_policy.sql:1-44 | an old ledger frozen by the migration satisfies the invariant |
| LedgerService.ProveReplayState | services/core/ledger_replay_policy.go:191-239 | the check decides exactly whether the stored switch agrees with a replay of the frozen prefix |
| LedgerService.Prepare | services/core/ledger_replay_policy.go:122-153 | the preview of the switch exists exactly when the frozen ledger is intact and replays in both orders |
| LedgerService.Store.StorePreview | services/core/core.go:1214-1270 | the tables after a preview are the preview step of the tables before |
| LedgerService.Store.InsertRows | services/core/core.go:1677-1690 | the insert loop appends exactly the new rows in order, or refuses as the constraints do |
| LedgerService.Store.Apply | services/core/core.go:1614-1712 | the tables and the answer of apply are the apply step of the tables before; a failure changes nothing |
| LedgerService.Store.Activate | services/core/ledger_replay_policy.go:155-189 | the tables and the answer of the switch are the activate step of the tables before |
| LedgerActivity.LedgerActivities | services/core/ledger_activity.go:171-270 | the page, or its refusal, is the specification's for every cursor and limit |
| LedgerActivity.OlderIsBefore | services/core/ledger_activity.go:206-236 | the cursor's WHERE condition is the sort order itself |
| LedgerActivity.NextPage | services/core/ledger_activity.go:171-270 | the page after a cursor is the following slice of the old listing, whatever has been appended |
| LedgerActivity.PagesListLedger | services/core/ledger_activity.go:171-270 | following cursors with any limits and any appends between shows the first page's ledger, each row exactly once, as far as the limits reach |
| LedgerActivity.ListingByTime | services/core/ledger_activity.go:206-236 | the listing runs strictly backwards in time and sequence |
| LedgerActivity.CursorExactly | services/core/ledger_activity.go:171-270 | any cursor is served if and only if its revision and sequence are stored under its two times; the page then holds rows of that revision older than the cursor, newest first, and leaves out only older ones, for which the next cursor stands |
| ExecutionAuthority.LoadAuthority | services/core/execution_authority.go:488-522 | the loading loop returns the newest state of exactly the logs the validator accepts |
| ExecutionAuthority.HaltAccounts | services/core/execution_authority.go:298-328 | halting several accounts writes all records or none |
| ExecutionAuthority.TokenIsPosition | services/core/execution_authority.go:552-600 | in an accepted log the fencing token is the record's position |
| ExecutionAuthority.Takeover | services/core/execution_authority.go:552-600 | a different owner holds a later lease only across an intervening halt or an expiry |
| ExecutionAuthority.OwnedIsNewest | services/core/execution_authority.go:280-287 | only the newest record's owner and token pass the ownership check, and only before expiry |
| ExecutionAuthority.FencedOut | services/core/execution_authority.go:280-287 | a superseded token never passes again, for any owner at any time |
| ExecutionAuthority.ArmKeeps | services/core/execution_authority.go:64-100 | arming or halting under any clock leaves every account's log accepted |
| ExecutionAuthority.AcquireKeeps | services/core/execution_authority.go:121-155 | so does acquiring a lease |
| ExecutionAuthority.RenewKeeps | services/core/paper_local_heartbeat.go:12-78 | so does a heartbeat |
| ExecutionAuthority.HaltAllKeeps | services/core/execution_authority.go:298-328 | so does halting any list of accounts |
| AuthorityLaws.AcceptedExactly | services/core/execution_authority.go:552-600 | the validator accepts exactly the logs numbered from one that start with an arming, arm only what is halted, lease or halt only what is armed, and replace a running lease only by a longer one of its owner |
| AuthorityLaws.ArmExactly | services/core/execution_authority.go:64-100 | arming or halting writes nothing when it is so already, and otherwise one next record unless the id was used |
| AuthorityLaws.AcquireExactly | services/core/execution_authority.go:121-155 | a lease is refused while halted or while another owner's runs, kept by its own owner, and from its expiry on granted anew for thirty seconds |
| AuthorityLaws.RenewExactly | services/core/paper_local_heartbeat.go:12-78 | a heartbeat extends a lease if and only if its owner holds the newest record, still runs, the clock has not gone back and the new end is later |
| AuthorityLaws.HaltAllExactly | services/core/execution_authority.go:298-328 | a list of accounts is halted, with one next record each, if and only if all are armed, listed once and their ids are new |
| OrderDomain.FillsAddUp | services/core/internal/orderdomain/order.go:58-172 | after any history the filled quantity is the sum of the fills and at most the order |
| OrderDomain.TransitionConsistent | services/core/internal/orderdomain/order.go:58-172 | every transition keeps status, pending command and filled quantity consistent |
| OrderDomain.DispatchedStays | services/core/internal/orderdomain/order.go:58-172 | a dispatched order stays dispatched, and once inactive never becomes active again |
| OrderDomain.PendingSubmitIsDispatch | services/core/internal/orderdomain/order.go:58-172 | only SUBMIT_DISPATCHED, and only on an order never dispatched, sets a pending submit |
| OrderHistory.HistoryTells | services/core/internal/orderdomain/order.go:58-191 | a history is accepted if and only if each event may follow those before it (intent, risk decision, dispatch, one answer or fills under one reference within the order, one open cancel at a time), and status, pending command, filled quantity and reference are functions of which events occurred |
| OrderStore.LoadState | services/core/order_state.go:392-432 | the loading loop computes the order's state from its events |
| OrderStore.HasUnresolved | services/core/order_state.go:630-660 | it answers no exactly when every order of the account loads and none waits for an outcome |
| OrderStore.AppendEffect | services/core/order_state.go:307-386 | an append that succeeds adds nothing, or exactly the new event with one transition of its own order and none of any other |
| AppendLaws.AppendExactly | services/core/order_state.go:307-386 | a stored id is answered only for the identical event, a stored execution only for one that differs in the id alone, and a new event is taken if and only if the history, its reference, its ticket and, for a dispatch, the account's other orders allow it |
| AppendLaws.RecordExactly | services/core/order_state.go:232-282 | a repeated client request is answered only when every field is the same, and a new one is recorded under unused ids as an order and its first event |
| AppendLaws.StoredSound | services/core/order_state.go:307-386 | in every loaded table quantities and prices are as their mode asks, fills are positive, each execution is stored once, and fills stay within their order |
| Dispatch.ActiveReserved | services/core/execution_authority.go:351-388 | the sum exists exactly when every reservation of the account proves, and is the sum of the active ones |
| OrderInvariants.AppendKeeps | services/core/order_state.go:307-386 | appending any event keeps the invariant of all order tables |
| OrderInvariants.IntentKeeps | services/core/order_state.go:232-282 | so does recording an intent |
| OrderInvariants.AuthorizeKeeps | services/core/execution_authority.go:181-267 | so does authorizing a dispatch |
| OrderInvariants.AuthorizeDispatches | services/core/execution_authority.go:181-267 | a call that dispatches writes one reservation for an order that had none and its two adjacent events |
| OrderInvariants.AuthorizeAgain | services/core/execution_authority.go:162-179 | a repeated call answers from the stored reservation and writes nothing |
| OrderInvariants.ProvenSurvives | services/core/execution_authority.go:402-447 | a reservation that proves keeps proving whatever the writers do later |
| OrderInvariants.TakenFalls | services/core/execution_authority.go:351-400 | nothing but a new reservation raises what an account has reserved |
| SubmitProtocol.RunsAreGood | services/core/execution_authority.go:64-267 | over every run of the writers all logs are accepted and all reservations prove |
| SubmitProtocol.Exposure | services/core/execution_authority.go:181-267 | in every such state active reservations stay within 1,000,000, an order has one reservation with adjacent events, and an account at most one pending submit |
| AccountLimit.MoneyAtRisk | services/core/execution_authority.go:181-267 | in every state of the writers a reservation holds its order's quantity times its price, at most 1,000,000 for one to ten units, and the synthetic orders of an account that may still be executed are worth at most 1,000,000 together |
| AccountLimit.TakenIsWorth | services/core/execution_authority.go:351-400 | what an account has reserved is the sum of quantity times price over its reserved orders that may still be executed |
| AccountLimit.DispatchExactly | services/core/execution_authority.go:181-267 | a call dispatches if and only if the order is a recorded synthetic buy of one of the two stocks, of one to ten units worth at most 1,000,000, without a reservation, under the newest running lease, with no order of the account waiting, new ids, and room under 1,000,000 |
| SubmitProtocol.SentAtMostOnce | services/core/kiwoom_order_transport.go:129-166 | for any processes, retries, other writers and crashes between any two steps no order is sent twice, and every order sent has a committed reservation |
| SubmitProtocol.CommittedBeforeSend | services/core/kiwoom_order_transport.go:129-166 | when the external call is made the reservation and dispatch are already committed and the order has not been sent before |
| OrderService.OrderBook.AppendEvent | services/core/order_state.go:307-386 | the append method's tables and answer are the specification's |
| OrderService.OrderBook.SetArmed | services/core/execution_authority.go:64-100 | arming or halting appends exactly the specified record or nothing |
| OrderService.OrderBook.AcquireLease | services/core/execution_authority.go:102-155 | acquiring appends exactly the specified record or nothing |
| OrderService.OrderBook.Authorize | services/core/execution_authority.go:162-267 | authorizing commits the reservation and both events, or restores every table |
| OrderService.OrderBook.CheckAndReserve | services/core/execution_authority.go:181-245 | the checks before the reservation accept exactly what the specification accepts |
| OrderService.OrderBook.SubmitLimitOrder | services/core/kiwoom_order_transport.go:129-166 | the tables, the answer and the call made are those of one specified submission; it sends only after committing a dispatch of its own, at most once, and does nothing when one is already committed |
| OrderService.SubmissionDecides | services/core/kiwoom_order_transport.go:149-166 | once the broker is called, its answer is recorded if and only if the log can take it, as an open order under its reference or a rejected one; otherwise the order stays pending and its account cannot dispatch again |
| SubmissionLaws.CalledExactly | services/core/kiwoom_order_transport.go:129-148 | the broker is called if and only if the preflight passed and this very call was authorized to dispatch |
| SubmissionLaws.OneProcessSubmits | services/core/kiwoom_order_transport.go:129-166 | run by one process, the steps of the protocol leave the tables of one submission and call the broker in the same cases |
| OrderInvariants.AuthorizedWaits | services/core/execution_authority.go:245-267 | a call that dispatches leaves its order waiting for the broker's answer |
| Reconciliation.ValidateLookup | services/core/kiwoom_order_reconciliation.go:152-207 | the nested loops accept exactly the valid lookups, references distinct across orders |
| Reconciliation.ReconcileLookup | services/core/kiwoom_order_reconciliation.go:61-150 | the call computes the specified answer and tables and is refused exactly when it should be |
| ReconciliationLaws.OnlyMatchWrites | services/core/kiwoom_order_reconciliation.go:61-125 | INCOMPLETE, NOT_FOUND and UNCORRELATED leave the database as it was |
| ReconciliationLaws.MatchEffect | services/core/kiwoom_order_reconciliation.go:127-150 | a match adds only fills the lookup lists and leaves all of them in the log |
| ReconciliationLaws.ReconcilingAgain | services/core/kiwoom_order_reconciliation.go:61-150 | reconciling the same lookup again changes nothing and answers the same |
| ReconciliationLaws.MatchedQuantity | services/core/kiwoom_order_reconciliation.go:61-150 | after a match filled is quantity minus remaining if and only if every earlier execution is in the lookup, and otherwise more |
| ReconciliationLaws.ForgottenExecution | services/core/kiwoom_order_reconciliation.go:61-150 | a complete observation that lists one new execution of an open order is accepted whatever was filled before, and leaves the broker's quantity if and only if nothing was |
| ForgottenFill.RunReaches | services/core/kiwoom_order_transport.go:129-166 | arming, leasing, recording, dispatching, acknowledging and filling reach a database with ten ordered and four filled that satisfies the invariant |
| ForgottenFill.EightNotFour | services/core/kiwoom_order_reconciliation.go:61-207 | there a valid lookup is accepted after which eight are filled where the broker says four |
| Reconciliation.FillIdInjective | services/core/kiwoom_order_reconciliation.go:264-267 | different fills have different event identifiers |
| ReconciliationLaws.InOrderSorted | services/core/kiwoom_order_reconciliation.go:214-222 | fills are appended by time, then by reference |
| ReconciliationLaws.ListingOrderIgnored | services/core/kiwoom_order_reconciliation.go:209-232 | the order in which the broker lists executions does not change the events asked for |
| ReconciliationOutcomes.LookupExactly | services/core/kiwoom_order_reconciliation.go:152-207 | a lookup is valid if and only if each order and execution is positive, in time and within the order, and no reference is used twice anywhere |
| ReconciliationOutcomes.BeforeMatching | services/core/kiwoom_order_reconciliation.go:61-107 | a lookup is refused unless the synthetic order of its account was reserved no later than it, answers INCOMPLETE or UNCORRELATED while it or the submit is open, and is refused for an order without a reference |
| ReconciliationOutcomes.OnMatching | services/core/kiwoom_order_reconciliation.go:108-150 | with a reference: NOT_FOUND exactly when no observation has it; refused when symbol, side, quantity or price differ or it was submitted before the dispatch; INCOMPLETE when it is; and otherwise all its executions are appended or the call is refused |
| PaperIntents.ValidateDeltas | services/core/paper_accounting.go:503-582 | the loop over its maps accepts and computes as specified |
| PaperIntents.OneUnfinished | services/core/paper_accounting.go:503-582 | in every accepted log an account and symbol has at most one unfinished order, and the position is short of its target by exactly what is left |
| PaperIntents.FillsApproachTarget | services/core/paper_accounting.go:503-582 | each fill moves the position strictly towards the target, never past it, and reaches it exactly on completion |
| PaperIntents.OversellNeverFires | services/core/paper_accounting.go:563-570 | with non-negative targets the oversell check refuses no log the rest accepts |
| PaperTargets.AcceptedExactly | services/core/paper_accounting.go:503-582 | a log is accepted if and only if every intent finds no open order of its account and symbol and makes up the difference between target and fills, and every fill follows its intent, within the order and the holding |
| PaperFill.CalculateFill | services/core/internal/paperdomain/paper.go:43-162 | the exact calculation computes the specified fill, no fill or error |
| PaperFill.FillBounds | services/core/internal/paperdomain/paper.go:43-162 | a fill is positive, within the order and the bar's capacity; a buy never costs more than the cash, a sale never takes more than is held |
| PaperFill.FillFinite | services/core/internal/paperdomain/paper.go:130-162 | all amounts of a fill are finite decimals, so formatting never fails |
| FillLaws.FillAmounts | services/core/internal/paperdomain/paper.go:98-162 | a fill is priced at the bar's open, raised for a buy and lowered for a sale by the basis points; notional, slippage, tax, fee and cash follow from that price and the quantity |
| FillLaws.OutcomeExactly | services/core/internal/paperdomain/paper.go:43-162 | an order fills with the largest quantity that order, bar, money or holding allow; it is refused exactly for a buyer in debt with room or a sale that loses money, and otherwise does not fill exactly when not one unit is allowed |
| FillLaws.OtherwiseRefused | services/core/internal/paperdomain/paper.go:43-96 | a policy or input out of range, or a bar already overdrawn, is refused |
| PaperAccount.ApplyFill | services/core/internal/paperdomain/paper.go:254-341 | booking a fill on exact rationals is the specified booking |
| PaperAccount.ApplyConserves | services/core/internal/paperdomain/paper.go:264-341 | booking any fill keeps cash plus open cost minus realised profit |
| PaperAccount.ApplySound | services/core/internal/paperdomain/paper.go:264-341 | a finite fill is refused if and only if cash or units are missing, and keeps the account sound |
| PaperAccount.CalculatedApplies | services/core/internal/paperdomain/paper.go:43-341 | a fill calculated for an account can always be booked to it |
| PaperLog.AccountsAddUp | services/core/internal/paperdomain/paper.go:254-341 | over every accepted log cash, fees, taxes, slippage and fill counts of an account are the sums over its rows |
| PaperLog.OldestPaperFirst | services/core/internal/paperdomain/paper.go:254-341 | over every accepted log the open lots of an account and symbol are its last purchases in log order, whole but for the first, and exactly the units sold are gone from the earlier ones and that first |
| PaperReplay.FillsAreDetermined | services/core/paper_accounting.go:369-499 | two accepted logs that fill the same orders in the same sequence are the same log but for the leases named |
| PaperReplay.FilledUnderLease | services/core/paper_accounting.go:622-635 | every fill of an accepted log was recorded during an armed lease of its account under the token it names |
| PaperReplay.StableUnderNewBars | services/core/paper_accounting.go:584-620 | an accepted log stays accepted, with the same accounts, when bars are appended |
| PaperReplay.NoBarTwice | services/core/paper_accounting.go:369-499 | no order uses a bar twice |
| PaperReplay.CapacityHeld | services/core/paper_accounting.go:369-499 | what an account takes of a bar for a symbol never exceeds its share of the bar's volume |
| PaperReplay.OrdersNotOverfilled | services/core/paper_accounting.go:369-499 | no order is filled beyond its quantity |
| PaperLog.AcceptedExactly | services/core/paper_accounting.go:369-620 | a log is accepted if and only if every row is the fill of the first bar of its order's series, after the cutoff and with delay less one bars of the series between, that the order has not used and that gives a fill, asked with what the rows before leave of order, cash, holding and bar |
| PaperLog.FilledInLease | services/core/paper_accounting.go:622-635 | every row of an accepted log names its order's records and a stored lease of its account that covers the time it was recorded |
| DelayedFill.FillsOnFifth | services/core/paper_accounting.go:584-620 | with two bars seen, a delay of two and a foreign bar between, the order fills on the fifth bar and a first row on any other is refused |
| PaperLaws.StepAccepts | services/core/paper_accounting.go:369-499 | a row is accepted if and only if it is the fill that is due and names its order's evidence and a lease it was recorded under; it then keeps the accounts balanced |
| PaperLaws.PaperConservation | services/core/paper_accounting.go:301-501 | over every accepted log each account's cash plus open cost minus realised profit is its starting cash, and cash never goes negative |
| PaperLaws.BoundedIsTruncated | services/core/paper_accounting.go:301-501 | the bounded replay succeeds and is the full replay of the truncated log if and only if the bar of every kept fill closes by the cutoff |
| PaperLaws.ClosedBooks | services/core/paper_accounting.go:472-483 | when the bars of all kept fills have closed no bounded booking is refused |
| PaperLaws.LateBarDiffers | services/core/paper_accounting.go:472-483 | an accepted log with one fill on a bar that closes after the cutoff, whose bounded replay is not that of the truncated log |
| PaperLaws.ReplayPaper | services/core/paper_accounting.go:301-501 | the check of targets and orders and the one-pass loop, with the lease and evidence each fill names, compute both the full and the bounded accounts as specified |
| CandleBatch.ReadCandles | services/core/kiwoom_market_data.go:145-219 | the loops over pages and rows fail exactly when the specified walk does or finds nothing, and otherwise return its newest candles |
| CandleBatch.WalkFacts | services/core/kiwoom.go:361-386 | at most 32 pages are read, no cursor is followed twice, and the batch is the merge of the pages read |
| CandleBatch.NewestDistinct | services/core/kiwoom_market_data.go:158-219 | a successful read is strictly ascending and is the newest min(500, n) of the n distinct candles on the pages read |
| CandleBatch.BarTextsSortByTime | services/core/kiwoom_market_data.go:206-262 | the texts of whole-second times sort exactly like the times, and tie only when equal |
| CandleLaws.RowsExactly | services/core/kiwoom_market_data.go:158-204 | rows are merged if and only if all normalize, none is later than the one before unless that has the zero time, and rows of one time agree |
| CandleLaws.ReadExactly | services/core/kiwoom.go:361-386 | a read succeeds if and only if some page within 32 ends it, by its headers or because 500 times were read before it, with every earlier page leading on under a key of its own and all rows fitting; it stops on that page |
| BrokerPositions.PositionDifferences | services/core/broker_snapshot.go:380-429 | one row per symbol of either side, in symbol order, with exact difference and match flags; it never fails on valid input |
| BrokerPositions.Validate | services/core/broker_snapshot.go:556-594 | the metadata checks and the deleting loop accept exactly the identified records whose ordered, arithmetically right rows account for every broker position |
| BrokerPositions.ProducedIsAccepted | services/core/broker_snapshot.go:380-594 | the producer's rows are accepted if and only if no text exceeds 64 characters, and report a full match if and only if the zero-extended sides are equal |
| BrokerPositions.LongTextRefused | services/core/broker_snapshot.go:503-513 | a holding of 10^64 is reported and then refused |
| BrokerRows.ProducedCompares | services/core/broker_snapshot.go:380-429 | read as numbers, each row gives the broker's and the ledger's quantity, zero where there is none, the first less the second, and whether they are equal |
| BrokerRows.AcceptedExactly | services/core/broker_snapshot.go:556-594 | the validator takes exactly the reports of six-digit symbols in order, one for every position, with non-negative sides of at most 64 characters, their true difference and true flags |
| BrokerLedger.LedgerQuantities | services/core/broker_snapshot.go:332-378 | the loop over the query's rows computes the specified quantities and fails exactly when it does |
| BrokerLedger.TradesRanked | services/core/broker_snapshot.go:341-342 | selecting an account's KRW trades and ordering them is ordering the ledger and selecting |
| BrokerLedger.QuantitiesTell | services/core/broker_snapshot.go:332-378 | on any replaying ledger, with splits and other accounts anywhere, the loop succeeds if and only if every sale it reads leaves the units it has not read, and then holdings are its quantities plus those units |
| BrokerLedger.AgreeExactly | services/core/broker_snapshot.go:341-342 | of each stock the two sides agree if and only if nothing went unread |
| BrokerLedger.QuantitiesAgree | services/core/broker_snapshot.go:332-378 | with one account and no KRW stock split the loop cannot fail and holds, for every stock, the units of the open FIFO lots |
| BrokerLedger.SplitIsMissed | services/core/broker_snapshot.go:341-342 | after any ledger a split adds its factor less one, for each unit held, to what goes unread |
| BrokerLedger.SaleAfterSplit | services/core/broker_snapshot.go:363-372 | after any ledger, with splits or not, a sale the ledger accepts fails the loop if and only if it exceeds the units held less the unread ones |
| BrokerLedger.FullMatchTells | services/core/broker_snapshot.go:332-429 | on any stored ledger that replays the comparison exists under that same condition and reports a full match if and only if the broker holds of every stock the FIFO units less the unread ones |
| BrokerLedger.FullMatchIsFifo | services/core/broker_snapshot.go:332-429 | with one account and no KRW stock split a full match means the broker holds of every stock what the FIFO lots hold, and conversely |
| SplitLedger.ReplaysButFails | services/core/broker_snapshot.go:363-372 | a literal stored ledger, ten bought, split by two, fifteen sold, replays while the loop fails |
| JsonSurrogates.ValidSurrogates | services/core/paper_bundle.go:65-97 | the scanner accepts exactly the byte strings whose \u escapes are four hex digits forming well-formed UTF-16, an escaped backslash counting as one unit (sections 7 and 8.2 of RFC 8259) |
| JsonSurrogates.TextReads | services/core/paper_bundle.go:65-97 | any text spelled unit by unit, a byte, an escape or a code unit of four hex digits, is read back unit by unit |

## Left out

- HTTP handlers, command line, Keychain, the broker's network transport, tokens and request pacing: I/O plumbing; the broker's answers are arguments.
- Schema migration, backup and restore proofs, comparison of trigger texts: long lists of equality checks. The effect of the constraints and triggers on inserts is modelled.
- Instrument listings, owner FX and price series, benchmarks and valuations: simpler append-only journals that repeat the shapes proved here.
- SHA-256, HMAC and AES-GCM: digests, fingerprints and cursors stand for the values they are taken of, so collisions and forged cursors are outside the model.
- CSV decoding and header checks: an import file arrives as records already split into named columns; text case is folded for ASCII letters only.
- The fixed account and instrument mapping of `unresolved` is reduced to a predicate on the row; resolution candidates are not listed.
- Order quantities and prices are values of their canonical texts; syntax checks of identifiers and of provider references are reduced to non-empty texts.
- LedgerReplay.SnapshotFromPolicy: holdings, cash and realised profit are maps from their sort keys instead of sorted lists, and lots are values in a sequence, so aliasing of lot objects is not captured.
- PaperAccount.ApplyFill: an account is a value that the call replaces, where the original clones the object, works on the clone and copies it back.
- PaperLaws.ReplayPaper: a fill's session, signal and authorization are the ones given with its order; how those records are proved, and identifiers derived by digest, are not modelled. The order log and the stored fills are two arguments. Whether the paper tables authorize an event is an argument of the order store.
- SubmitProtocol.SentAtMostOnce: counts calls the service makes; what the broker does with a call whose answer is lost is outside the model, as it is for the service, which records SUBMIT_UNKNOWN.
- CandleBatch.ReadCandles: kiwoomNormalizeCandle and the request body are not modelled; a provider row arrives normalized or rejected.
- The decoding of paper bundles after the surrogate scan, and of other JSON: library behaviour.
