# The bookkeeping of kld, modelled and proved in Dafny

kld is a Lightning node built around the LDK and BDK libraries. Its own logic is bookkeeping: it parks an
API request until an event of the library answers it, it keeps SQL tables in step with those events, it
builds reports from the tables and from memory, and it prints and parses small texts. This project models
that logic and proves what it promises. The libraries, bitcoind and the database are the environment: what
they answer is a parameter of a step or of a method, and every answer is allowed unless stated here. A write to
the database commits, commits without its caller hearing so, or does not commit (`Database.Write`); a select is
answered, in any order of its rows, or fails.

Three kinds of model are used.

* Code that changes fields, maps or vectors step by step is a class or a method with loops, proved against
  functions and predicates over values (`Senders`, `Handler`, `MutablePayment`, `Sweeper`, `Table`, `List`,
  `Wallet`, `Prober`, and the listing and grouping methods).
* Code whose parts run concurrently is in addition a state machine over its steps, one step between two
  points where the program may be interrupted (`FundingProtocol`, `PaymentLedger`, `MonitorStore`,
  `SpendableOutputs`). Theorems quantify over every run: any number of calls, event arms and writes, in any
  interleaving, with failing writes, writes that commit after their process has stopped, clients that go away
  and process restarts.
* Expressions and parsers are functions over `seq<char>`, with the text operations of Rust's standard
  library defined in `Strings`.

Some properties the design suggests do not hold of the code. The code is modelled as it is, a lemma gives an
input or a run that fails, and the exact condition is proved:

* monitors of one channel are written by spawned tasks that may commit in the wrong order, so an acknowledged
  update can be overwritten by a monitor issued before it, whatever their update ids are:
  `MonitorStore.AcknowledgedUpdateLost`; exactly when it cannot: `MonitorStore.DurableExactlyWhenRaceFree`,
  `MonitorStore.SafeToIssue`;
* the 128-bit channel id is cut to 64 bits where a closed channel answers its request, so the closure of an
  inbound channel can answer a foreign request: `FundingProtocol.InboundClosureAnswersForeignRequest`; exactly
  when: `FundingProtocol.ClosureAliasing`;
* set_tx writes its details row before its raw row, so that a failure between the two leaves a details row
  alone, which the next select misses, the next set_tx doubles and del_tx cannot remove:
  `WalletDatabase.OrphanIsDoubledOnRetry`; an insert taken for lost that the database runs after the retry
  doubles the row as well: `WalletDatabase.LateInsertDoubles`; exactly when every row stays covered and single,
  over every run: `WalletDatabase.EveryRunKeepsInvExactly`;
* the update of a stored raw transaction binds its parameters the wrong way round and never takes effect:
  `WalletDatabase.SecondSerialisationIsNotStored`; exactly when that shows: `WalletDatabase.SetRawNeverReplaces`;
* printed actions do not always parse back: `Actions.LastBracketIsLost`; exactly which do:
  `Actions.RoundTripExactly`;
* printed keys do not always parse back: `KeyBinding.FunctionKeysAreRefused`,
  `KeySequences.BracketKeysCanBeMisread`; exactly which do: `KeyBinding.KeyRoundTrip`,
  `KeySequences.SequenceRoundTrip`, and for the help text `KeySequences.HelpIsReadableExactlyWhen`;
* the balance report wraps around: `Balances.ReportWrapsAround`; exactly when it does not:
  `Balances.ReportExactWhen`;
* the received amount of an invoice wraps around: `Invoices.AmountWrapsAround`; exactly when it does not:
  `Invoices.AmountExactWhen`;
* a channel in memory whose record has no detail is listed twice: `ListChannels.BareIsListedTwice`; exactly when
  no channel is: `ListChannels.ListedOnceExactlyWhen`.

Assumptions, each from the schema in `kld/src/database/sql` or from a library: an UPSERT keeps the columns it
does not list; payments are keyed by id, invoices by payment hash, channels by channel id, monitors by
outpoint, spendable outputs by transaction id and a signed 16-bit index; the two wallet tables have no key and
are lists of rows; the 256-bit random payment ids are new; a transaction id has 32 bytes and no serialised
transaction has. Nothing is assumed of the 63-bit random channel keys: two calls may draw the same.

## Model

| member | source | states |
|---|---|---|
| AsyncSenders.Senders.Insert | kld/src/ldk/controller.rs:592-596 | the new receiver is filed under k with an unused sender; an older sender under k is dropped |
| AsyncSenders.Senders.Get | kld/src/ldk/controller.rs:598-608 | takes the entry out of the table, leaving its sender unused, or finds nothing and changes nothing |
| AsyncSenders.Senders.Answer | kld/src/ldk/controller.rs:600-604 | the closure returned by get uses up exactly the sender it holds |
| AsyncSenders.Senders.Respond | kld/src/ldk/controller.rs:610-616 | get and answer in one, nothing when the key is absent |
| AsyncSenders.InsertKeepsOwned | kld/src/ldk/controller.rs:592-596 | every unused sender stays in exactly one place (the table under the key of its insert, or one event arm), whatever arms are running |
| AsyncSenders.TakeKeepsOwned | kld/src/ldk/controller.rs:598-608 | taking moves a sender from the table to one arm: never shared, never lost, no answer given |
| AsyncSenders.SendKeepsOwned | kld/src/ldk/controller.rs:600-604 | an arm that answers had an open sender; answering changes no other receiver |
| AsyncSenders.RespondKeepsOwned | kld/src/ldk/controller.rs:610-616 | the direct answer keeps the same ownership with arms in flight |
| AsyncSenders.RestartKeepsOwned | kld/src/ldk/controller.rs:581-596 | a restart loses every unused sender and keeps every answer given |
| EventHandler.Handler.FundingGenerationReady | kld/src/ldk/event_handler.rs:80-136 | on each of the three exits after the request is found its receiver gets exactly one reply, the one of that exit, and no other receiver is touched; without a request nothing changes |
| EventHandler.Handler.ChannelClosedArm | kld/src/ldk/event_handler.rs:215-232 | the request is answered once with the closure even when the table update then fails |
| EventHandler.Handler.PaymentSent | kld/src/ldk/event_handler.rs:334-369 | the parked payment is answered once, with hash, preimage and fee of the event and all else unchanged; an error leaves the table alone |
| EventHandler.Handler.PaymentFailed | kld/src/ldk/event_handler.rs:418-442 | the parked payment is answered once, with the status of the reason and all else unchanged |
| FundingProtocol.StepKeepsInv | kld/src/ldk/event_handler.rs:80-136 | each step of calls and arms keeps ownership of senders and that good answers are accepted transactions |
| FundingProtocol.AnsweredOnceForEver | kld/src/ldk/controller.rs:581-617 | in every run a receiver that has its answer keeps that answer, under the key of its own insert |
| FundingProtocol.TakenIsAnswered | kld/src/ldk/event_handler.rs:80-136 | in every run an arm lets go of a request only by answering its receiver, which was unanswered before, unless the process stops |
| FundingProtocol.UnansweredIsReachable | kld/src/ldk/controller.rs:581-617 | a receiver is unanswered if and only if its sender is in the table or with one arm, and never both |
| FundingProtocol.ReturnedTransactionWasAccepted | kld/src/ldk/controller.rs:162-214 | every transaction open_channel returns was accepted for a channel whose id carries the key of that call |
| FundingProtocol.ReturnedExactlyWhen | kld/src/ldk/controller.rs:162-214 | in every run open_channel has returned a transaction under a key if and only if an earlier step handed a call that good answer of a receiver made under that key |
| FundingProtocol.CallGoesThrough | kld/src/ldk/controller.rs:162-214 | from any state a call that is parked, taken, accepted and answered without disturbance returns just the accepted transaction under its own key |
| FundingProtocol.UninterruptedArm | kld/src/ldk/event_handler.rs:80-136 | the arm's steps run in sequence have the effect stated for the method, on each exit |
| FundingProtocol.ClosureAliasing | kld/src/ldk/event_handler.rs:215-232 | a closure leaves all requests filed under other ids alone if and only if its id is below 2^64 or its low half is not parked |
| FundingProtocol.InboundClosureAnswersForeignRequest | kld/src/ldk/event_handler.rs:215-232 | a concrete closure that answers a request filed under another id |
| Payments.MutablePayment.Succeed | kld/src/database/payment.rs:191-201 | status, hash, preimage and fee become those of the event; id, secret, label, amount, direction, time and invoice stay |
| Payments.MutablePayment.Fail | kld/src/database/payment.rs:203-214 | only the status changes, to the one status that each named reason has, and to an error for an unexpected reason or none |
| Payments.FailureStatusIsTerminal | kld/src/database/payment.rs:203-214 | each of the five named reasons has its own status and all other failures are errors, never pending and never a success |
| PaymentLedger.StepKeepsInv | kld/src/ldk/controller.rs:427-518 | each step of calls, arms, writes and restarts keeps the relation between calls, requests, rows and answers |
| PaymentLedger.OutboundRowsStartPending | kld/src/ldk/controller.rs:427-516 | in every run an outbound row that was not there before is pending, with no preimage and no fee |
| PaymentLedger.PaymentIsAsAsked | kld/src/ldk/controller.rs:427-516 | in every run: before a call nothing is known under its id; from then on the call, the row and the answer under it have the amount, secret, label and time of that call, no secret and no label for a keysend, the call's hash until a success brings the event's, and (call and answer) the text of its invoice |
| PaymentLedger.AmountlessIsNeverPaid | kld/src/ldk/controller.rs:427-435 | in every run an invoice without an amount leaves no call, no row and no answer |
| PaymentLedger.RowIsAsClaimed | kld/src/ldk/event_handler.rs:303-333 | in every run a received payment is in the table from its event on, with exactly the columns the event told, if and only if its write took effect, and is unknown before |
| PaymentLedger.RowHasOrigin | kld/src/database/payment.rs:118-189 | in every run each outbound row shows what some earlier call asked for, and each other row what some earlier claim told |
| PaymentLedger.WrittenExactlyWhen | kld/src/ldk/controller.rs:447-458 | in every run the row of a call is there if and only if its pending write has taken effect, at once or late, and is settled if and only if its final write has |
| PaymentLedger.ReturnedExactlyWhen | kld/src/ldk/controller.rs:447-458 | in every run a call has returned if and only if its final write was heard to commit |
| PaymentLedger.ReceivedIsReturned | kld/src/ldk/controller.rs:447-458 | in every run a call that has received a good answer stores and returns that payment and no other |
| PaymentLedger.PaymentGoesThrough | kld/src/ldk/controller.rs:427-516 | from any state a call whose steps succeed and whose event arrives returns the payment asked for, settled as that event says |
| PaymentLedger.CutCallsMayStillWrite | kld/src/ldk/controller.rs:447-458 | a dropped or stopped call changes no row, but a write it has sent may be run later and then stores what the call would have stored |
| PaymentLedger.RowLifeCycle | kld/src/database/ldk_database.rs:611-644 | between any two moments of any run a row stays and is unchanged, or was pending and outbound and one delivered event for its id settled it, leaving id, amount, secret, label, direction and time |
| PaymentLedger.TerminalRowsNeverChange | kld/src/database/ldk_database.rs:611-644 | a terminal status is never left, nor an inbound row changed |
| PaymentLedger.SettledRowsHaveEvents | kld/src/ldk/event_handler.rs:334-369 | an outbound row says succeeded only after a delivered PaymentSent for its id, with that hash and preimage; another terminal status only after a failure |
| PaymentLedger.ReturnedPaymentIsStored | kld/src/ldk/controller.rs:427-459 | a payment returned to a client is in the table, settled, from then on |
| PaymentLedger.AnswerIsForThatCall | kld/src/ldk/controller.rs:461-516 | the answer a call receives is its own payment, settled, and never replaced |
| MonitorStore.AcknowledgedOnceAfterCommit | kld/src/database/ldk_database.rs:1000-1051 | in every run, with commits nobody hears of and restarts, an update is acknowledged at most once and only after its own task heard its write commit; each row is the monitor of the last committed write for that outpoint |
| MonitorStore.TasksAreAsIssued | kld/src/database/ldk_database.rs:1000-1051 | in every run each write handed over is one task that keeps its outpoint, monitor and update id to the end, so that what is acknowledged is the update id it was handed over with; it is acknowledged if and only if its acknowledgement has happened |
| MonitorStore.NoneAfterStop | kld/src/database/ldk_database.rs:1019-1050 | in every run a task acknowledges nothing after a stop of its process |
| MonitorStore.OrderedCommitsKeepLatest | kld/src/database/ldk_database.rs:1025-1050 | when the writes of each outpoint commit in issue order, a row is never older than any committed write, heard or not |
| MonitorStore.DurableExactlyWhenRaceFree | kld/src/database/ldk_database.rs:1025-1050 | every schedule, with failures, unheard commits and stops, keeps every committed update in the table if and only if no pending write would put a monitor issued earlier over one issued later that did not fail; update ids play no part |
| MonitorStore.RaceFreeMeansNoRace | kld/src/database/ldk_database.rs:1025-1050 | when no monitor is written twice that is: no pending write has a later one of its outpoint beside it that did not fail |
| MonitorStore.SafeToIssue | kld/src/database/ldk_database.rs:1053-1061 | handing over a further monitor keeps that for every schedule if and only if no write of another monitor of that outpoint is pending |
| MonitorStore.InTurnIsDurable | kld/src/database/ldk_database.rs:1000-1061 | over every run in which monitors are handed over so, no committed update is ever hidden |
| MonitorStore.AcknowledgedUpdateLost | kld/src/database/ldk_database.rs:1025-1050 | for any two different monitors, of equal update ids or not, a run after which the second is acknowledged and the row holds the first |
| SpendableOutputs.Sweeper.Handle | kld/src/ldk/event_handler.rs:571-606 | a row becomes spent only if the arm reached its broadcast and that covered the output; other rows stay; a committed write of the last round leaves its status, value and descriptor, and the event's channel id or else the one the row had; the whole is what the arm's script of steps does |
| SpendableOutputs.ScriptRuns | kld/src/ldk/event_handler.rs:571-606 | two rounds of writes with the broadcast between them do what the script that the state machine runs does, write by write |
| SpendableOutputs.RoundTouches | kld/src/database/ldk_database.rs:416-447 | a round of writes touches only rows of its outputs, removes none, and changes a channel id only to the one the event brings |
| SpendableOutputs.ScriptGuarded | kld/src/ldk/event_handler.rs:571-606 | whichever steps fail, every "spent" write of an arm comes after the broadcast of its output |
| SpendableOutputs.SpentImpliesBroadcast | kld/src/ldk/event_handler.rs:571-606 | in every run of any number of arms a row marked spent was an input of an earlier broadcast |
| ChannelTable.Table.CreateChannel | kld/src/database/ldk_database.rs:236-260 | a bare unusable row when the write takes effect; an error when the id has a row or the commit is not heard |
| ChannelTable.Table.PersistChannel | kld/src/database/ldk_database.rs:262-314 | when the write takes effect listed columns are overwritten and open time, closure reason and, without one in the detail, the short id stay; no change otherwise |
| ChannelTable.Table.CloseChannel | kld/src/database/ldk_database.rs:316-335 | when the write takes effect the row becomes unusable with the reason, its blob unchanged; no row is made |
| ChannelTable.Table.FetchChannelHistory | kld/src/database/ldk_database.rs:337-373 | the detailed unusable rows in scan order, shown as not usable; fails exactly when the select fails or the blob of an unusable row does not decode |
| ChannelTable.Table.FetchChannels | kld/src/database/ldk_database.rs:375-414 | every row in scan order, its detail corrected by the column; fails exactly when the select fails or a blob or key does not decode |
| ChannelTable.Table.OpenChannelCount | kld/src/database/mod.rs:73-81 | the number of usable rows, whatever the scan order |
| ChannelTable.OnChannelPending | kld/src/ldk/event_handler.rs:137-171 | persists the listed detail, else creates a bare row; says whether that was heard to commit; an early failure changes nothing |
| ChannelTable.OnChannelReady | kld/src/ldk/event_handler.rs:172-214 | persists the listed detail, else closes the row; says whether that was heard to commit |
| ChannelTable.ReachableKeepsInv | kld/src/database/ldk_database.rs:236-335 | in every reachable table a row without detail is not usable and a stored blob is of its own channel and peer |
| ChannelTable.HistoryIsRetiredView | kld/src/database/ldk_database.rs:337-414 | in every reachable table the history is exactly what the full listing shows with a detail that is not usable, in the same order |
| ChannelTable.HistoryInOrder | kld/src/database/ldk_database.rs:337-373 | the history follows the order of the scan |
| ChannelTable.ViewsPartitionTheTable | kld/src/database/mod.rs:73-81 | usable count + history + rows without detail = full listing = number of rows |
| ChannelTable.ClosingMovesToHistory | kld/src/database/ldk_database.rs:316-373 | closing a usable channel moves it from the count to the history though the blob is not rewritten; closing any other changes neither |
| ListChannels.List | kld/src/api/channels.rs:40-216 | one item per stored record in order, then one per channel left in memory in order, also when the table cannot be read |
| ListChannels.MergeIsExact | kld/src/api/channels.rs:54-76 | with unique ids a detailed record is matched if and only if its channel is in memory; what is left is exactly the channels no detailed record carries, in order |
| ListChannels.StoredItemMeaning | kld/src/api/channels.rs:62-138 | has_monitor holds if and only if the channel was in memory; the live fields and names are those of memory if it was and of the table if not; the configuration is the table's or else the default; times and reason are the record's |
| ListChannels.MissingItemMeaning | kld/src/api/channels.rs:154-214 | a channel only in memory is listed with its own live fields and names, its configuration or the default, a monitor, no times and the reason of an invalid record |
| ListChannels.BareItemMeaning | kld/src/api/channels.rs:139-153 | a record without detail is listed with its own names, times and reason, default fields and no monitor |
| ListChannels.LengthLaw | kld/src/api/channels.rs:54-214 | left over + matched = in memory, with or without unique ids |
| ListChannels.NothingIsLost | kld/src/api/channels.rs:54-214 | every channel in memory is listed with a monitor |
| ListChannels.ListedOnceExactlyWhen | kld/src/api/channels.rs:54-214 | with unique ids on each side no id is listed twice if and only if no record without detail is about a channel in memory |
| ListChannels.BareIsListedTwice | kld/src/api/channels.rs:139-153 | a channel in memory whose record has no detail is listed twice |
| ChannelFees.GroupByPeer | kld/src/api/channels.rs:343-351 | one group per counterparty, holding its channels in their order |
| ChannelFees.OfInOrder | kld/src/api/channels.rs:343-351 | a group lists its channels in the order in which they were listed |
| ChannelFees.SetAll | kld/src/api/channels.rs:352-366 | one accepted call per peer done, each with the base and the rate that the request names and the configured ones where it names none, and the same in every entry of the answer; success means every peer was, a refusal names the peer where it stopped |
| ChannelFees.CallsArePerPeer | kld/src/ldk/controller.rs:259-280 | each call names all channels of its one peer and no other, with the fee of the request |
| ChannelFees.EveryChannelOnce | kld/src/api/channels.rs:343-366 | the answer names every active channel exactly once under its own peer, all with one fee |
| Balances.LocalRemoteBalance | kld/src/api/channels.rs:470-493 | the loop with u64 wrap-around reports the wrapped exact totals in satoshis |
| Balances.EachTotal | kld/src/api/channels.rs:477-485 | each total by itself is the sum of balances over the channels of its kind: usable, ready but not usable, neither; remote is 1000 times the usable value less the usable balances |
| Balances.EachFigure | kld/src/api/channels.rs:486-492 | each reported figure by itself is that sum, wrapped to 64 bits, in whole satoshis |
| Balances.FilterKeeps | kld/src/api/channels.rs:477-485 | the list of a kind holds each channel of that kind as often as the whole list, and no other |
| Balances.TotalsConserve | kld/src/api/channels.rs:477-485 | local + inactive + pending is the sum of all balances; local + remote is 1000 times the usable value |
| Balances.ReportExactWhen | kld/src/api/channels.rs:477-492 | the four reported figures are those of the exact totals if and only if all four totals are 64-bit numbers |
| Balances.ReportWrapsAround | kld/src/api/channels.rs:477-492 | one usable channel with a balance above its value makes the remote figure wrap around |
| Balances.ReportedSidesAddUp | kld/src/api/channels.rs:487-492 | with balances within channel values nothing wraps, and the two sides add up to the usable value, less one when local is not a whole number of satoshis |
| Invoices.Fold | kld/src/database/ldk_database.rs:543-609 | the map has one entry per hash with the payments its rows bring, in row order; it succeeds if and only if every hash, id, preimage and secret has 32 bytes and the first row of each hash has a readable invoice |
| Invoices.FetchInvoices | kld/src/database/ldk_database.rs:543-609 | the same as a list, no hash twice |
| Invoices.PaymentsInOrder | kld/src/database/ldk_database.rs:573-581 | the payments of an invoice come in the order of the rows that bring them |
| Invoices.ListingIsExact | kld/src/database/ldk_database.rs:543-609 | for every order of the join's rows each selected invoice appears once with exactly the stored payments of its hash |
| Invoices.AmountsReceived | kld/src/api/invoices.rs:75-103 | the u64 fold shows the wrapped sum of the invoice's payments, none when that is zero |
| Invoices.AmountExactWhen | kld/src/api/invoices.rs:81-103 | the amount shown is the amount received if and only if that is a 64-bit number |
| Invoices.AmountWrapsAround | kld/src/api/invoices.rs:81-103 | two payments that add up to 2^64 are shown as nothing received |
| Invoices.ReceivedIsConserved | kld/src/api/invoices.rs:81-84 | received amounts over all invoices add up to the amounts of all payments with a selected hash |
| WalletDatabase.Wallet.SetTx | kld/src/database/wallet_database.rs:630-645 | both tables and the result after set_tx, for every outcome of each of its four statements |
| WalletDatabase.Wallet.SetRawTx | kld/src/database/wallet_database.rs:617-628 | inserts an unknown transaction, runs the misbound update on a known one, for every outcome of its statements |
| WalletDatabase.Wallet.DelTx | kld/src/database/wallet_database.rs:706-722 | returns what was selected and deletes only when something was, the details row before the raw row, for every outcome |
| WalletDatabase.Wallet.DelRawTx | kld/src/database/wallet_database.rs:696-704 | removes the raw row that was selected, for every outcome |
| WalletDatabase.Wallet.GetTx | kld/src/database/wallet_database.rs:829-839 | what one of the joined rows of the transaction says, without the transaction when that is not asked for |
| WalletDatabase.Wallet.IterTxs | kld/src/database/wallet_database.rs:789-794 | the rows of the joined or the plain read in any order, what each entry says being the subject of JoinedReadMeans and PlainReadMeans; the joined read fails when a raw row that the join returns does not decode |
| WalletDatabase.JoinedReadMeans | kld/src/database/wallet_database.rs:352-395 | from any tables an entry is in the joined read if and only if it has the stored transaction and, field by field, the values of some details row and raw row of one txid; so every entry has a transaction |
| WalletDatabase.PlainReadMeans | kld/src/database/wallet_database.rs:397-432 | from any tables an entry is in the plain read if and only if it has the values of some details row and no transaction; there are as many as rows |
| WalletDatabase.IterListsWhatGetReturns | kld/src/database/wallet_database.rs:789-839 | while every row is covered and single, iter_txs with transactions lists for each txid exactly what get_tx returns for it, and nothing twice |
| WalletTables.JoinNeedsBoth | kld/src/database/wallet_database.rs:434-479 | the select by id finds nothing if and only if the transaction has no details row or no raw row |
| WalletDatabase.SetRawNeverReplaces | kld/src/database/wallet_database.rs:103-110 | a stored raw transaction is never replaced; the one reported as set is the one stored if and only if no other serialisation was there |
| WalletDatabase.SecondSerialisationIsNotStored | kld/src/database/wallet_database.rs:617-628 | a run in which the second serialisation of a transaction is reported as set and is not stored |
| WalletDatabase.SetTxKeepsInvExactly | kld/src/database/wallet_database.rs:630-645 | set_tx never makes a details row double, and keeps every details row covered if and only if it is not cut short after the insert of a new one |
| WalletDatabase.DelTxKeepsInv | kld/src/database/wallet_database.rs:706-722 | whatever fails, del_tx leaves no details row alone; when it succeeds exactly that transaction's details rows are gone |
| WalletDatabase.DelTxReturnsAndRemoves | kld/src/database/wallet_database.rs:706-722 | from any tables a del_tx that succeeds returns what get_tx would have, and just the rows of that transaction are gone: the details rows if it found it, the raw rows if it was asked to as well |
| WalletDatabase.DelRawTxReturnsAndRemoves | kld/src/database/wallet_database.rs:696-704 | from any tables a del_raw_tx that succeeds returns what was selected, and just the raw rows of that transaction are gone |
| WalletDatabase.DelRawTxKeepsInvExactly | kld/src/database/wallet_database.rs:696-704 | del_raw_tx keeps every details row covered if and only if it removes no raw row from under one |
| WalletDatabase.OperationKeepsInvExactly | kld/src/database/wallet_database.rs:617-722 | the same for any operation: covered and not double if and only if it leaves no orphan, a condition on the tables before and the outcomes |
| WalletDatabase.LateWriteKeepsInvExactly | kld/src/database/wallet_database.rs:14-28 | a write that the database runs after its operation ended keeps rows covered and single if and only if it does not come too late, a condition on the tables it meets |
| WalletDatabase.EveryRunKeepsInvExactly | kld/src/database/wallet_database.rs:617-722 | over every run with whatever failures and late writes: all states keep every details row covered and none double if and only if no operation leaves an orphan and no late write comes too late |
| WalletDatabase.ReadsAgree | kld/src/database/wallet_database.rs:352-432 | while every row is covered both reads succeed and return the same transactions and other fields, as multisets, for any row order of each |
| WalletDatabase.ReadsAgreeInRuns | kld/src/database/wallet_database.rs:352-432 | the same after every run, with failures and late writes, in which no step did such harm |
| WalletDatabase.SetThenGet | kld/src/database/wallet_database.rs:829-839 | after a set_tx that reported success every answered select returns it field by field, with the serialisation stored first |
| WalletDatabase.SetThenIter | kld/src/database/wallet_database.rs:789-794 | after a set_tx that reported success the joined read has exactly one entry for it, with every field as set and the serialisation stored first |
| WalletDatabase.SetTxDuplicatesExactlyOrphans | kld/src/database/wallet_database.rs:630-645 | from any tables a successful set_tx adds a second details row if and only if the first has no raw row |
| WalletDatabase.OrphansCannotBeDeleted | kld/src/database/wallet_database.rs:706-722 | a details row without raw row is not deleted by del_tx, whatever the outcomes |
| WalletDatabase.OrphanIsDoubledOnRetry | kld/src/database/wallet_database.rs:630-645 | a run in which the raw insert fails, the deletion finds nothing and the retry inserts a second details row |
| WalletDatabase.LateInsertDoubles | kld/src/database/wallet_database.rs:630-645 | a run in which an insert taken for lost runs after the retry and doubles the details row |
| WalletDatabase.ReadsAgreeExactlyWhen | kld/src/database/wallet_database.rs:352-432 | from any tables the two reads list a transaction equally often if and only if it has no details row or one raw row |
| Probe.Prober.FindBadHop | kld/src/ldk/controller.rs:1289-1313 | the retry loop ends within the hop count, with ever shorter prefixes, at the first one accepted or at one hop, and reports accordingly |
| Probe.Prober.ProbePath | kld/src/ldk/controller.rs:1264-1316 | one counter of success and failure per path, and one report at most |
| Probe.Prober.ProbeRoute | kld/src/ldk/controller.rs:1263-1317 | every path is probed in turn, the whole path first and shorter prefixes of it only while they are rejected; total = successful + failed |
| Probe.BlameIsWhereItBreaks | kld/src/ldk/controller.rs:1299-1310 | the reported path is a prefix ending in the blamed channel, with the blinded tail of the path, accepted without that hop, and rejected with it and at every greater length |
| CmdList.List.NavUp | tui/src/components/command/list.rs:63-75 | ends on the first command met going up round the list |
| CmdList.List.NavDown | tui/src/components/command/list.rs:76-88 | ends on the first command met going down round the list |
| CmdList.MovesAreInverse | tui/src/components/command/list.rs:63-88 | between commands, down leads from i to j if and only if up leads from j to i |
| CmdList.DownIsTheCycle | tui/src/components/command/list.rs:76-88 | down leads from each command to the next of the list and from the last to the first |
| CmdList.FullTurn | tui/src/components/command/list.rs:76-88 | as many moves down as commands visit each exactly once and return to the start |
| KeyBinding.StripModifiers | tui/src/keybinding.rs:101-124 | the loop ends and yields the rest and the set of modifiers stripped |
| KeyBinding.PrintKeyEvent | tui/src/keybinding.rs:176-237 | the printed text is the named prefixes in the order ctrl, shift, alt and the text of the key |
| KeyBinding.PrefixesCommute | tui/src/keybinding.rs:95-124 | prefixes may be reordered, repeated and re-cased in front of any text without changing what is parsed |
| KeyBinding.TextIsKeyExactlyWhen | tui/src/keybinding.rs:95-174 | the whole table: any text is read as a key if and only if it is modifier prefixes in front of a name of that key, or of the one ASCII character it is, in any case; the modifiers are those of the prefixes, with Shift for backtab and in upper case under Shift |
| KeyBinding.FunctionKeysAreRead | tui/src/keybinding.rs:126-174 | behind any prefixes "f" and a number is that function key if and only if the number is from 1 to 12 |
| KeyBinding.KeyRoundTrip | tui/src/keybinding.rs:126-237 | a printed key parses back to itself if and only if it is canonical, for every key and modifier set |
| KeyBinding.FunctionKeysAreRefused | tui/src/keybinding.rs:176-237 | the text of a function key is printed with its number in brackets behind the prefixes, and refused |
| KeySequences.BracketsAreUndone | tui/src/keybinding.rs:239-263 | the sequence parser parses any non-empty list of bracketed texts without brackets of their own one by one |
| KeySequences.PlainTextIsOneKey | tui/src/keybinding.rs:239-263 | a text without brackets is parsed as one key |
| KeySequences.SequenceRoundTrip | tui/src/keybinding.rs:239-263 | any printed list of keys parses back to itself if and only if it is non-empty, all keys are canonical, "<" and ">" keys are equally many, no key after the first is a bare "<" and none between first and last is a ">" |
| KeySequences.UnevenBracketKeysAreRefused | tui/src/keybinding.rs:239-242 | a list with more of one bracket key than of the other is always refused |
| KeySequences.BracketKeysCanBeMisread | tui/src/keybinding.rs:239-263 | the keys ">" and "<", printed and parsed, come back as ">" and ">" |
| KeySequences.BracketKeysCanBeRead | tui/src/keybinding.rs:239-263 | the keys "<" and ">" come back |
| KeySequences.EmptySequenceIsRefused | tui/src/keybinding.rs:239-263 | the empty list does not come back |
| KeySequences.PrintHelp | tui/src/keybinding.rs:57-71 | the help text is each key in brackets with its modifier names in front of its prefixes |
| KeySequences.HelpNames | tui/src/keybinding.rs:57-71 | in front of a key's own text stand the names of exactly its modifiers, in the library's order |
| KeySequences.HelpIsReadableExactlyWhen | tui/src/keybinding.rs:57-71 | the help text of any list parses back to it if and only if the list itself would and no key has a modifier |
| KeySequences.ReadableWithoutModifiers | tui/src/keybinding.rs:239-263 | without modifiers that means no bracket key at all, or "<" first, ">" last and none between |
| FeeRates.RoundTrip | kld/src/api/payloads.rs:167-180 | every fee rate, with every 32-bit rate, parses back from its text |
| FeeRates.TextsExactly | kld/src/api/payloads.rs:222-247 | any text is read as a fee rate if and only if it is its name, or a spelling of its number (a plus or none, zeros, digits) followed by its unit once or more |
| FeeRates.RefusalsExactly | kld/src/api/payloads.rs:222-247 | which of the three errors a text gets: that of the unit it ends with, the unknown one if it ends with neither |
| Strings.NumberExactlyWhen | kld/src/api/payloads.rs:231-241 | a text is parsed as n if and only if n is in range and the text is a plus or none, any zeros, and n in decimal |
| Actions.RoundTripExactly | tui/src/action.rs:37-65 | an action parses back from its text if and only if it is a listed unit, a resize, or an error whose message neither starts with "Error(" nor ends with ")" |
| Actions.PrintedInBrackets | tui/src/action.rs:37-65 | the actions with contents are printed with them in brackets behind the name |
| Actions.LastBracketIsLost | tui/src/action.rs:102-105 | an error message that ends with a bracket comes back without it |
| Actions.ParsedIsNameable | tui/src/action.rs:81-121 | parsing, printing and parsing again gives what the first parse gave, for every accepted text |
| Actions.TextsExactly | tui/src/action.rs:81-121 | any text is read as an action if and only if it is the text of that unit, or an error message that neither starts with "Error(" nor ends with ")" in one or more "Error(" and any ")", or two spelt 16-bit numbers with a comma between and white space around in one or more "Resize(" and any ")" |
| Scid.PackUnpack | kld/src/ldk/channel_utils.rs:9-22 | the three fields are in range, no cast loses a bit, and they make up the id |
| Scid.UnpackPack | kld/src/ldk/channel_utils.rs:9-22 | every position in range is read back from its id |
| Scid.ResolvesItsPosition | kld/src/bitcoind/utxo_lookup.rs:49-91 | on its own chain get_utxo finds an output if and only if it is at the position that packs to the id |
| Scid.FoundWhereItIs | kld/src/bitcoind/utxo_lookup.rs:49-91 | on a chain with an output behind so many blocks, transactions and outputs, the id of these three counts finds that output |
| Scid.ErrorsAreTold | kld/src/bitcoind/utxo_lookup.rs:49-91 | UnknownChain exactly for another chain, UnknownTx exactly when no output is there |
| Scid.DistinctIdsDistinctPositions | kld/src/ldk/channel_utils.rs:9-22 | different ids name different positions |

## Left out

- Liveness: a payment or a funding event that arrives before its request is parked finds no entry, and the call then waits for ever; beyond safety only calls that nothing disturbs are shown to return.
- The initializing_channels table: a row is written after the reply arrives, so updates may find none; its outcome is a parameter where a later step depends on it.
- The effect of the write of initializing_channels at the end of the funding arm and of open_channel: its failure is logged and changes nothing.
- The payments table's bolt11 column and its join with invoices; inbound spontaneous payments stay pending and are not updated by the code.
- PaymentLedger.RowLifeCycle: takes payment ids as new; they are 256 random bits.
- The contents of error messages, logs and metrics other than the three probe counters.
- Balances.ReportedSidesAddUp: needs the sums to fit in 64 bits; beyond that ReportExactWhen applies. An unoptimised build stops with an error where the sums leave their range.
- Amounts, timestamps and heights outside Balances, Invoices.AmountsReceived, FeeRates, Actions and Scid are unbounded numbers; their casts to and from 64-bit columns are not modelled.
- The order in which the database returns rows and in which a hash map is walked is any order, given as a parameter or left open.
- The single-channel branch of set_channel_fee, and the refresh of records that list_channels starts when the table cannot be read.
- The paid, unpaid or expired status of invoices (a clock comparison) and the other columns of the listing.
- Invoices.Fold: on failure only says that some row could not be read, not which; the select before it is taken as answered.
- The batch operations, script, utxo and index tables of the wallet database; amounts that do not fit their columns.
- The outcome of a wallet operation inside a batch: the statements are taken to commit one by one.
- CmdList.List.NavUp: needs a command on a displayed list; without one the source's loop has no end.
- CmdList.List.NavDown: needs a command on a displayed list; without one the source's loop has no end.
- The kind and state of key events, and the terminal library's equality of key events up to case; equality here is of code and modifiers.
- Texts of commands, times and key events inside actions are parameters; none of them is parsed.
- Shifts and masks are written as division and remainder by powers of two.
- The LDK, BDK and liquidity libraries, bitcoind, HTTP handlers, the command line client, deployment tooling, key derivation, macaroons, peer connections and drawing.
- Payments are values in the request table and a mutable object only inside an event arm, as in the source, where an arm owns its copy.
