# Signal Foundry: verified models of its protocols and replays

This project models, in Dafny, the parts of the Signal Foundry repository whose correctness spans
many functions, runs or processes, and proves what they are there to guarantee.

| files | what they model |
|---|---|
| `paper_models`, `paper_protocol`, `paper_safety`, `paper_theorems` | the paper order protocol as a step relation, against an adversarial broker, lost and late POSTs, crashes and emergency stops |
| `paper_inputs`, `cycle_laws`, `paper_engine` | the operator as an object (`PaperEngine.Engine`) performing those steps: what it is told, what its checks and choices mean, and what it then does |
| `journal_chain`, `journal_text`, `journal`, `journaled_book` | the event log, its hash chain, the state table that replays it, the request budget, and the operator's book as that table |
| `replay`, `replay_rule`, `replay_theorems`, `replay_costs`, `replay_intervals`, `replay_selection`, `selection_laws`, `live_replay` | the live rule, the intraday replay and its costs, the block bootstrap, candidate selection before the split, and the live decision against the replay |
| `job_store`, `scheduler`, `scheduler_safety`, `scheduler_theorems`, `scheduler_history`, `manager` | the research job store and the single-worker scheduler, as a step relation and as the objects that perform its steps |
| `workflow`, `workflow_laws` | the browser's submission machine composed with the store's idempotency over a lossy connection |
| `scenarios` | concrete runs that show the bounds and conditions above to be tight |
| `lock_graph`, `lock_laws` | the dependency worklist over a lock file and the check of an exported requirements file |
| `json_walk` | the explicit-stack budget walks over parsed JSON |

`dafny verify dfyconfig.toml` checks everything.

## How the paper protocol is modelled

A `World` is the journal's state table, the broker's orders, the POSTs still in transit and the
operator's program counter. An action is one SQL transaction, one network exchange, one move of the
broker or one stop from another process, so a run is any interleaving of them; `Abort` is a refusal or
a crash at any point. `posts` and `late` are history. Safety is stated over the broker's own books
(`TruePosition`, `TrueCash`), not over what the journal believes.

Assumed of the broker, and of nothing else: it executes the order it was sent; cumulative fills never
shrink and never exceed the quantity; a buy fills at or below its limit; a finished order is frozen; the
average price times the filled quantity is the exact notional; a finished state in an answer is the
order's state. Other answers may be stale or missing, a POST may be lost or arrive at any later time,
and account snapshots are arbitrary: reconciliation has to catch them.

`state == "ready"` does not say that every row has been observed: the row and the state are separate
transactions (signal_foundry/trading/engine.py:379-380) and a crash may fall between them.
`PaperScenarios.ReadyDoesNotMeanObserved` is such a run. What it does say, in every run, is that every order
ever POSTed has been observed: `PaperTheorems.ReadyMeansPostsAreObserved` proves that a row of a ready book
has its order if and only if it was POSTed, and that any other row is the intent just journaled or one that
can never be sent any more. Likewise the docstring of `Journal.stop`
promises an idempotent stop but not that nothing leaves afterwards: one POST can, when the stop commits
after the transport's last check, and `PaperScenarios.OneLatePostIsPossible` is that run;
`PaperTheorems.AtMostOneLatePost` proves that there is never a second.

`PaperEngine.Engine` is written as the source is, key by key. Any read of the broker may raise and any
journal transaction may fail to commit, and the contracts say what each of these leaves behind. Its ghost
fields record the protocol run it performs, so `LeavesTheBrokerSafe` carries every run theorem over to it.
`trusted` says whether every answer so far met the assumptions above, and every method says when it stays
true: if the answers of a reconciliation are honest when it begins, and, in a cycle whose POST is answered, if
that answer and those of the second reconciliation are honest given the orders the broker has by then
(`PaperInputs.AtAnswer`, computed from the broker's own moves). The contracts about the book do not depend on
it. `JournaledBook` ties the book to the journal: every run is a sequence of transactions, one key or the stop
at a time, that leaves an accepted chain, a table that replays it, and the operator's book in that table.

## Where the scheduler strays

`Manager.cancel` marks its job, by setting the worker's event or by cutting the queue
(signal_foundry/manager.py:89-92), before its transaction (manager.py:93). When that transaction rolls back
(signal_foundry/store.py:156-170) the mark stays and the row does not change. The docstring of
`Manager.cancel` only speaks of a cancellation that returned. `Manager.close` may raise midway for the same
reason, with `_closed` already set, and the fault sweep may lose the store
(manager.py:138-147). The model has all of these steps and remembers the jobs concerned since the last
restart, so the theorems state the exact condition: an unfinished job can be cancelled if and only if it is
the active one, or no cancellation of it has rolled back and no dying worker has let go of it
(`CancelFindsItsJob`). Without rolled-back cancellations the only gap is `Lost`: the worker has died,
`_active` is cleared (manager.py:171-174) and the fault is not yet recorded (manager.py:133-134). The runs in
`SchedulerScenarios` reach each of these states.

## What the browser submits

The browser holds its submission in the page (apps/nexus/src/useWorkstation.ts:14), so a reload forgets an
open submission and its key; `Reload` is an action, and the theorems about keys say what it costs. The catalog sets the draft without telling the
state machine (useWorkstation.ts:36, where an edit dispatches at :97). So the preflight in hand is of the
draft the user sees unless the catalog arrived under it: `WorkflowLaws.StepInHand` proves that this is the
only exception, and `WorkflowLaws.LateCatalogKeepsThePreflight` is such a run.

The event chain's hash is not assumed injective: two logs with one head digest are equal, or two texts of
these very logs have one digest, or one of them hashes to the all-zero root. Two identifications elsewhere do
assume it: a job's identity is the pair of its key and request digests (signal_foundry/store.py hashes both
into one text), and a browser request is its own digest. Decimals and replay results are exact reals.

## Model

| member | source | states |
|---|---|---|
| `PaperTheorems.PositionStaysWithinTarget` | signal_foundry/trading/engine.py:157-399 | In every run, the broker's true net position in every symbol stays between zero and the configured quantity: no short, no over-position. |
| `PaperTheorems.CashStaysAboveFloor` | signal_foundry/trading/engine.py:205-236 | In every run, baseline cash less everything the broker really filled never falls below the baseline or one cent under zero, whichever is lower. |
| `PaperTheorems.OneWorkingOrder` | signal_foundry/trading/engine.py:299-306 | At most one order can still fill, at the broker or on its way there, and the journal holds it as an open row. |
| `PaperTheorems.AtMostOnePostPerIntent` | signal_foundry/trading/engine.py:357-399 | No id is ever POSTed twice, every POST was journaled before, and rows stay within `max_orders`, so the 1,000-row guard is never reached. |
| `PaperTheorems.SizingSeesTheTruth` | signal_foundry/trading/engine.py:247-318 | Whenever an order is being sized, nothing can fill any more and the account in hand equals the broker's true position, and its cash to a cent. |
| `PaperTheorems.ReconciliationCountsEachFillOnce` | signal_foundry/trading/engine.py:157-209 | However often reconciliation runs, its totals are the baseline plus each row's cumulative fill exactly once. |
| `PaperTheorems.StopIsFinal` | signal_foundry/trading/store.py:194-199 | From any stopped world, in every continuation the stop stays, and at most one more POST leaves: the one already past the transport's last check. |
| `PaperTheorems.AtMostOneLatePost` | signal_foundry/trading/alpaca.py:154-167 | Over a whole run at most one POST leaves after the stop committed. |
| `PaperTheorems.RowsOnlyEvolve` | signal_foundry/trading/engine.py:175-204 | Rows never disappear, keep their intent, their fills never shrink, and finished rows are frozen. |
| `PaperTheorems.StrandedIntentBlocksDispatch` | signal_foundry/trading/engine.py:182-192 | An intent the broker never got is never sent again and blocks every later POST. |
| `PaperTheorems.DecisionAimsAtTheTarget` | signal_foundry/trading/engine.py:311-322 | In every run, the broker's true position plus what a decision has to trade is the configured quantity for a long decision and zero for a flat one; nothing is traded exactly when that is held already. |
| `PaperTheorems.SizedTradesTheGap` | signal_foundry/trading/engine.py:336-341 | The order priced for a gap buys it if it is positive and sells it if it is negative. |
| `PaperTheorems.NotionalIsLimited` | signal_foundry/trading/engine.py:342-356 | In every run no order is journaled beyond the limit for one order, and no buy ever costs more at the broker. |
| `PaperTheorems.OneOrderMoves` | signal_foundry/trading/engine.py:205-211 | What the true position and cash are: each order moves its filled shares one way and filled times average price the other. |
| `PaperTheorems.ReadyMeansPostsAreObserved` | signal_foundry/trading/engine.py:174-399 | In every run, a row of a ready book has its order if and only if it was POSTed; any other row is the intent just journaled, or stranded for good. |
| `PaperSafety.StepKeeps` | signal_foundry/trading/engine.py:157-399 | Every step of operator, broker or stop keeps the invariant linking journal rows, broker orders, sizing and the program counter. |
| `PaperSafety.SizedAffordable` | signal_foundry/trading/engine.py:314-356 | On a settled, reconciled book within the limits, any partial fill of the sized order keeps position and cash within bounds. |
| `PaperScenarios.OneLatePostIsPossible` | signal_foundry/trading/alpaca.py:153-167 | The bound is tight: a run in which the order leaves, arrives and fills after the stop. |
| `PaperScenarios.ReadyDoesNotMeanObserved` | signal_foundry/trading/engine.py:378-380 | The other side: a run that ends with the state key ready and an intent that was journaled, never POSTed, and so never observed. |
| `PaperEngine.Engine.Start` | signal_foundry/trading/engine.py:132-146 | The baseline is set exactly when admission, qualification, a flat account without open orders and its own write allow it; what a later write that fails leaves behind; later starts reconcile. |
| `PaperEngine.Engine.TakeBaseline` | signal_foundry/trading/engine.py:141-146 | Baseline, account and state are three transactions: the first that fails leaves exactly the earlier ones. |
| `PaperEngine.Engine.Reconcile` | signal_foundry/trading/engine.py:157-239 | Succeeds exactly when every row has an acceptable order, no foreign order is open, the own account equals baseline plus fills, and the writes commit; states the whole new book, in which every open row holds the broker's answer, when the loss stop engages, that a foreign account leaves it untouched, and what each error means. |
| `PaperEngine.Engine.Begin` | signal_foundry/trading/engine.py:165-174 | The first write starts the loop over all rows from the baseline, or nothing has changed. |
| `PaperEngine.Engine.ObserveRow` | signal_foundry/trading/engine.py:175-204 | One row is accepted exactly when its order is found, unchanged in intent, not behind the cached fill, and any change is written; an open row then holds the answer, a finished one is not asked for again; an error names what was wrong. |
| `PaperEngine.Engine.RecordRow` | signal_foundry/trading/engine.py:199-204 | A changed answer is written, an unchanged one is not, and a lost write leaves the row as it was. |
| `PaperEngine.Engine.ObserveAll` | signal_foundry/trading/engine.py:171-211 | The loop succeeds exactly when every row is acceptable and written, and its running cash and quantities are then the sums over all rows; a failure leaves only observed rows behind; nothing but the broker's own moves happens at the broker. |
| `PaperEngine.Engine.Settle` | signal_foundry/trading/engine.py:212-239 | After the rows, succeeds exactly when no foreign order is open, the account balances and the writes commit; the loss stop engages exactly when a balanced account has lost the limit; an error names the check that failed. |
| `PaperEngine.Engine.EngageStop` | signal_foundry/trading/engine.py:229-235 | The loss ceiling raises the persistent stop if its transaction commits, and never accepts the account. |
| `PaperEngine.Engine.Accept` | signal_foundry/trading/engine.py:236-239 | Account and state are two transactions: ready is only written after the account. |
| `PaperEngine.Engine.Admission` | signal_foundry/trading/engine.py:148-155 | Passes exactly for this root, an enabled configuration and no stop landed by then; says which refusal comes first. |
| `PaperEngine.Engine.Choose` | signal_foundry/trading/engine.py:248-322 | A decision is recorded exactly once per minute, on a fresh complete window and a book without working orders; position held plus what it returns is the configured quantity if the rule calls for the share and zero if not; otherwise the book is unchanged, and the error names the check. |
| `PaperEngine.Engine.Admit` | signal_foundry/trading/engine.py:323-377 | The exact conjunction of price, exposure, cash, short-sale, budget, stop, freshness and duplicate checks under which an intent is admitted; an error names the check that failed. |
| `PaperEngine.Engine.JournalIntent` | signal_foundry/trading/engine.py:378-379 | The row of the intent, without an order, is one transaction. |
| `PaperEngine.Engine.CommitIntent` | signal_foundry/trading/engine.py:378-386 | Row and state are two transactions before anything is sent; a failure between them keeps the row, and a stop by then ends the cycle with the row kept. |
| `PaperEngine.Engine.Transmit` | signal_foundry/trading/alpaca.py:136-173 | A POST leaves exactly when no stop has landed by the transport's check and its own budget allows it. |
| `PaperEngine.Engine.Dispatch` | signal_foundry/trading/engine.py:378-398 | The intent is durable first; one POST leaves exactly when both writes committed and no stop landed by either later check; the answer is recorded only if it kept the intent and its write commits. |
| `PaperEngine.Engine.RecordAnswer` | signal_foundry/trading/engine.py:391-398 | An answer is believed only together with its write; otherwise the row keeps saying that its order is unknown. |
| `PaperEngine.Engine.Prepare` | signal_foundry/trading/engine.py:241-319 | A decision is reached exactly when admission, reconciliation, market checks and the settled book allow it; the minute counts as decided already exactly when all but the last do. |
| `PaperEngine.Engine.Trade` | signal_foundry/trading/engine.py:323-399 | From a decision: exactly when the intent is journaled, exactly when it is sent, exactly when the whole succeeds, and that honest answers keep the broker trusted. |
| `PaperEngine.Engine.Cycle` | signal_foundry/trading/engine.py:241-399 | An intent is journaled exactly when every gate is open and the write commits, a POST leaves exactly when moreover no stop landed before the last check, carrying that intent, and nothing else is sent; each of the three ways to succeed has its exact condition, and leads to the position the rule calls for; after honest answers the broker is still trusted. |
| `PaperEngine.Engine.Cancel` | signal_foundry/trading/engine.py:401-418 | Stops first, then requests cancellation of exactly the rows whose orders the broker shows as working; after honest answers a success has reached every order that works at the broker. |
| `PaperEngine.Engine.LeavesTheBrokerSafe` | signal_foundry/trading/engine.py:157-399 | After any sequence of these methods with honest answers, position, cash, POST uniqueness and the stop bound hold at the broker. |
| `CycleLaws.FaultlessMeans` | signal_foundry/trading/engine.py:248-293 | The market is accepted exactly when the clock is within five seconds of an open market, the quote fresh and its spread in bounds, and the bars are the last whole minutes of this date and session, none missing. |
| `CycleLaws.FaultNamesTheCheck` | signal_foundry/trading/engine.py:248-293 | Each refusal names the check that failed. |
| `CycleLaws.MinuteMeans` | signal_foundry/trading/engine.py:261-261 | The decided minute is the whole minute that now lies in. |
| `CycleLaws.LiveTargetMeans` | signal_foundry/trading/engine.py:307-313 | The engine wants the share exactly when its own candidate's rule does, more than ten minutes before the close. |
| `CycleLaws.ChosenReachesTheGoal` | signal_foundry/trading/engine.py:314-341 | Position held plus the chosen order, fully filled, is exactly what the rule calls for; it buys at or under the ask and sells at or under the bid, in whole cents, less than one away. |
| `CycleLaws.HoldsMeans` | signal_foundry/trading/engine.py:314-322 | No order is chosen exactly when that position is held already. |
| `CycleLaws.TradableMeans` | signal_foundry/trading/engine.py:323-377 | The limits, in what a full fill would leave: cash, buying power, position value, shares, and how old quote and account are. |
| `CycleLaws.WorkingIsShown` | signal_foundry/trading/engine.py:401-418 | Every order that works at the broker belongs to a row a cancellation asks about, and an honest answer shows it. |
| `PaperModels.HeldMeans` | signal_foundry/trading/engine.py:314-316 | A valid account holds in each symbol what its one position says. |
| `PaperModels.MarketValueAdds` | signal_foundry/trading/engine.py:343-346 | Market value counts every position once. |
| `PaperModels.WorkingStates` | signal_foundry/trading/models.py:80-80 | The states in which an order may still fill. |
| `PaperModels.MatchedHoldings` | signal_foundry/trading/engine.py:220-224 | Equal tables of non-zero quantities mean equal quantities of every symbol. |
| `PaperInputs.HoldingsMatch` | signal_foundry/trading/engine.py:220-224 | And conversely, so the table comparison is exact. |
| `JournalChain.PrefixEnds` | signal_foundry/boundary.py:68-85 | The encoded array prefix is self-delimiting: prefix followed by payload determines number, time, kind, parent and payload. |
| `JournalChain.QuoteEnds` | signal_foundry/boundary.py:68-77 | A JSON string ends at its own closing quote whatever follows it, escapes and surrogate pairs included. |
| `JournalText.ReadsBack` | signal_foundry/boundary.py:68-77 | A reader following RFC 8259, section 7, gets back exactly the text that was quoted. |
| `JournalText.EncodedIsAscii` | signal_foundry/boundary.py:68-77 | The encoded text is printable ASCII, and plain text is encoded as itself. |
| `JournalText.PrefixIsAnArray` | signal_foundry/trading/store.py:148-150 | What a digest covers first is the array of number, time, kind and parent, in this order. |
| `JournalChain.Verify` | signal_foundry/trading/store.py:161-179 | Accepts exactly the unbroken, consecutively numbered chains within the event bound. |
| `JournalChain.HeadDigestDeterminesLog` | signal_foundry/trading/store.py:150-179 | Two accepted logs with the same head digest are the same log, of whatever length, or a text of one and a different text of the other have one digest. |
| `JournalChain.HeadDigestDeterminesAnyLog` | signal_foundry/trading/store.py:161-179 | If one log is empty, the only other way is a text of the other log that hashes to the all-zero root. |
| `Journals.Journal.Append` | signal_foundry/trading/store.py:138-155 | Extends the chain by one event, refusing exactly when full for its kind or too long. |
| `Journals.Journal.Set` | signal_foundry/trading/store.py:132-136 | Event and table entry both happen or neither does; the table stays the replay of the log. |
| `Journals.Journal.Note` | signal_foundry/trading/store.py:157-159 | An event that assigns nothing leaves every key as it was. |
| `Journals.Journal.Stop` | signal_foundry/trading/store.py:194-199 | Written at most once, never refused for capacity, and never undone. |
| `Journals.Journal.Request` | signal_foundry/trading/store.py:181-192 | The decision on the pruned list is the decision over the full request history; only an accepted request is added. |
| `Journals.Journal.Reopen` | signal_foundry/trading/store.py:72-76 | Every log these operations build passes verification when the journal is opened again. |
| `Journals.AssignKeepsReplay` | signal_foundry/trading/store.py:124-136 | A set event with its assignment keeps every key equal to its last set event. |
| `Journals.AssignmentInjective` | signal_foundry/trading/store.py:135-135 | The payload text of a set event determines its key and value. |
| `Journals.PrunedDecides` | signal_foundry/trading/store.py:184-192 | The stored list decides and prunes as the full history would. |
| `Journals.BudgetHolds` | signal_foundry/trading/store.py:181-192 | Accepted times never decrease and any 101 consecutive ones span at least 60 seconds, across restarts. |
| `Journals.PermittedMeans` | signal_foundry/trading/store.py:181-192 | A request is refused only if time runs back, or the hundredth accepted one before it is under sixty seconds old. |
| `JournaledBook.StepWritesOneField` | signal_foundry/trading/engine.py:132-399 | Which key a protocol step writes and what it writes there, when it raises the stop, and when nothing is written. |
| `JournaledBook.WriteIsOneSet` | signal_foundry/trading/store.py:124-136 | Setting one key changes exactly that field of the book and no other. |
| `JournaledBook.Write` | signal_foundry/trading/store.py:132-155 | A write of the book is visible in the table exactly when its transaction commits within the capacity; else the book is as before. |
| `JournaledBook.Stop` | signal_foundry/trading/store.py:194-199 | The stop needs no capacity, and changes nothing but the flag. |
| `JournaledBook.BookIsReplayed` | signal_foundry/trading/store.py:72-76 | Two valid tables over one log show the same book: a restart reads back what was written, wherever the encoding tells the two entries apart. |
| `JournaledBook.RunIsJournaled` | signal_foundry/trading/store.py:124-155 | Every run of the protocol is a sequence of journal transactions from an empty database, and leaves an accepted chain, the table that replays it, and the operator's book in that table. |
| `JournaledBook.HeadDigestDeterminesBook` | signal_foundry/trading/store.py:150-179 | Two runs, of whatever length, whose journals end in one digest have left the same book, or the hash has collided, or hit the all-zero root, on their own texts. |
| `Replay.DailyPnl` | signal_foundry/trading/research.py:42-113 | The loop with its deque, rolling sum and accumulators reports, for each date in order of appearance, exactly what its bars entered and exited. |
| `Replay.Target` | signal_foundry/trading/research.py:27-39 | Defined exactly on known candidates and at least two positive prices, and then long or flat; which of the two, RuleLaws.TargetMeans says. |
| `RuleLaws.TargetMeans` | signal_foundry/trading/research.py:27-39 | Momentum is long exactly if the last close exceeds the window's average by more than the threshold, mean reversion exactly if it is below by more; in closes and their total, without division. |
| `RuleLaws.LongNeedsAMove` | signal_foundry/trading/research.py:35-39 | A long momentum has an earlier close below the last one, a long mean reversion one above it. |
| `RuleLaws.NeverBothLong` | signal_foundry/trading/research.py:35-39 | The two candidates are never long on the same window. |
| `RuleLaws.ScaleFree` | signal_foundry/trading/research.py:27-39 | Scaling every price changes no decision. |
| `RuleLaws.HeldMeans` | signal_foundry/trading/research.py:79-93 | A bar is held exactly when a full gap-free window before it calls for it. |
| `Replay.Advance` | signal_foundry/trading/research.py:68-105 | One bar's decision is the live rule's, and deque and rolling sum stay the recent closes and their sum. |
| `Replay.FullWindowIsLive` | signal_foundry/trading/research.py:79-86 | A full deque with its rolling sum decides exactly as the live rule on the last window closes of the gap-free stretch. |
| `ReplayTheorems.HeldIsCausal` | signal_foundry/trading/research.py:57-105 | The position at a bar does not change when that bar's prices or any later bar do. |
| `ReplayTheorems.WarmIsTarget` | signal_foundry/trading/research.py:79-86 | After a full gap-free window the position held is the live rule on that window. |
| `LiveReplay.FaultlessIsWarm` | signal_foundry/trading/engine.py:248-293 | Bars that pass the market checks are a full gap-free window of one date in any replay that contains them, so the live rule reads what the replay has in its deque. |
| `LiveReplay.LiveDecisionIsReplayed` | signal_foundry/trading/engine.py:276-313 | The engine's decision equals the position a later replay of the same bars holds from that open, except in the last ten minutes of the session, where it is flat; the two differ exactly when the replay is long there. |
| `LiveReplay.PositionIsReplayed` | signal_foundry/trading/engine.py:307-341 | A fully filled order of the engine holds the configured quantity times the replayed position, and nothing in the last ten minutes; no order is sent exactly when that is held. |
| `ReplayTheorems.DayRowIsTradeCash` | signal_foundry/trading/research.py:57-113 | Every date's net and baseline equal the cash its trades leave. |
| `ReplayTheorems.SegmentLaw` | signal_foundry/trading/research.py:57-110 | Over a contiguous segment gross is final value less trades, and the baseline is one round trip with its two fees. |
| `ReplayTheorems.DayRowIsItsSegments` | signal_foundry/trading/research.py:57-113 | Every date's gross and baseline are the sums over its segments, so SegmentLaw accounts for the report. |
| `ReplayTheorems.SegmentsEndWhereNothingContinues` | signal_foundry/trading/research.py:63-77 | The segments are exactly the stretches up to a bar that no bar of the same date continues. |
| `ReplayCosts.DayRowIsItsTrades` | signal_foundry/trading/research.py:68-113 | Every date's gross is what was sold less what was bought, its turnover both together, its cost so many basis points of the turnover, and it counts each of its bars. |
| `ReplayCosts.CostStress` | signal_foundry/trading/research.py:148-156 | Trading at k times the cost leaves gross and turnover as they are and multiplies the cost by k. |
| `ReplayCosts.DatesAre` | signal_foundry/trading/research.py:57-67 | The report lists each date once, in order of first appearance, ascending for ordered bars. |
| `Intervals.Bootstrap` | signal_foundry/trading/research.py:116-135 | The loops draw whole blocks, cut each resample to length, and report the 7th and 494th of 500 ordered means; none for fewer than 20 values, a refusal above 366. |
| `Intervals.DrawSample` | signal_foundry/trading/research.py:128-132 | Day i of a resample repeats day i mod 5 of the block drawn for it, however the blocks fall. |
| `Intervals.IntervalHoldsTheMeans` | signal_foundry/trading/research.py:129-135 | The interval is ordered, stays within the least and greatest value, and its ends are the seventh resampled means from either side: at most six lie beyond, at least seven beyond or on it. |
| `Intervals.IntervalWhen` | signal_foundry/trading/research.py:122-125 | There is no interval below 20 values, and a refusal above 366, and neither otherwise. |
| `Intervals.BlocksStayTogether` | signal_foundry/trading/research.py:128-132 | Five days that follow each other stay together; just enough blocks are drawn to cover the sample. |
| `ReplaySelection.Split` | signal_foundry/trading/research.py:157-163 | Every date's net, and every held-out date's excess over the baseline, goes to exactly one side of the split, in report order. |
| `ReplaySelection.Evaluate` | signal_foundry/trading/research.py:138-198 | Exactly which inputs are refused and how, more than 366 held-out dates included; otherwise six records, each the replay of its candidate and cost with both its intervals, and the winner by mean net before the split. |
| `ReplaySelection.EveryTrialHoldsOut` | signal_foundry/trading/research.py:152-179 | Every candidate and cost has the same held-out dates, so one bound decides for all twelve intervals. |
| `ReplaySelection.TrainingRowIsLocal` | signal_foundry/trading/research.py:63-77 | A date's row before the split is the same with all held-out bars cut away: gap and end-of-data liquidation coincide. |
| `ReplaySelection.SelectionIgnoresHeldOut` | signal_foundry/trading/research.py:148-165 | Two ordered histories that agree before the split give the same rows and results there. |
| `ReplaySelection.WinnerIgnoresHeldOut` | signal_foundry/trading/research.py:180-184 | And therefore select the same candidate. |
| `SelectionLaws.WinnerMeans` | signal_foundry/trading/research.py:180-184 | The candidate with the higher average before the split wins, momentum on a tie, nobody without such dates; compared without division. |
| `SelectionLaws.MeanMeans` | signal_foundry/trading/research.py:170-172 | A reported mean times its count is the total. |
| `SelectionLaws.TrialsAreStress` | signal_foundry/trading/research.py:150-156 | The three records of a candidate differ by once, twice and three times the plan's basis points on the same turnover. |
| `SelectionLaws.SplitMeans` | signal_foundry/trading/research.py:157-163 | Training, test and excess are, date by date, the nets before the split, those from it on, and these less the baseline; each date counts once. |
| `JobStore.TransitionKeeps` | signal_foundry/store.py:297-319 | Every permitted transition keeps audit trails, bounds and row coherence, changes one row to the given state, time and code, tells the audit the same, and freezes finished jobs. |
| `JobStore.PublishKeeps` | signal_foundry/store.py:321-351 | Publication does the same, only from running, and stores exactly the digest of the published evidence. |
| `JobStore.SubmitKeeps` | signal_foundry/store.py:238-274 | A submission returns the job of its key and request, creating it only if absent, within 64 jobs and 8 pending. |
| `JobStore.FailEachKeeps` | signal_foundry/store.py:411-422 | Recovery fails every unfinished listed job under the given code and time and leaves every other one alone. |
| `JobStore.TransitionPermits` | signal_foundry/store.py:297-319 | The steps permitted are exactly those that leave the audit trail a life path, success excepted; each refusal has its exact condition. |
| `JobStore.PublishAccepts` | signal_foundry/store.py:321-351 | Evidence is accepted exactly for a running job, with its request's digest, within four mebibytes. |
| `JobStore.LookupMeans` | signal_foundry/store.py:217-236 | A key finds its job, conflicts with another request, or is free, each exactly when. |
| `JobStore.SubmitAccepts` | signal_foundry/store.py:238-274 | A new job is refused exactly when 64 jobs are stored or eight of them unfinished. |
| `Managers.Store.Lookup` | signal_foundry/store.py:217-236 | Finds the one job of a key, or a conflict, or nothing. |
| `Managers.Store.Submit` | signal_foundry/store.py:238-274 | Performs the submission on the tables as a whole, or changes nothing, a rolled-back transaction included. |
| `Managers.Store.Transition` | signal_foundry/store.py:297-319 | Performs the permitted transition with its audit event, or changes nothing, a rolled-back transaction included. |
| `Managers.Store.Publish` | signal_foundry/store.py:321-351 | Performs the publication with its audit event, or changes nothing, a rolled-back transaction included; what it stores, PublishKeeps says. |
| `Managers.Store.List` | signal_foundry/store.py:206-215 | A page of 64 is complete, without repetition, newest first and by the text of the id within one instant: no reachable store holds more. |
| `Managers.Store.FailUnfinished` | signal_foundry/manager.py:138-142 | The sweep over the page fails every unfinished job, or exactly those before the transaction that was lost. |
| `Managers.Manager.Find` | signal_foundry/manager.py:62-67 | The first section answers a repeated key with the job the second section would, and refuses only what that would refuse. |
| `Managers.Manager.Submit` | signal_foundry/manager.py:75-81 | The second locked section performs exactly the submission step, or, refused or rolled back, changes nothing. |
| `Managers.Manager.Cancel` | signal_foundry/manager.py:83-95 | Succeeds exactly when the job is finished, active or queued and the transaction commits, and then performs exactly that cancellation; one that rolls back leaves its mark and the row as it was. |
| `Managers.Manager.CancelNext` | signal_foundry/manager.py:201-211 | One cancellation inside close: the close gets one job further, or raises there. |
| `Managers.Manager.Close` | signal_foundry/manager.py:201-211 | Cancels everything queued and then the active job, once; it raises exactly when a cancellation does, and stays closed with the rest as it was. |
| `Managers.Manager.Take` | signal_foundry/manager.py:153-160 | The head of the queue, and only it, starts running; if its row does not start, the worker dies holding it. |
| `Managers.Manager.Deliver` | signal_foundry/manager.py:167-170 | Evidence is published unless the job's event was set; a publication that is refused or rolls back kills the worker and changes no row. |
| `Managers.Manager.RecordFailure` | signal_foundry/manager.py:163-166 | A refusal is recorded unless the job is already finished; a rolled-back write kills the worker. |
| `Managers.Manager.Sweep` | signal_foundry/manager.py:133-147 | After a fault admission is off and everything unfinished is failed and the queue empty, or, if the store is lost on the way, the jobs before are failed and the queue stands. |
| `SchedulerSafety.StepKeeps` | signal_foundry/manager.py:62-174 | Every locked section, rolled-back transaction, crash and restart keeps queue, active job, worker and store coherent, and finished jobs frozen. |
| `SchedulerTheorems.QueueIsCoherent` | signal_foundry/manager.py:62-95 | The queue is duplicate-free and, unless a sweep lost the store, exactly the queued jobs but those whose cancellation rolled back and the one a worker died on while starting it. |
| `SchedulerTheorems.OnlyTheActiveJobRuns` | signal_foundry/manager.py:153-174 | A running job is the active one, unless its cancellation rolled back or its worker died. |
| `SchedulerTheorems.CancelFindsItsJob` | signal_foundry/manager.py:83-95 | Cancelling an unfinished job finds it if and only if it is active, or no cancellation of it has rolled back and no dying worker has let go of it. |
| `SchedulerTheorems.DesertionEndsWithTheSweep` | signal_foundry/manager.py:126-149 | A dead worker's job stays out of reach only until the fault is recorded, or if the sweep lost the store. |
| `SchedulerTheorems.OnlyTheDyingWindow` | signal_foundry/manager.py:83-174 | While cancel and sweep commit, an unfinished job can be cancelled if and only if it is not lost in the dying window. |
| `SchedulerTheorems.FirstInFirstOut` | signal_foundry/manager.py:151-160 | Jobs start in submission order, less those cut from the queue. |
| `SchedulerTheorems.WhatIsCutNeverRan` | signal_foundry/manager.py:83-95 | A job cut from the queue never ran, and is cancelled, failed, or still queued after a rolled-back cancellation. |
| `SchedulerTheorems.NothingForgotten` | signal_foundry/manager.py:83-174 | An unfinished job is queued, active, or recorded as strayed by a rolled-back cancellation or a dying worker. |
| `SchedulerTheorems.CloseFinishesWhatItFinds` | signal_foundry/manager.py:201-211 | A close leaves a job unfinished if and only if it was unfinished, not active, and strayed by a rolled-back cancellation or a dying worker. |
| `SchedulerTheorems.CloseFinishesItsList` | signal_foundry/manager.py:201-211 | A close that gets as far as the n-th job of its list, whether it raises there or goes on, has finished exactly the first n. |
| `SchedulerTheorems.ClosedIsFinished` | signal_foundry/manager.py:201-219 | Ever after a close that did not raise, nothing that waits or is active is unfinished; unfinished is at most a job strayed by a rollback, a dying worker or a lost sweep. |
| `SchedulerTheorems.SweptIsFinished` | signal_foundry/manager.py:133-143 | After a fault whose sweep went through every job is finished and the queue empty. |
| `SchedulerTheorems.FinishedIsFinal` | signal_foundry/store.py:297-351 | A finished, so also a cancelled, job keeps its row, evidence and audit trail in every continuation. |
| `SchedulerTheorems.PublicationNeverRaces` | signal_foundry/manager.py:161-174 | A returning worker skips publication only after a cancellation, committed or rolled back; otherwise its job is still running and only the evidence itself, or the database, can refuse it. |
| `SchedulerTheorems.StoreStaysValid` | signal_foundry/contracts.py:270-279 | Every reachable row is coherent and its audit trail is queued, optionally running, at most one terminal state, ending in the stored one. |
| `SchedulerHistory.EveryEndIsExplained` | signal_foundry/manager.py:83-174 | In every run, a succeeded job carries the digest of an evidence the runner brought back for that very job and request, a cancelled one its own code, a failed one the runner's refusal or the scheduler's own; and every row repeats its audit trail. |
| `SchedulerHistory.DeliveryIsExact` | signal_foundry/manager.py:167-174 | A returning worker publishes sound evidence unless its job was cancelled, and then changes exactly that row and its trail. |
| `SchedulerHistory.RefusalIsExact` | signal_foundry/manager.py:163-166 | A refusal becomes the job's failure under the runner's code unless the job has ended. |
| `SchedulerHistory.CancellationIsExact` | signal_foundry/manager.py:83-95 | A cancellation that goes through cancels its own row, leaves the queue or tells the worker, and nothing else. |
| `SchedulerHistory.RecoveryIsExact` | signal_foundry/manager.py:133-143 | A sweep and a restart fail exactly the unfinished jobs, each under its own code. |
| `SchedulerScenarios.DyingWorkerHidesItsJob` | signal_foundry/manager.py:171-174 | A run that reaches the window in which cancel cannot find a running job. |
| `SchedulerScenarios.RolledBackCancelForgetsItsJob` | signal_foundry/manager.py:89-93 | A run after which a queued job is out of every later cancel's reach although the worker is healthy, and a clean close leaves it queued. |
| `SchedulerScenarios.RolledBackCancelLosesTheEvidence` | signal_foundry/manager.py:89-93 | A run after which a job is running in the store, with no worker on it and its evidence unpublished. |
| `SchedulerScenarios.RaisedCloseLeavesItsQueue` | signal_foundry/manager.py:201-211 | A run in which a close that raises leaves a job queued behind it. |
| `Workflows.StepKept` | apps/nexus/src/workflow.ts:47-87 | No event but a matching confirmation or a reload of the page takes an open submission off its key, request and preflight, and only a reload abandons one; what an edit does otherwise, WorkflowLaws says. |
| `Workflows.OneKeyPerSubmission` | apps/nexus/src/useWorkstation.ts:133-163 | All POSTs of one submit event carry one key and one request, and no two submit events share a key, across reloads too. |
| `Workflows.AmbiguityKeepsItsKey` | apps/nexus/src/workflow.ts:47-87 | Through any edits, failures, retries and server restarts an open submission keeps its key until it is confirmed or the page reloads. |
| `Workflows.SubmissionsAreConfirmed` | apps/nexus/src/useWorkstation.ts:133-163 | Every submit event is confirmed, still open, or was abandoned by a reload: within one page lifetime a fresh key is only drawn once all earlier submissions are confirmed. |
| `Workflows.AtMostOneJobPerSubmission` | signal_foundry/store.py:217-274 | However POSTs are lost, delayed or repeated and pages reload, a submit event has at most one job, and jobs never outnumber submit events. |
| `Workflows.ConfirmedJobIsTheSubmittedOne` | apps/nexus/src/workflow.ts:82-86 | A job shown as submitted is in the store, under the key and request of the latest POSTs. |
| `Workflows.RetryReturnsTheSameJob` | signal_foundry/store.py:217-242 | A repeated POST gets the first one's job and changes nothing, whatever happened to the job since. |
| `Workflows.ValidationBelongsToItsRequest` | apps/nexus/src/useWorkstation.ts:120-132 | A preflight in hand is the server's answer about the very request in hand. |
| `Workflows.ConfirmationMatchesPreflight` | apps/nexus/src/useWorkstation.ts:143-151 | A confirmation is accepted if and only if the preflight named the digest of the request submitted. |
| `WorkflowLaws.SubmitsWhatIsSeen` | apps/nexus/src/useWorkstation.ts:95-163 | Unless the catalog arrived under the preflight, what a click submits and every POST of it carries is the draft the user sees. |
| `WorkflowLaws.StepInHand` | apps/nexus/src/useWorkstation.ts:34-38 | A late catalog is the only step that takes draft and preflight apart. |
| `WorkflowLaws.EditDiscardsThePreflight` | apps/nexus/src/workflow.ts:49-52 | After an edit with no submission open nothing can be submitted until another preflight has been asked for and answered. |
| `WorkflowLaws.LateCatalogKeepsThePreflight` | apps/nexus/src/useWorkstation.ts:34-38 | A run in which the catalog leaves a preflight of another draft ready to be submitted. |
| `WorkflowLaws.OneSubmission` | apps/nexus/src/workflow.ts:53-86 | From preflight to confirmation nothing is lost; an unknown outcome is retried unchanged. |
| `WorkflowLaws.UnexpectedIsInert` | apps/nexus/src/workflow.ts:45-87 | An event out of phase, or of another revision, changes nothing. |
| `WorkflowLaws.RevisionsMoveOn` | apps/nexus/src/workflow.ts:49-86 | Only an edit with no submission open moves the revision, by one. |
| `WorkflowScenarios.ReloadForgetsTheKey` | apps/nexus/src/useWorkstation.ts:14-14 | A run in which a reload during an open submission has one draft POSTed under two keys. |
| `LockGraph.Closure` | packages/alphaforge/scripts/dev_audit.py:163-209 | Terminates on cyclic graphs; succeeds exactly when no reachable entry raises, and then returns exactly the reachable packages without the root; a failure is that of a reachable entry. What is reachable in the lock's own terms, LockLaws.ClosureFollowsTheLock says. |
| `LockGraph.ResolvesToTheOnlyMatch` | packages/alphaforge/scripts/dev_audit.py:181-208 | An active edge leads to the one package matching its name, version, source and markers, and to each extra it asks for. |
| `LockGraph.ClosureMonotone` | packages/alphaforge/scripts/dev_audit.py:163-209 | More requested extras never lose a package; if the larger closure succeeds so does the smaller. |
| `LockLaws.ClosureFollowsTheLock` | packages/alphaforge/scripts/dev_audit.py:163-209 | Said of the lock alone: the closure succeeds exactly when every entry that can be walked to is healthy, and needs exactly the packages that can be walked to, along active edges listed for the package or for the extra asked for. |
| `LockLaws.NextSucceeds` | packages/alphaforge/scripts/dev_audit.py:172-208 | An entry raises exactly when its extra is not its package's, or one of its listed edges is malformed, cannot be evaluated, or means no or several packages. |
| `LockLaws.NextMeans` | packages/alphaforge/scripts/dev_audit.py:172-208 | What an entry adds to the worklist is exactly what one active listed edge leads to. |
| `LockLaws.EdgesAreListed` | packages/alphaforge/scripts/dev_audit.py:172-180 | The own entry lists the package's dependencies, an extra its group's; any other extra is refused by name. |
| `LockLaws.NeededByAnEdge` | packages/alphaforge/scripts/dev_audit.py:181-209 | A package is needed exactly when an active edge of something reachable matches it. |
| `LockGraph.Index` | packages/alphaforge/scripts/dev_audit.py:122-161 | Builds an index listing exactly each name's packages, or refuses at the first faulty package: duplicate, source, edge count, malformed or missing hashes, in that order. |
| `LockLaws.FaultlessMeans` | packages/alphaforge/scripts/dev_audit.py:128-155 | In an accepted lock the project alone is editable and everything else comes hashed from the registry. |
| `LockLaws.FaultlessIsBounded` | packages/alphaforge/scripts/dev_audit.py:122-143 | And no package is listed twice, nor more than 32,768 edges. |
| `LockGraph.CountEdges` | packages/alphaforge/scripts/dev_audit.py:139-143 | Counts every dependency of a package and of all its groups. |
| `LockGraph.CollectPins` | packages/alphaforge/scripts/dev_audit.py:291-305 | Accepts exactly the records that match the lock, without repeated records or active names. |
| `LockGraph.ValidateExport` | packages/alphaforge/scripts/dev_audit.py:271-324 | Accepts exactly when the active records are the needed packages with a patched toolchain; the runtime closure then cannot fail and the two counts add up. |
| `LockLaws.AcceptedExportMeans` | packages/alphaforge/scripts/dev_audit.py:271-324 | Record by record: the lock's hashes, the packages that can be walked to, an audit tool, and a pip no older than the floor. |
| `JsonWalk.DecodeWalk` | signal_foundry/boundary.py:47-61 | The stack walk accepts exactly the trees of at most 200,000 nodes, depth at most 32 and finite numbers. |
| `JsonWalk.FiniteTree` | apps/nexus/src/api.ts:48-79 | The same at 450,000; the early check on pending children refuses nothing the full walk would accept. |
| `JsonWalk.Pairs` | signal_foundry/boundary.py:27-33 | Members become a dictionary exactly when no name repeats. |
| `JsonWalk.ThirtyTwoLevels` | signal_foundry/boundary.py:47-61 | A scalar may lie under 32 arrays, and no more. |

## Left out

- TLS, sockets, credentials, subprocess limits and the paging of market data: plumbing; the broker is kept as a nondeterministic environment with the transport's stop check. `Alpaca.replace` is not called by the engine.
- SQLite, flock and fsync: a transaction is one step that commits or leaves no trace, the locks are mutual exclusion, and row checksums and corrupt files are not modelled.
- Decimal context rounding and the float conversions of the report and of the bootstrap: exact reals. The generator behind `random.Random(seed)` is an input, of which only the range of its numbers is assumed.
- Qualification, code identity and campaign records: boolean gates and untouched keys.
- PEP 508 evaluation, TOML and requirement parsing, name normalisation and the byte limit of a lock file: markers are an arbitrary function that may raise, and lock and export come parsed.
- JSON parsing: the walks start from the parsed tree. A round trip of encode and decode is not claimed, because encode does not bound depth or nodes.
- Time zones and calendars: the date is a function of the instant, monotone where order matters.
- The operator's error bookkeeping: signal_foundry/trading/entry.py writes `last_error` after the exclusive lock is released, and no checked state depends on it.
- `order_keys` as text: client ids are numbers, since forty hex digits of one length sort alike.
- PaperEngine.Engine.Cycle: stops from elsewhere land at the four reads of the flag, and the broker moves at its own reads; other interleavings, and crashes inside a method, are covered by the runs of the step relation.
- JournaledBook.Write: how a value is encoded as text is a parameter; the two theorems that read a book back ask that it tells apart the entries at hand.
- Journals.Journal.Set: the two keys written by other operations and the event kind of a stop are excluded from its callers, as every caller in the repository does.
- Managers.Manager.Find: preflight between the two sections of a submission is not part of the scheduler's model.
- A recovery that fails midway at a restart: the service then does not come up, and the next restart begins again.
- Workflows.ValidationBelongsToItsRequest: one operation at a time, as the buttons enforce, and each click acts on the current state.
- Views, charts, plotting, benchmarks, publishers and workflow generation.
