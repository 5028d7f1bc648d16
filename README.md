# IBKR polling trade copier — Dafny model

The copier watches one brokerage session (the source) and copies every trade
executed there onto a second session (the destination). On each poll cycle it
asks the source for its cumulative list of today's fills. It picks out the
fills whose execution id it has not processed yet and marks those ids
processed straight away. It then turns each new fill into a market order on
the destination: a `BOT` fill becomes a `BUY` order and an `SLD` fill a `SELL`
order, for the same contract and the same number of shares. A fill with any
other side is skipped. Its id stays processed.

The model has three modules:

- `Trades` (trades.dfy): fills, executions, contracts and market orders as
  datatypes. It holds the side mapping of `copy_trade` (`ActionFor`), the
  order built for one execution (`OrderFor`) and the orders for a run of
  fills (`Copies`).
- `Dedup` (dedup.dfy): `NewFills` specifies the "find new fills" loop of
  `check_for_new_trades`. `Placed` picks the queued fills whose copy reaches
  the destination. Lemmas state how both behave.
- `Copier` (copier.dfy): the poll cycle and a run of cycles as functions
  (`After`, `CycleCopies`, `RunProcessed`, `RunCopies`), the at-most-once
  theorem, the ordering of copies, and the class `TradeCopier`. The class's
  one real field is the `processed` set, which its methods update in place.
  Ghost fields record what the destination accepted (`destOrders`) and
  which fill each accepted order copies (`copied`).

The outside world enters as inputs. Each cycle is a `Cycle(poll, rejected)`:
`poll` is `Listed(fills)` or `ListingFailed`, and `rejected` is the set of
execution ids whose `placeOrder` call raises in that cycle. A per-id choice
covers every pattern of submission failures, because within one cycle no id
reaches `placeOrder` twice. The endless `while True` of `start_monitoring` is
modelled as a loop over a finite sequence of cycles.

The loop stops only on a keyboard interrupt (main.py:115). Every exception
inside a cycle is caught and printed (main.py:69-70, main.py:100-101). The
model follows this: no cycle stops the run.

## Model

| member | source | states |
|---|---|---|
| Trades.ActionFor | main.py:75-82 | a side gives an action exactly when it is `BOT` or `SLD`; the action maps back to that side and is named `BUY` for `BOT` and `SELL` for `SLD` |
| Trades.ActionForInverse | main.py:75-82 | `BOT` is the only side that gives a buy and `SLD` the only side that gives a sell |
| Trades.OrderFor | main.py:75-87 | an order is built exactly when the side is known; it carries the fill's contract, a quantity equal to the execution's shares, and the direction of the fill |
| Trades.CopiesOnePerFill | main.py:84-95 | when every side is known, exactly one order is placed per fill, and the i-th order is the copy of the i-th fill |
| Trades.CopiesAppend | main.py:56-67 | the orders of two consecutive runs of fills are the orders of the first run followed by those of the second |
| Dedup.NewFillsSpec | main.py:49-53 | a fill is queued only if it is in the listing and its id was not processed; every unprocessed id of the listing is queued; no id is queued twice, even when the listing repeats it |
| Dedup.NewFillsInOrder | main.py:49-52 | queued fills keep the relative order they have in the listing |
| Dedup.NewFillsAppend | main.py:46-53 | deduplicating a listing made of two parts is deduplicating the first part, then the second part against the ids of the first as well |
| Dedup.NewFillsIdempotent | main.py:46-53 | checking the same listing again, once its ids are processed, queues nothing |
| Dedup.OneMoreFill | main.py:46-53 | a listing that repeats an earlier listing and adds one fill with a new id, anywhere in it, queues exactly that fill |
| Dedup.PlacedSpec | main.py:56-67 | the fills whose copy reaches the destination are exactly the queued fills with a known side whose submission did not raise, and their ids stay distinct |
| Dedup.PlacedInOrder | main.py:56-67 | the fills whose order reaches the destination keep the relative order they have in the queue |
| Copier.After | main.py:44-53 | after a cycle the processed set holds every id it held before and every listed id; a failed listing adds nothing |
| Copier.RunProcessed | main.py:111-113 | over a run of cycles no id is ever removed, and every id of every successful listing ends up processed |
| Copier.CycleCopiesFresh | main.py:50-67 | one cycle copies each id at most once, and only ids that were unprocessed before the cycle and are processed after it |
| Copier.AtMostOnce | main.py:111-113 | over any run of cycles, whatever listings or submissions fail, no execution id is copied twice, and every copied id was unprocessed at the start and is processed at the end |
| Copier.CycleInOrder | main.py:46-67 | within one cycle, orders reach the destination in the order their fills have in the listing |
| Copier.RunInOrder | main.py:103-113 | over a run, orders reach the destination in the order of the cycles and, within a cycle, in listing order: the copied fills are a subsequence of the successful listings laid end to end |
| Copier.NeverRetried | main.py:53-70 | a fill listed in a successful cycle is never copied by a later cycle, whether or not its own submission failed |
| Copier.RepeatedListingCopiesNothing | main.py:46-67 | polling the same listing again right after a successful cycle submits no order |
| Copier.CycleKeepsLog | main.py:50-67 | a cycle keeps the log consistent: accepted orders are the copies of distinct, processed fills with known sides |
| Copier.BoughtFillScenario | main.py:50-95 | a `BOT` fill listed on two cycles gives one `BUY` order for the same contract and quantity, and its id is processed |
| Copier.SoldFillScenario | main.py:75-95 | an `SLD` fill gives one `SELL` order of the same size |
| Copier.UnknownSideScenario | main.py:80-82 | a fill with side `XYZ` gives no order, and its id is processed |
| Copier.FailedSubmissionScenario | main.py:100-101 | a fill whose submission raised is not copied on the next cycle |
| Copier.TradeCopier.constructor | main.py:21 | a new copier has processed nothing and has copied nothing |
| Copier.TradeCopier.CopyTrade | main.py:72-101 | an unknown side or a raising submission leaves the destination unchanged; otherwise exactly the order for the execution is appended; the processed set is not touched |
| Copier.TradeCopier.CheckForNewTrades | main.py:42-70 | the processed set grows by the listed ids, the destination receives exactly the copies of this cycle's placed new fills, and the copy log stays consistent |
| Copier.TradeCopier.FindNewFills | main.py:49-53 | the loop queues exactly `NewFills` of the listing, the processed set grows by every listed id, and the copy log stays consistent |
| Copier.TradeCopier.ProcessNewFills | main.py:56-67 | each queued fill is copied in queue order: the destination receives the orders of the placed ones, in that order, and nothing else; the processed set is not touched |
| Copier.TradeCopier.StartMonitoring | main.py:103-113 | running the cycles in order leaves the state given by `RunProcessed` and `RunCopies`, and keeps the copy log consistent |

## Left out

- `connect` and `disconnect` (main.py:23-40, main.py:119-124): opening and closing the network sessions belongs to the external brokerage client library.
- `time.sleep` and the `KeyboardInterrupt` handling of `start_monitoring` (main.py:110-117): timing and signals. The model runs a finite sequence of cycles instead.
- All console output (main.py:57-64, main.py:89-98, main.py:144-172), including the "Unknown action" message.
- `execution.price` and `execution.time` are only printed, so they are not part of `Execution`.
- How `MarketOrder` and `placeOrder` serialise and send an order, and the returned order id (main.py:87, main.py:95, main.py:98). A submission is modelled only as accepted (the order is appended to `destOrders`) or raising (nothing changes).
- `main()` and its configuration constants (main.py:127-172).
- Inside a cycle, only a failing listing call is modelled as aborting it. Any other exception in the try block of `check_for_new_trades` would also end the cycle early, with the ids already marked staying processed. In practice such an exception would come from a print.
- `Execution.shares` is a `real` that is passed through unchanged. The model does no arithmetic on it and ignores float representation.
- A restart is a fresh `TradeCopier` whose processed set is empty, so it replays the day's fills once more. The model states this in the constructor's contract and proves nothing about it across restarts.
