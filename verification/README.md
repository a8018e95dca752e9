# A verified model of the Gun matching engine

Gun is a matching engine for limit order books. This project models one symbol of it: the order
book with its linked FIFO queues, price ladders and indexes, the matching engine on top, the
write-ahead market that drives both, the fixed-point text conversion and the snapshot. It proves
what the program relies on and what its comments and tests promise.

## Two tiers

**Values.** A book is two ladders. A ladder is a sequence of price levels in priority order, each
with its queue of orders (`Ladders`). Matching is one recursion over a queue (`Matching.Greedy`),
and every operation of the engine is a function from a book to a book (`Books`). The book value
also carries its *tape*, the trades and level updates in the order in which they drew a sequence
number, and *voids*, the volume withdrawn by cancels, reductions, self-trade prevention and dropped
remainders. Both exist for the specification only. All theorems about runs are about these
functions.

**Heap.** The classes follow the source field by field: `Levels.OrderNode`, `Levels.OrderList` and
`Levels.MatchEngineEntry` for the linked queue and its cached total, `Sides.BookSide` for the
triple (slice of levels, price map, sort direction) that `addSide` and `removeLevel` take by
reference, `Orderbooks.Orderbook` for the book with its order index, counter and L2 callback, and
`Markets.Market`. Loops and pointer updates stay loops and pointer updates. The ghost field `M`
of `Orderbook` is its value; `Valid()` ties every pointer, map entry and cached total to it, and each
method is proved to take `M` to what the function of `Books` with the same name gives.
`Orderbook.ValidChecks` says what `Valid()` means for the objects. `Market.constructor` and
`Market.Handle` are the steps of the state machine in `Recovery`: a start from the journal, and an
append followed by its completion.

The rest builds on the values:

- `Invariants`, `Clashes`, `Runs`: which operations and runs keep the representation invariant,
  exactly; no run crosses the book.
- `Moves`, `Plans`: every operation is a sequence of four kinds of move (publish a new queue at a
  price, print a numbered trade, withdraw volume, park a stop order) chosen by looking at the
  ladders only. `Feed`, `Priority` and `Recovery` study the moves once for all operations.
- `Execution`, `Fills`, `SelfTrades`, `TimeInForce`: the nested matching loops are one greedy pass
  over the flattened opposite side, and what follows for fills, fill-or-kill, self-trade prevention,
  post-only and remainders.
- `Takers`, `Stops`, `Answers`: what a submission does told in prices, volumes, ids and users alone:
  which matches it makes and with whom, when it is accepted, what of it rests, when a stop order waits
  and what sets it off, and what every operation answers, in the literal reasons.
- `Promotions`, `Recovery`, `StopFree`, `LiveRuns`, `LiveReports`: the live path with its promotion
  of stop orders. Exactly when a promotion does nothing, exactly when it keeps the invariant, exactly
  when every crash can be recovered from, what survives in any case, and what the feed and the ledger
  say of it.
- `Ledger`: conservation of volume per order id. `Publishing`: the order of the events of one pass.
- `Laws`, `Undo`: what one operation undoes, repeats or leaves behind, in the values and on the heap.
- `Witnesses`: concrete runs of the market in which it departs from a comment.
- `Fixed`, `Snapshot`, `Restore`: numbers as text and the snapshot round trip. `Texts`: the same in
  literal text, character by character and field by field.

Strings with a fixed set of meanings (side, type, time in force, self-trade mode) are datatypes with
an extra constructor for every other string, so that the default branches of the source are there.
An installed L2 callback is a flag; what it is given is the list `sent`. An append to the journal
either succeeds or fails without effect.

What a caller owes the engine is a check on the book before the call, and it is exact: an operation
keeps the invariant if and only if it is `Runs.Admissible` (`Runs.ApplySound`, `Runs.RunExact`). A
submission is, unless its remainder would rest beside an order with its id that it cannot reach
(`Clashes.SubmitClash`); a free id, which the fuzz test of the repository grants, is always enough
but not needed. A modify is, unless it asks for a negative volume at the resting price. The heap
methods take every input to a valid book: they give the ladders of the specification in any case
(`Orderbook.Shelved`) and say exactly when the book stays valid.

## Where the code departs from its own comments

The model follows the code. Each difference has a lemma with inputs that show it and a theorem
that says exactly when the code does what the comment says.

- `matchEngine/matchEngine.go:16-21` says that a rejected order changes nothing. A modify that is
  refused has already cancelled a resting order (`Witnesses.PostOnlyMoveIsLost`). When a modify is
  refused, and that it then changes nothing exactly if the id was unknown, is `Laws.RefusedModify`.
  A refused submission changes nothing but is in the journal (`Laws.RefusedIsJournaled`).
- `matchEngine/matchEngine.go:185-187` says that a price change or an increase is submitted again. So
  is a modify to the very price and volume that the order has, which sends it to the back of its
  queue (`Laws.SameModifyLosesPlace`).
- `matchEngine/matchEngine.go:87-89` says that a fill-or-kill order cannot be left with a remainder.
  The check counts the taker's own resting orders. An accepted order that cancels them can keep its
  whole volume (`Fills.FillOrKillLeavesRemainder`); it is left with nothing exactly when it does not
  cancel them or the others cover it (`Fills.FillOrKillRemainder`). Having no remainder is not being
  filled, because the other modes drop the remainder (`Fills.FillOrKillCountsOwnOrders`); accepted
  orders are filled exactly when the usable volume covers them (`Fills.FillOrKill`).
- `models/order.go:68-71` says that the decrement mode cancels the resting order. A larger one is
  only reduced (`SelfTrades.DecrementKeepsResting`). Every order that such a taker may take from goes
  on resting exactly when it exceeds what the orders ahead of it leave of the taker
  (`SelfTrades.DecrementLeaves`): the mode reduces own orders as far as it would trade with them
  (`SelfTrades.DecrementIsPlain`).
- `models/fixed.go:118-120` says that the text round trip is stable. It is, exactly for every 64-bit
  value but the smallest, which prints two signs and does not parse (`Fixed.RoundTrip`).
- `market/market.go:97-100` says that replay reaches the state before the crash. A promoted stop
  order is not promoted again (`Witnesses.PromotionIsNotReplayed`). The journal replays to the live
  book wherever the market stops exactly when every promotion is of an order that would be refused
  or is empty (`Recovery.RecoverableIffQuiet`); a journal without stop orders is enough
  (`StopFree.StopFreeIsRecoverable`).
- `market/market.go:89-104` loads a snapshot and replays the whole journal over it. One resting order
  is enough for that to rest an id twice (`Witnesses.SnapshotThenJournal`); the books on the way are
  sound exactly when every record is admissible where it is applied (`Laws.SnapshotReplayExact`).
  That decides soundness only: a sell of 7, a buy of 8 and a buy of 5 at one price, all admissible
  over the snapshot they leave, replay to another book than the one before the stop
  (`Witnesses.SnapshotMisleads`). The ladders are those before the stop, however the journal goes on
  after the snapshot, exactly when replaying the records up to the snapshot over it leaves its ladders
  alone; a snapshot with empty ladders is enough (`Laws.SnapshotReplaySame`).
- `matchEngine/matchEngine.go:40-51` promotes a stop order once per match that triggers it, so it can
  rest twice (`Witnesses.StopRestsTwice`); it does whenever two matches trigger it and it meets nothing
  (`Promotions.PromotedTwice`). The walk keeps the invariant at every step exactly when no triggered
  order clashes (`Promotions.PromotesExact`). Sorted ladders and an uncrossed book survive in any case
  (`LiveRuns.LiveNeverCrosses`), and so do positive volumes as long as no modify asks for a negative
  one in place (`LiveRuns.LiveStaysPositive`).
- `models/match.go:3-6` and `models/orderbook.go:78-80` say that sequence numbers only grow and that
  recovery resumes at an un-used one. Replay draws no number for a delta, so a restart can hand numbers
  out again (`Witnesses.RestartRepeats`). In every reachable state of a quiet journal it lowers the
  counter by the deltas published since the last start and raises it by the trades of the operation
  that was journaled but not applied (`Recovery.RestartCounts`), so it repeats numbers exactly when the deltas outnumber those
  trades (`Recovery.RestartReusesNumbers`); they can balance (`Witnesses.CrashInFlight`).

## Model

| member | source | states |
|---|---|---|
| Levels.OrderList.PushBack | models/orderlist.go:41-52 | the links stay a doubly-linked FIFO list; the new node is last, nothing else moves |
| Levels.OrderList.Remove | models/orderlist.go:56-69 | removal at any position leaves a well-linked list of the other nodes in their order |
| Levels.MatchEngineEntry.AddOrder | models/orderbook.go:29-33 | the cached total stays the sum of the queue when an order joins |
| Levels.MatchEngineEntry.RemoveNode | models/orderbook.go:37-40 | the cached total stays the sum when any order leaves |
| Levels.MatchEngineEntry.ReduceHead | models/orderbook.go:45-49 | only the oldest order shrinks, the total follows |
| Levels.MatchEngineEntry.ReduceNode | models/orderbook.go:53-57 | only the given order changes volume, the total follows |
| Sides.BookSide.Search | models/orderbook.go:179-185 | binary search in either direction returns the first index past the price |
| Sides.BookSide.SearchIsExact | models/orderbook.go:322-333 | the search for an existing level lands on that level, so "level not found" cannot happen |
| Sides.BookSide.AddSide | models/orderbook.go:166-192 | both branches add the order at the tail of its price; the slice stays strictly sorted and the price map in bijection with it; a new level is put in at one place and nothing else moves |
| Sides.BookSide.RemoveLevel | models/orderbook.go:319-337 | exactly the given level leaves slice and map, the other objects stay in place; the error branch is proved dead |
| Sides.BookSide.RemoveFront | models/orderbook.go:342-359 | exactly the best level leaves slice and map |
| Ladders.PutInserts | models/orderbook.go:174-188 | giving a queue to a price without level is insertion at the unique sorted index |
| Ladders.PutReplaces | models/orderbook.go:319-337 | giving a queue to an existing level is replacement there, or removal when the queue is empty |
| Ladders.LadderExtensionality | models/orderbook.go:62-68 | a strictly sorted ladder without empty levels is determined by its queue at every price |
| Takers.LadderPrices | models/orderbook.go:62-68 | in every book whose ladders are right, bids strictly descend and asks strictly ascend |
| Orderbooks.Orderbook.constructor | models/orderbook.go:118-125 | a new book is valid and empty |
| Orderbooks.Orderbook.ValidChecks | models/orderbook_fuzz_test.go:7-16 | every valid book meets the six invariants of the fuzz test and the documented ones on slices, maps, index, back-pointers and totals |
| Orderbooks.Orderbook.IndexIsLookup | models/orderbook.go:69-71 | the order index holds exactly the resting orders |
| Orderbooks.Orderbook.Add | models/orderbook.go:149-192 | on any book whose ladders are right, any order is rested as specified, its index entry overwritten and at most its own level added to slice and map; a valid book stays valid exactly when the id was free and the volume positive |
| Orderbooks.Orderbook.Cancel | models/orderbook.go:294-316 | the heap cancel computes the specified one, with error, level removal and delta; exactly its id leaves the index and exactly its level, if emptied, the slice and map of its side |
| Orderbooks.Orderbook.ReduceVolume | models/orderbook.go:273-289 | computes the specified reduction with both errors; the book stays valid exactly when no resting order gets a negative volume |
| Orderbooks.Orderbook.LookupOrder | models/orderbook.go:257-264 | finds exactly the resting orders, by copy |
| Orderbooks.Orderbook.EmitDelta | models/orderbook.go:102-113 | without a sink nothing happens; with one the delta takes the next number |
| Orderbooks.Orderbook.AddConditionalOrder | models/orderbook.go:196-198 | a stop order joins the end of its queue and nothing else changes |
| Orderbooks.Orderbook.ApplySTP | models/orderbook.go:463-505 | each self-trade mode, also an unknown one, does what one step of the specification does |
| Orderbooks.Orderbook.MatchHead | models/orderbook.go:405-439 | one turn of the inner loop is one step, with its match number and change flag |
| Orderbooks.Orderbook.DrainLevel | models/orderbook.go:402-439 | the inner loop is the greedy recursion on the level's queue |
| Orderbooks.Orderbook.MatchLevel | models/orderbook.go:393-455 | one turn of the outer loop, with level removal and one delta if the level changed |
| Orderbooks.Orderbook.MatchTaker | models/orderbook.go:375-458 | the nested loops terminate and compute the specified matching, matches and remainder |
| Matching.StepShows | models/orderbook.go:414-418 | comparing totals detects every change self-trade prevention makes to the queue |
| Matching.GreedyConcat | models/orderbook.go:393-457 | matching level by level is matching the concatenated queues |
| Matching.GreedyTakesPrefix | models/orderbook.go:404-439 | a pass consumes exactly a prefix, reduces at most the next order, leaves the rest |
| Matching.GreedyFillsInOrder | models/orderbook.go:404-439 | each fill takes a positive part of a queue position that is gone afterwards or is the new head |
| Matching.GreedyConserves | models/orderbook.go:423-438 | per order id, what went in is what rests, was traded or was withdrawn |
| Matching.GreedyTotals | models/orderbook.go:425-430 | without own orders the traded total is the smaller of demand and supply |
| Matching.GreedyShares | models/orderbook.go:404-439 | without own orders the i-th order gets its volume or what those ahead of it left |
| Invariants.RestExact | models/orderbook.go:149-192 | resting an order keeps the invariant exactly when it is positive and its id is not resting |
| Invariants.LookupLocates | models/orderbook.go:69-71 | the order under an id sits in the queue of its own side and price |
| Invariants.CancelKeeps | models/orderbook.go:294-316 | cancelling keeps the invariant, frees the id and touches no other id |
| Invariants.ReduceExact | models/orderbook.go:273-289 | reducing keeps the invariant exactly when no resting order gets a negative volume |
| Invariants.MatchTakerKeeps | models/orderbook.go:375-458 | matching keeps the invariant and adds no id |
| Execution.MatchingIsGreedy | models/orderbook.go:375-458 | matching is one greedy pass over the crossing orders in price and arrival order; matches report its fills one by one |
| Fills.BestExecution | models/orderbook.go:388-439 | every match names the taker and a resting order of someone else on the other side, for a positive volume at that order's price, within the limit; prices only recede |
| Takers.SubmitIsHonest | models/orderbook.go:425-430 | the same for any submission, whatever its time in force and mode; only a market order has no limit |
| Fills.NoSelfMatch | models/order.go:90-100 | a submitted order with a user never trades with that user, in any mode |
| Fills.FillsRespectPriority | models/orderlist.go:17-22 | when an order is filled, every order with better priority has left the book |
| Fills.FullyTraded | models/orderbook.go:404-439 | a pass fills the taker in full exactly when the usable volume covers it |
| Fills.FillOrKill | matchEngine/matchEngine.go:77-99 | accepted exactly when crossing volume covers the order; refused means unchanged; filled in full exactly when usable volume covers it |
| Fills.DryRunIsExact | matchEngine/matchEngine.go:138-168 | without an own order in reach the dry run, the total, the remainder and the matches agree |
| Fills.UsableAll | models/orderbook.go:388-423 | without an own order in the queue all of it is usable |
| Fills.FillOrKillRemainder | matchEngine/matchEngine.go:86-90 | an order that passed the check is left without a remainder exactly when it does not cancel its own resting orders or the others cover it |
| Fills.FillOrKillCountsOwnOrders | matchEngine/matchEngine.go:155-166 | an accepted fill-or-kill order against one's own order trades nothing |
| Fills.FillOrKillLeavesRemainder | matchEngine/matchEngine.go:86-90 | one that cancels its own order is accepted, trades nothing and is left with a remainder |
| Takers.CrossingIsWithin | matchEngine/matchEngine.go:141-168 | the levels walked from the best one hold exactly the volume within the limit, wherever it rests |
| Takers.LimitAccepts | matchEngine/matchEngine.go:71-83 | accepted exactly when, post-only, no volume is within the limit and, fill-or-kill, enough is; refused means unchanged |
| Takers.LeftoverIsStuck | models/orderbook.go:393-400 | volume is left over only when every level opposite lies beyond the limit, or none is left for a market order |
| Takers.PassTotals | models/orderbook.go:375-458 | without an own order opposite the matches are, in turn, with the orders faced, each for its volume or what is left, up to the smaller of demand and volume within the limit |
| Takers.MarketOutcome | matchEngine/matchEngine.go:102-106 | a market order takes the smaller of its volume and all there is, whatever its price field, and never rests |
| Takers.SubmitOutcome | matchEngine/matchEngine.go:56-115 | acceptance, traded volume, partners and resting remainder of a submission that faces no own order, in prices and volumes |
| SelfTrades.FillsAreUsable | models/orderbook.go:412-439 | except in the decrement mode a pass trades as if it met the usable orders only, none its own |
| SelfTrades.MeetsOwn | models/orderbook.go:463-505 | what is left of taker and queue when the taker meets its own order, for every mode |
| SelfTrades.OwnOrdersStay | models/orderbook.go:465-470 | cancel-taker and unknown modes leave every own resting order as it was |
| SelfTrades.DecrementIsPlain | models/orderbook.go:484-496 | a decrement pass leaves queue and remainder as a pass without prevention would; its fills are that pass's fills of other users' orders, and it cuts the rest |
| SelfTrades.DecrementLeaves | models/orderbook.go:484-496 | in the book every order a decrement taker may take from, own or not, rests on exactly when it exceeds what those ahead leave of the taker, reduced by that |
| SelfTrades.DecrementKeepsResting | models/order.go:68-71 | five against one's own eight leaves three resting |
| SelfTrades.DefaultIsSafe | models/order.go:87-100 | an order with a user and no mode never touches its user's orders; normalising twice is normalising once |
| TimeInForce.BestDecides | matchEngine/matchEngine.go:117-136 | the check of the best level decides whether any level crosses |
| TimeInForce.PostOnlyNeverTakes | matchEngine/matchEngine.go:72-75 | post-only is accepted exactly when nothing crosses, never trades, and rests in full |
| TimeInForce.RemainderRests | matchEngine/matchEngine.go:85-97 | exactly which remainders rest, with what volume, and last in the queue |
| TimeInForce.MarketNeverRests | matchEngine/matchEngine.go:102-106 | a market order leaves nothing on the book |
| Stops.StopWaits | models/order.go:155-170 | a stop order is put aside, and nothing else happens, exactly when a buy has a negative trigger, a sell a positive one, or it is neither |
| Stops.OnlyStopsWait | matchEngine/matchEngine.go:108-115 | no other operation adds to the queue of stop orders and none takes from it |
| Stops.PromotesPerShot | matchEngine/matchEngine.go:40-51 | a waiting buy is submitted once per match at its trigger or below, a sell once per match at its trigger or above |
| Stops.PromotesInTurn | matchEngine/matchEngine.go:40-51 | the walk takes the waiting orders oldest first |
| Stops.LiveWalks | market/market.go:215-270 | the market walks after submissions only, over the matches of the submission; no stop order leaves the queue |
| Answers.SubmitAnswers | matchEngine/matchEngine.go:29-83 | exactly when a submission is refused, in prices and volumes, and with which literal reason |
| Answers.CancelAnswers | models/orderbook.go:247-248 | a cancel fails exactly for an id that does not rest, with its literal text, and then changes nothing |
| Answers.ReduceAnswers | models/orderbook.go:250-281 | exactly when a reduction fails, with which error and text; then it changes nothing |
| Answers.ModifyAnswers | matchEngine/matchEngine.go:195-227 | what a modify answers for itself, and when the submission answers for it |
| Engine.WouldCross | matchEngine/matchEngine.go:119-136 | computes the specified check |
| Engine.CanFullyFill | matchEngine/matchEngine.go:141-168 | the early-exit walk decides whether the crossing volume covers the order |
| Engine.HandleLimitOrder | matchEngine/matchEngine.go:71-100 | pre-checks, matching and resting as specified for any order; the book stays valid exactly when the order does not clash |
| Engine.HandleMarketOrder | matchEngine/matchEngine.go:102-106 | as specified, and a valid book |
| Engine.HandleStopLimitOrder | matchEngine/matchEngine.go:108-115 | triggered at price zero or queued; valid exactly when a triggered one does not clash |
| Engine.MatchAndAddNewOrder | matchEngine/matchEngine.go:56-69 | normalises, dispatches, refuses unknown types; valid exactly when the submission does not clash |
| Engine.CancelOrder | matchEngine/matchEngine.go:172-174 | as specified, and a valid book |
| Engine.ModifyOrder | matchEngine/matchEngine.go:195-227 | the three-way modify as specified for any price and volume; valid exactly when no negative volume is asked for at the resting price |
| Runs.MatchingIsMaximal | models/orderbook.go:393-457 | a positive remainder means that nothing it could take is left; no level is added |
| Runs.RestUncrossed | matchEngine/matchEngine.go:93-96 | resting such a remainder keeps every bid below every ask |
| Runs.ModifySound | matchEngine/matchEngine.go:195-227 | modify keeps the invariant exactly when it asks for no negative volume at the resting price |
| Clashes.RemainderLeaves | models/orderbook.go:375-458 | the greedy pass gives the remainder of a limit order; if there is one, the reachable orders are gone and all others stay |
| Clashes.SubmitKeeps | matchEngine/matchEngine.go:56-115 | a submission keeps the invariant exactly when it does not clash, which a free id never does |
| Runs.ApplySound | matchEngine/matchEngine.go:56-227 | one operation keeps the invariant and the spread exactly when it is admissible |
| Runs.RunSound | models/orderbook_fuzz_test.go:137-227 | every admissible run of submissions, cancels and modifies keeps the invariant |
| Runs.RunExact | models/orderbook_fuzz_test.go:111-117 | every state of a run is sound exactly when each of its operations was admissible |
| Runs.NeverCrossed | matchEngine/matchEngine.go:71-100 | the best bid is below the best ask after every run, whatever its ids and volumes |
| Plans.ApplyLeads | matchEngine/matchEngine.go:56-227 | books with the same ladders make the same legal moves and give the same answer, whatever their counters and sinks |
| Feed.RunNumbers | models/orderbook.go:200-206 | over every run without promotion trades and deltas are numbered without gap or repeat; without a sink the trades alone are; every delta names the book's symbol |
| Feed.RunFeeds | models/orderbook.go:99-113 | over every such run, from the moment a sink is installed, the deltas rebuild the aggregated book and each changes it; zero is sent exactly when a level disappears |
| Publishing.PassNews | models/orderbook.go:440-455 | in one pass the matches of a level come before its delta, a level has at most one, and each level that trades has one |
| LiveReports.LiveRunFeeds | market/market.go:188-270 | the same, numbers and feed, over every run of the live market with its promotions |
| LiveReports.LiveRunAccounts | market/market.go:188-270 | over such a run every book is sound and an id's filled, resting, queued and withdrawn volume grows by what is submitted and promoted under it, and nothing else |
| LiveReports.LiveNeverOverfilled | models/orderbook.go:425-438 | no id is ever filled beyond what was submitted and promoted under it |
| Priority.ApplyKeepsOrder | matchEngine/matchEngine.go:206-226 | an operation never reorders two orders at a price unless it re-queues one of them |
| Priority.RunKeepsOrder | models/orderlist.go:17-22 | nor does any run |
| Ledger.ApplyBalance | matchEngine/matchEngine.go:56-227 | one operation changes an id's filled, resting, queued and withdrawn volume by what it submits, and nothing else |
| Ledger.RunBalance | models/orderbook.go:423-505 | the same over every run without promotion |
| Ledger.NeverOverfilled | models/orderbook.go:425-438 | in no such run is an id filled beyond what was submitted under it |
| Recovery.ApplyReplays | market/market.go:120-133 | a book and its replay stay in step under every operation without promotion |
| Recovery.LiveReplays | market/market.go:215-232 | with promotion they do exactly when the operation is quiet |
| Recovery.RecoverableIffQuiet | market/market.go:97-133 | the journal replays to the live book wherever the market stops exactly when every operation was quiet |
| Recovery.RestartCounts | market/market.go:97-118 | in every reachable state of a quiet journal a restart moves the counter by the trades of the operation in flight, less the deltas published since the last start |
| Recovery.RestartReusesNumbers | models/orderbook.go:78-80 | so it lowers the counter exactly when those deltas outnumber those trades; without an operation in flight, exactly when a delta was published |
| Recovery.HandleIsTwoSteps | market/market.go:171-277 | in every reachable state an operation that keeps the journal quiet may be handled, is appended unless it is an order without type, side, price or symbol, and handling it is its append and its completion |
| Witnesses.RestartRepeats | market/market.go:97-110 | one resting order and a restart hand out number 1 twice |
| Witnesses.CrashInFlight | market/market.go:97-110 | a crash between append and apply after one delta brings the counter back to where it was |
| StopFree.StopFreeIsRecoverable | market/market.go:97-133 | a journal without stop orders is quiet, so every crash is recovered from |
| Recovery.RecoveryIsExact | market/market.go:97-133 | in every reachable state of a quiet journal, with crashes anywhere, replay gives the ladders, queues and trades of the completed live run; counters differ by exactly the deltas published |
| Promotions.LiveIsApply | matchEngine/matchEngine.go:40-51 | the live path is the plain operation exactly when every triggered stop order is empty or would be refused; otherwise it leaves more trades, withdrawals or resting orders |
| Promotions.PromotesExact | matchEngine/matchEngine.go:40-51 | every state of the promotion walk is sound exactly when no triggered order clashes in its turn |
| Promotions.LiveSound | market/market.go:215-232 | an operation and its promotions keep the invariant under that check |
| Promotions.QuietIsAllowed | market/market.go:215-232 | an admissible operation whose promotions do nothing is one that the market may handle |
| Promotions.PromotedTwice | matchEngine/matchEngine.go:40-51 | an order triggered by two matches that meets nothing clashes with itself |
| Witnesses.StopRestsTwice | matchEngine/matchEngine.go:40-51 | from the empty market, two sells, a sell stop and a buy of both leave the stop order resting twice |
| LiveRuns.LiveNeverCrosses | market/market.go:188-270 | in every live run with promotions, re-used ids and any volumes the ladders stay sorted, filled and uncrossed |
| LiveRuns.LiveStaysPositive | market/market.go:188-270 | and positive, as long as no modify asks for a negative volume in place |
| LiveRuns.LiveIsStep | market/market.go:188-270 | what the market does by the order it looks up is such a step |
| Witnesses.PromotionIsNotReplayed | matchEngine/matchEngine.go:40-51 | three operations after which live and replayed book differ, because replay promotes no stop order |
| Markets.ApplyJournalRecord | market/market.go:124-133 | applies any record as specified; the book stays valid exactly when it was admissible |
| Markets.Market.constructor | market/market.go:84-118 | the book read from the loaded snapshot, or an empty book without one, then replay, then the sink |
| Markets.Restart | market/market.go:84-118 | a start from the snapshot of a book goes on with its ladders, stop orders and counter |
| Markets.StartFrom | market/market.go:84-95 | so does a start from any readable loadable snapshot with an empty journal |
| Markets.Market.Handle | market/market.go:171-277 | journal first, then apply and promote; an order without type, side, price or symbol or a failed append changes neither |
| Markets.Market.HandleConditionalOrders | matchEngine/matchEngine.go:40-51 | the walk submits every triggered order once per match and collects its matches |
| Laws.AddThenCancel | models/orderbook.go:149-192 | cancelling an order just added restores both ladders and every queue; only the counter has moved |
| Undo.AddThenCancel | models/orderbook.go:294-337 | on the heap it also brings back both slices of levels, both price maps and the order index, with the same objects |
| Laws.ModifyInPlace | matchEngine/matchEngine.go:206-214 | a decrease at the same price changes one volume and its level's total and nothing else |
| Laws.ModifyOtherwise | matchEngine/matchEngine.go:201-226 | in every other modify the cancel cannot fail, so its error branch is dead, and frees the id, so the resubmission never clashes |
| Laws.SameModifyLosesPlace | matchEngine/matchEngine.go:201-226 | a modify to the price and volume an order has puts it last in its queue |
| Laws.CancelTakesOut | models/orderbook.go:294-316 | exactly the order leaves its queue, every other queue stays |
| Laws.RefusedIsJournaled | market/market.go:188-213 | a submission that fails a guard leaves the book as it was and a record in the journal |
| Laws.RefusedModify | matchEngine/matchEngine.go:195-227 | a modify is refused exactly when the id is unknown or the guards fail on the book before it; then it changes nothing exactly when the id was unknown, and otherwise the order is gone |
| Witnesses.PostOnlyMoveIsLost | matchEngine/matchEngine.go:223-226 | a resting post-only order moved to a crossing price is refused and gone |
| Laws.RunSame | models/orderbook.go:72-90 | a run depends on the ladders alone |
| Laws.SnapshotIsTransparent | models/orderbook.go:544-587 | a book read back from its snapshot goes on as the one that was written |
| Laws.SnapshotReplayExact | market/market.go:89-104 | replaying the whole journal over a snapshot taken after any of its records passes through sound books exactly when every record is admissible where it is applied |
| Laws.SnapshotReplaySame | market/market.go:97-104 | such a start gives the ladders of the journal, however it goes on after the snapshot, exactly when replaying the records up to the snapshot over it leaves its ladders alone |
| Witnesses.SnapshotMisleads | market/market.go:89-104 | three admissible records that replay over their own snapshot to other ladders |
| Laws.ReplayedTwice | market/market.go:124-128 | the record of an order that still rests as submitted always clashes |
| Witnesses.SnapshotThenJournal | market/market.go:89-104 | one resting order in snapshot and journal makes the recovered book unsound |
| Fixed.ReadDigits | models/fixed.go:149-158 | the digit loop in wrapping arithmetic gives the wrapped value of the digits |
| Fixed.ParseFixed | models/fixed.go:126-184 | the parser gives the decimal's meaning wrapped once, or the error of the first fault |
| Fixed.ParseTruncates | models/fixed.go:126-184 | a text of digits has exactly one truncated signed decimal, and parses to it exactly when it fits in 64 bits |
| Fixed.MagnitudeTruncates | models/fixed.go:98-100 | the magnitude is the decimal times 10^8 rounded toward zero |
| Fixed.RoundTrip | models/fixed.go:186-200 | printing and parsing back is the identity exactly on every 64-bit value but the smallest |
| Fixed.JSONRoundTrip | models/fixed.go:229-247 | the same through the JSON form, quoted or bare |
| Texts.ParsesText | models/fixed.go:126-184 | every numeral (sign, digits, a dot and up to eight digits that count, anything after them) parses to its amount |
| Texts.OnlyNumeralsParse | models/fixed.go:126-184 | nothing else parses |
| Texts.TrimsBothEnds | models/fixed.go:127 | spaces on either side of a text do not count |
| Texts.PrintsText | models/fixed.go:186-200 | the printed text is a sign if negative, the whole part without leading zero, a dot and always eight digits |
| Texts.QuotesAreOptional | models/fixed.go:238-247 | JSON parses what is between the quotes, or all of it without; empty input fails, a single quote panics |
| Texts.ExampleSigns | models/fixed_test.go:30-32 | a plus sign and a missing whole part parse as expected there |
| Texts.ExampleFractions | models/fixed_test.go:27-29 | a negative fraction and a ninth digit parse as expected there |
| Texts.ExampleFaults | models/fixed_test.go:45-54 | the bad texts do not parse |
| Texts.ExampleTexts | models/fixed_test.go:19-32 | the literal texts printed there |
| Snapshot.OrderRoundTrip | models/order.go:102-153 | an order reads back as written exactly when none of its numbers is the smallest; otherwise reading panics |
| Snapshot.RestLadder | models/orderbook.go:548-559 | re-adding a ladder's orders one by one rebuilds it, after every level |
| Snapshot.BookRoundTrip | models/orderbook.go:544-587 | writing and reading a valid book gives the same ladders, queues, stop orders and counter, exactly when all numbers are printable |
| Snapshot.LoadsWellFormed | models/orderbook.go:544-564 | a readable snapshot rebuilds a well-formed book exactly when the orders that rest are positive and no two share an id |
| Snapshot.WrittenIsLoadable | models/orderbook.go:566-587 | what is written from a valid book is such a snapshot |
| Texts.SnapshotSays | models/orderbook.go:566-587 | which field of a snapshot says what: bids as buys, asks as sells, each level under the text of its price, each order field by field |
| Texts.SaidBookReads | models/orderbook.go:544-564 | a snapshot that says so reads as that book, whoever wrote it |
| Restore.ToProto | models/orderbook.go:566-587 | walking the heap book writes exactly that snapshot |
| Restore.FromProto | models/orderbook.go:544-564 | re-adding through binary search rebuilds the heap book of the specified value from any snapshot, or panics on a corrupt number; the book is valid exactly when the snapshot is loadable |
| Restore.WriteAndRead | models/orderbook.go:544-587 | a valid heap book written and read back is a fresh valid book with the same ladders, queues, stop orders and counter, or a panic exactly when a number does not print |

## Left out

- Orderbooks.Orderbook.Add: what the index holds after an id has come to rest twice. It and `AddConditionalOrder` need only right ladders; the other operations on the heap start from a valid book, and on a book that a clash or a negative volume has broken they are not modelled. `LiveRuns` follows only the ladders.
- Markets.Market.Handle: asks for an operation that is admissible and whose promotions do not clash (`Promotions.LiveAllowed`), without which the book is broken on the way.
- Markets.Market.HandleConditionalOrders: asks that no triggered order clashes, for the same reason.
- Markets.Market.constructor: asks for a snapshot that reads and is loadable, and for a journal that is admissible over it. A corrupt snapshot panics before there is a market.
- Recovery.RecoveryIsExact: asks for a quiet journal, and the market it starts has no snapshot. That quiet is also needed is `Recovery.RecoverableIffQuiet`.
- LiveRuns.LiveNeverCrosses: leaves open which of several orders with one id the index finds, which is more than the source does.
- The 64-bit wrap-around of prices, volumes and level totals inside the book, and of the sequence counter; the source documents that it does not check them. `Fixed` has the wrap-around of the text conversion.
- The match id, which nothing in the matching code sets.
- Kafka, Redis, the journal's files and syncing, HTTP, metrics, tracing, environment variables and logging; JSON and protobuf beyond the text of the numbers.
- Goroutines, channels, draining and the registry: a market is a sequence of operations.
- Sinks for matches, rejections and whole books, which only pass results on; counters of levels and orders.
- Lazy creation of the maps: a book has them from its construction.
