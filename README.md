# Poloniex order-book state, modelled in Dafny

This project models the order-book state engine of a Poloniex market-data client.
It has two independent halves, and both work on decoded feed messages.

- **`PLNXConnection` and `orderBook`** (connection.py). There is one `orderBook` per symbol. It holds parallel price and size lists for each side, plus the last trade. An upsert cuts its side to `max_size` (5) levels; a snapshot appends its best five levels to whatever the side already holds, so a side can grow past five; a removal never cuts and pads its side with zero levels to at least five. `_on_message` routes each tick of a channel message to its book:
  - `'i'` snapshots,
  - `'o'` order updates and removals,
  - `'t'` trades.

  It hands the resulting book or trade to the `onUpdate` callback. The `disconnect`, `reconnect` and `_on_error` calls drive the flags that guard the reconnect loop.
- **`PoloniexPush` and `Book`** (pusherclientb). A `Book` is written position by position through `onQuote` and keeps the last trade, deduplicated by trade id. Three helpers work on a `Book`:
  - `setBidAsk` writes a sorted snapshot from index 0;
  - `updateBidAsk` inserts one level and pops the tail;
  - `orderRemoval` pops matching levels in place.

  `onUpdate` routes `'o'` and `'t'` ticks to them.

Files:

- `levels.dfy` (module `Levels`): the level and ranking vocabulary.
  - A level is a price and a size. Asks rank by ascending price, bids by descending price.
  - Python's stable `sorted` is `SortLevels`, an insertion sort that puts each level after the levels of equal price.
  - `Top` is `sorted(...)[:n]`, `RemovePrice` is the price filter and `PadTo` is the zero padding.
- `feed.dfy` (module `Feed`): the decoded messages and ticks, the heartbeat code 1010, the removal size string `"0.00000000"`, and the exceptions that escape a handler.
- `plnx_order_book.dfy` (module `PlnxOrderBook`): `orderBook` as a class with sequence fields. Each method is proved against a function on the book's value (`Snapped`, `Removed`, `Upserted`), and lemmas state what those functions promise.
- `plnx_connection.dfy` (module `PlnxClient`): `PLNXConnection`. It covers the tick routing with its notifications, proved against `ApplyTicks` / `EmittedAll`, and the reconnect flags, with `Replay` over any sequence of calls.
- `push_book.dfy` (module `PushBook`): `Book` as a class.
- `push_utils.dfy` (module `PushUtils`): `setBidAsk`, `updateBidAsk` (as written, and `UpdateBidAskPerElement` with the corrected bid test) and `orderRemoval`. The removal loop is modelled with the bound it fixes before the loop, so its IndexError is part of the model.
- `push_client.dfy` (module `PushClient`): `PoloniexPush` and its dispatch. It is proved against `ApplyPushTicks`, which stops at the first tick that raises.

Three behaviours of the code are easy to miss, and the model follows the code:

- `snapAsks` and `snapBids` append the snapshot to the lists already held; they do not replace them.
- `updateBidAsk` in connection.py does no deduplication: an existing level at the same price stays beside the new one.
- `orderRemoval` in connection.py pads the side back to five levels with zero levels. On the ask side these `0.0` levels rank ahead of every real ask, so after a removal leaves fewer than five asks, the next ask upsert makes the best ask 0.0 (`PaddedAskLeads`).

Two modelling conventions:

- Each message is taken as already decoded. Prices and sizes are `real`, because they are only compared and copied.
- `SYMBOL_CODE` / `CODE2SYMBOL` are given maps from channel code to symbol. They are keyed by the integer code; the source keys them by its decimal string.

## Model

| member | source | states |
|---|---|---|
| Levels.SortLevels | connection.py:32 | sorting keeps the length and the multiset of levels (a permutation) |
| Levels.SortLevelsOrdered | connection.py:120-122 | the sorted levels are in ranking order: ascending asks, descending bids |
| Levels.SortAppended | connection.py:114-122 | appending a level to an ordered side and sorting places the new level after every level of equal price; old equal-price levels are kept |
| Levels.TopIsBest | connection.py:30-32 | `sorted(...)[:n]` has `min(n, len)` levels, in order, drawn from the input, and no level left out ranks strictly ahead of one kept |
| Levels.PlaceOrdered | pusherclientb/utils.py:100-111 | inserting before the first level the new one ranks ahead of keeps a side ordered |
| Levels.PlaceAt | pusherclientb/utils.py:100-111 | the insertion point is the first index whose level the new level ranks strictly ahead of |
| Levels.RemovePrice | connection.py:63-67 | the filter never grows the side, keeps no level at the price, and keeps only old levels |
| Levels.RemovePriceCounts | connection.py:63-67 | every level at another price keeps its multiplicity |
| Levels.RemovePriceSubsequence | connection.py:63-67 | the kept levels stay in their old order, with their own sizes |
| Levels.RemovePriceAbsent | connection.py:63-67 | removing an absent price leaves the side unchanged |
| Levels.RemovePriceOrdered | connection.py:84-88 | removal keeps an ordered side ordered |
| Levels.PadTo | connection.py:69-73 | padding reaches `max(len, n)` levels, keeps the old ones in front and adds only zero levels |
| PlnxOrderBook.StripUnderscores | connection.py:17 | the book symbol has no underscore, is no longer than the input, and equals an input without underscores |
| PlnxOrderBook.StripUnderscoresSplits | connection.py:17 | stripping distributes over concatenation, drops `'_'` and keeps every other character, so the other characters stay in order |
| PlnxOrderBook.PairSymbolStripped | connection.py:17 | the pair `"BTC_ETH"` gets the book symbol `"BTCETH"` |
| PlnxOrderBook.OrderBook.constructor | connection.py:16-24 | a new book has empty lists, no last price or size and an empty trade id |
| PlnxOrderBook.OrderBook.SnapAsks | connection.py:26-37 | the ask side becomes the old asks followed by the best five snapshot asks; returns the ask lists; nothing else changes |
| PlnxOrderBook.OrderBook.SnapBids | connection.py:39-50 | the bid side becomes the old bids followed by the best five snapshot bids; returns the bid lists; nothing else changes |
| PlnxOrderBook.SnappedAppendsBest | connection.py:30-50 | a snapshot appends at most five levels, in ranking order, none beaten by a snapshot level left out; the old levels stay in front |
| PlnxOrderBook.OrderBook.OrderRemoval | connection.py:52-97 | the chosen side becomes the price-filtered side padded to five levels; the other side and the trade are unchanged |
| PlnxOrderBook.OrderBook.KeepOtherPrices | connection.py:60-67 | the filtering loop yields exactly the levels whose price differs from the target, in order, with their sizes |
| PlnxOrderBook.OrderBook.PadWithZeros | connection.py:69-73 | the padding yields the levels followed by zero levels up to five, both lists of equal length |
| PlnxOrderBook.RemovedDropsPrice | connection.py:57-97 | after a removal the side has at least five levels; other prices keep their order, sizes and counts; only zero levels follow them |
| PlnxOrderBook.OrderBook.UpdateTrade | connection.py:100-103 | last price, size and trade id are overwritten unconditionally |
| PlnxOrderBook.OrderBook.UpdateBidAsk | connection.py:105-139 | the chosen side becomes the old side plus the new level, sorted and cut to five |
| PlnxOrderBook.OrderBook.SortAndCut | connection.py:118-122 | the explicit length test gives the same levels as slicing: the side sorted, then its first five kept |
| PlnxOrderBook.UpsertedSortsAndBounds | connection.py:112-139 | an upsert leaves an ordered side of `min(len+1, 5)` levels; below five levels it holds every old level plus the new one (no dedup); on an ordered side the new level lands after equal prices |
| PlnxOrderBook.SortedAskFirstIsLowest | connection.py:118-122 | the first level of a sorted ask side is one of its levels and has the lowest price |
| PlnxOrderBook.PaddedAskLeads | connection.py:69-73 | when fewer than five asks survive a removal and no price is negative, the next ask upsert puts a padding price of 0.0 first |
| PlnxClient.PlnxConnection.constructor | connection.py:143-151 | one fresh empty book per symbol; the flags start cleared, with interval 3 |
| PlnxClient.PlnxConnection.OnMessage | connection.py:200-248 | a heartbeat changes nothing; an unknown code or an error reply raises KeyError before any change; otherwise the channel's book follows `ApplyTicks`, the notifications are `EmittedAll`, and other books are unchanged |
| PlnxClient.PlnxConnection.HandleTicks | connection.py:208-248 | the tick loop applies the ticks to the book in list order and collects their notifications in the same order |
| PlnxClient.PlnxConnection.HandleTick | connection.py:210-248 | one tick: snapshot, removal (size `"0.00000000"`), upsert (flag 0 = asks) or trade, with its notification |
| PlnxClient.ZeroSizeOrderRemoves | connection.py:218-228 | a removal tick touches only its side, which keeps at least five levels and has no real level at the price |
| PlnxClient.NonZeroOrderUpserts | connection.py:230-237 | any other order tick touches only its side, which stays ordered, `min(len+1, 5)` deep, and gains the level when below five |
| PlnxClient.PlnxConnection.Disconnect | connection.py:159-164 | clears `needs_reconnect` and sets `disconnect_called` |
| PlnxClient.PlnxConnection.Reconnect | connection.py:165-174 | stores the interval (3 when none is given) and sets `needs_reconnect` |
| PlnxClient.PlnxConnection.OnError | connection.py:250-254 | sets `needs_reconnect` |
| PlnxClient.DisconnectIsFinal | connection.py:159-191 | after `disconnect`, no sequence of `reconnect`/`_on_error` calls makes the reconnect loop run again |
| PlnxClient.ReconnectArmsLoop | connection.py:165-172 | before any disconnect, `reconnect` or an error arms the reconnect loop; no interval means 3 |
| PushBook.Book.constructor | pusherclientb/book.py:7-17 | a new book has empty lists, `ltp = lts = 0.0` and an empty trade id |
| PushBook.Book.BidPrice | pusherclientb/book.py:19-22 | 0 for an empty bid list, otherwise the bid at `limit` |
| PushBook.Book.AskPrice | pusherclientb/book.py:24-27 | 0 for an empty ask list, otherwise the ask at `limit` |
| PushBook.Book.BidSize | pusherclientb/book.py:29-32 | 0 for an empty list, otherwise the bid size at `limit` |
| PushBook.Book.AskSize | pusherclientb/book.py:34-37 | 0 for an empty list, otherwise the ask size at `limit` |
| PushBook.Book.PadWithZeros | pusherclientb/book.py:45-48 | the list grows with zeros to `max(len, limit+1)` and keeps its old entries |
| PushBook.Book.OnQuote | pusherclientb/book.py:39-61 | only index `limit` of the chosen side changes, after zero padding to `max(len, limit+1)`; the other side and the trade are untouched; the readers then return the new price and size |
| PushBook.Book.OnTrade | pusherclientb/book.py:63-67 | a repeated trade id is a no-op; any other id sets last price, size and id |
| PushBook.Book.PopDownTo | pusherclientb/book.py:77-78 | the list is cut to its first `min(len, limit)` entries |
| PushBook.Book.Clear | pusherclientb/book.py:76-84 | each list is cut to at most its limit and never grows; the trade is untouched |
| PushBook.OverwriteKeepsTail | pusherclientb/utils.py:58-61 | writing a prefix from index 0 never shrinks a list and keeps every later index |
| PushUtils.WriteLevels | pusherclientb/utils.py:114-117 | the `onQuote` loop writes the lists over the side from index 0; the other side and the trade are untouched |
| PushUtils.SetBidAsk | pusherclientb/utils.py:39-73 | each side becomes the best `depth` snapshot levels written from index 0 over the old side |
| PushUtils.SetBidAskWritesBest | pusherclientb/utils.py:50-73 | the best `min(depth, n)` levels sit in ranking order at indices 0..; none is beaten by a level left out; later indices keep their old levels; the side never shrinks |
| PushUtils.FirstBehind | pusherclientb/utils.py:100-101 | the stopping index is the first level the new level ranks strictly ahead of, or the end |
| PushUtils.InsertLevel | pusherclientb/utils.py:94-111 | the insertion loop on the list copies yields the side with the level inserted before the first level it beats and the last level popped |
| PushUtils.InsertAndPopContents | pusherclientb/utils.py:100-117 | the length is unchanged; a level that beats no tracked level (or an empty side) leaves the side unchanged; otherwise the side trades its last level for the new one |
| PushUtils.InsertAndPopOrdered | pusherclientb/utils.py:100-117 | the insertion keeps the side ordered and its sizes paired |
| PushUtils.UpdateBidAsk | pusherclientb/utils.py:77-145 | as written: on the ask side the asks become `InsertAndPop` of the old asks and nothing else changes; on the bid side the whole-list test leaves the book unchanged |
| PushUtils.UpdateBidAskPerElement | pusherclientb/utils.py:77-145 | with the bid test corrected to `rate > bids[i]`: the chosen side becomes `InsertAndPop` of the old side; the other side and the trade are untouched |
| PushUtils.UpdateBidsAsWritten | pusherclientb/utils.py:122-145 | the bid branch as written leaves the whole book unchanged |
| PushUtils.BidTestNeverHolds | pusherclientb/utils.py:129 | under Python 2 ordering `rate > bids` is never true, so nothing is inserted |
| PushUtils.BetterBidIsDropped | pusherclientb/utils.py:128-133 | with bids 10.0, 9.5 a new bid of 10.5 is lost as written, and goes first with the per-element test |
| PushUtils.RaisesAfterPop | pusherclientb/utils.py:155-160 | once a pop has shortened the side below the fixed bound, the loop raises IndexError; the entries before the index are kept |
| PushUtils.ScanFromIndex | pusherclientb/utils.py:157-160 | from index `i`, the loop raises iff a later level before the last one has the price; without a raise it removes at most the last level |
| PushUtils.OrderRemovalOutcome | pusherclientb/utils.py:151-171 | removal raises iff a level before the last has the price, and then only after popping it; raised or not, it pops only levels at the price (every other level keeps its count, none is added); otherwise it equals the price filter; an absent price changes nothing |
| PushUtils.ScanFromStart | pusherclientb/utils.py:151-160 | from index 0 with the bound fixed at the side's length, the loop raises iff a level before the last has the price, is then shorter, and otherwise equals the price filter |
| PushUtils.ScanPopsOnlyPrice | pusherclientb/utils.py:155-160 | from any index and bound, the loop, raised or not, leaves every level at another price with its count and adds none |
| PushUtils.OrderRemoval | pusherclientb/utils.py:147-171 | pops both lists of the chosen side in place as the loop does, and reports IndexError exactly when the loop raises |
| PushUtils.RemoveBids | pusherclientb/utils.py:151-160 | the bid loop pops matching bids and their sizes in place at the same index and raises exactly as the scan does |
| PushUtils.RemoveAsks | pusherclientb/utils.py:162-171 | the ask loop pops matching asks and their sizes in place at the same index and raises exactly as the scan does |
| PushClient.NewBooks | pusherclientb/__init__.py:43 | one fresh empty `Book` per mapped symbol, named by the symbol, on exchange `'Poloniex'` |
| PushClient.PoloniexPush.constructor | pusherclientb/__init__.py:40-44 | every mapped symbol has its own fresh empty book; the connection starts out connected |
| PushClient.PoloniexPush.OnUpdate | pusherclientb/__init__.py:109-144 | an error reply changes nothing; a channel message sets `connected`; a heartbeat or an unmapped code changes no book; otherwise the code's book follows `ApplyPushTicks` and the other books are unchanged |
| PushClient.PoloniexPush.DispatchTicks | pusherclientb/__init__.py:135-144 | the ticks are applied in list order until one raises |
| PushClient.PoloniexPush.OrderBookEvent | pusherclientb/__init__.py:63-96 | flag 0 means asks; size `"0.00000000"` routes to removal, any other size to insertion with the corrected bid test |
| PushClient.PoloniexPush.TradeEvent | pusherclientb/__init__.py:98-106 | hands price `tick[3]`, size `tick[4]` and id `tick[1]` to `onTrade` |
| PushClient.OrderTickEffect | pusherclientb/__init__.py:68-96 | an order tick changes only its side and never the trade; a removal pops only levels at its price, raises iff a level before the last has the price, and otherwise filters it; an insertion keeps length and order |
| PushClient.RepeatedTradeIsIgnored | pusherclientb/__init__.py:98-106 | a trade tick delivered twice has the same effect as once, and records its id |
| PushClient.RaiseStopsTicks | pusherclientb/__init__.py:137-144 | after a tick raises, the later ticks are never applied |
| PushClient.UntaggedTicksIgnored | pusherclientb/__init__.py:137-144 | ticks tagged neither `'o'` nor `'t'`, snapshots included, change nothing |

## Left out

- Sockets, threads and timing are not modelled. This covers `connect_Socket`'s `run_forever` loop with its sleeps, `_on_open`, `_on_close`, `setBasicListener`'s callbacks, pusherclientb/connection.py (the watchdog thread) and poloniex.py. The reconnect-loop guard is modelled as the predicate `ReconnectLoopRuns`.
- HTTP calls are not modelled: `buildMap`, `getInitialSnapshot`, and `onConnect`'s subscriptions and snapshot fetch. The code-to-symbol map is a constructor parameter.
- Logging and formatting are not modelled: `logBidAsk`, `logTrade`, `printBook`, the logger setup, and the `onUpdate` callback's formatting.
- `PLNXConnection`'s `onUpdate` callback is modelled as the returned notifications, in order.
- `Book.snapshot` and the `update` list built inside `onQuote` are left out. They build lists that are discarded.
- `json.loads`, `float(...)` and IEEE floating point are not modelled. Ticks arrive decoded, and prices and sizes are exact reals.
- A snapshot map's iteration order is given by the order of its level list.
- client/__init__.py is not part of this model. It is a thin wrapper whose behaviour lives in classes that are not shown.
- The `limit` arguments of `Book` are `nat`. A negative Python index, which counts from the end, is not modelled.
- `PushClient.PoloniexPush.OnUpdate` routes bid insertions through the corrected per-element test, not the whole-list test of pusherclientb/utils.py:129. See Findings.
- `PushClient.PoloniexPush.DispatchTicks` and `PushClient.ApplyPushTicks` insert bids with the corrected per-element test, so a better bid enters the book, where the code as written drops it. See Findings.
- `PushClient.PoloniexPush.OrderBookEvent` calls `UpdateBidAskPerElement` and `PushClient.ApplyOrder` uses `InsertAndPop` on both sides: the corrected bid insertion. `PushUtils.UpdateBidAsk`, which models the code as written, is not used by the dispatcher.
- `PushUtils.UpdateBidAskPerElement` is the corrected `updateBidAsk`: its bid branch compares `rate` with `bids[i]`, not with the whole list as pusherclientb/utils.py:129 does.
- Timestamps (`ts`) are not kept. Neither half stores them in the book.

## Findings

| source | as written | input that shows it | evidently intended | confidence | as-written member | corrected member |
|---|---|---|---|---|---|---|
| pusherclientb/utils.py:129 | the bid insertion test is `rate > bids`, comparing the rate with the whole list; under Python 2 ordering a number is below every list, so the test never holds and the bid side is never updated | bids [10.0, 9.5] with sizes [1, 2], new bid (10.5, 3): the bids stay [10.0, 9.5] | `rate > bids[i]`, mirroring the ask branch: the result is [10.5, 10.0] | not executed | PushUtils.BetterBidIsDropped | PushUtils.UpdateBidAskPerElement |
