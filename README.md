# prism: a Dafny model

prism watches one currency pair on several crypto exchanges at once and
looks for cross-exchange arbitrage. A client per exchange subscribes to that
exchange's order-book feed over a WebSocket. It hands the first parsed
message to its adapter as a snapshot and every later one as an update. The
adapter converts the exchange's message types into common ones. It hands
them to the exchange's order book inside a shared spread table, then asks
the table to recompute every spread that involves that exchange.

The table keeps, for every ordered pair of exchanges (buy on one, sell on
the other), the spread between one's best ask and the other's best bid. It
counts spreads at or above five thresholds and remembers the best percentage it
has seen. It records the first new arbitrage opportunity, meaning a spread
of at least 0.2% whose sequence numbers differ from the last one recorded
for that pair.

A separate latency probe runs as an AWS Lambda. Every five minutes it GETs
each configured exchange endpoint. On status 200 it submits the latency, in
whole milliseconds, to CloudWatch, and it prints a JSON log record of every
response. The infrastructure code declares:

- the probe's schedules;
- a CloudWatch dashboard that plots the probe's metric per region;
- the VPC the stack runs in.

The model is organised by source file:

| module | models |
|---|---|
| `MultiBook` (`multi_book.dfy`) | the spread table of `core/src/order_book/multi_book.rs`: a class over two arrays, with the refresh loop and the scan loop |
| `OrderBook` (`order_book.dfy`) | the earlier table of `core/src/order_book/order_book.rs`: book objects and slot `a + S*b` |
| `GeminiAdapter`, `BitstampAdapter`, `KrakenAdapter`, `CoinbaseAdapter` | the four adapters: conversion loops into fixed-capacity vectors, size guards, and feeding the book |
| `GeminiClient`, `BitstampClient` | pair symbols, subscription messages, and the receive loops as sequences of adapter calls |
| `Ping`, `CorePing` | the two Lambda handlers, as functions from an event and a response to the effects they make |
| `PingInfra`, `PingMetrics`, `Vpc` | the deployment code: targets and schedules, the dashboard body, and the subnets |
| `OrderData`, `Socket`, `Probe` | shared types: the common order-book messages with `heapless::Vec` truncation, the socket stream, and the Lambda's inputs and effects |
| `Json`, `Decimal`, `Float`, `Arith`, `Wrappers` | support: JSON text as Python's `json.dumps` writes it, with a decoder; decimal text of integers; `f64` division and `>=`; integer facts; `Option` |

## Model

| member | source | states |
|---|---|---|
| `MultiBook.GetBest` | core/src/order_book/multi_book.rs:148-163 | the result is absent exactly when the book has no best price on that side; otherwise it is that price's level and sequence |
| `MultiBook.SpreadFromLevels` | core/src/order_book/multi_book.rs:118-120 | raw is `bid - ask` and the sequences are kept; the percentage is the exact ratio for a positive ask, and +inf, -inf or NaN for a zero ask |
| `MultiBook.SpreadThreshold` | core/src/order_book/multi_book.rs:92-110 | with a positive ask, the percentage reaches a threshold exactly when the profit is at least that fraction of the ask |
| `MultiBook.PairIndex` | core/src/order_book/multi_book.rs:66-71 | the index arithmetic `a*S + b - (a or a+1)` equals `a*(S-1) + (b, or b-1 when b > a)` and stays below `S*(S-1)` |
| `MultiBook.PairOf` | core/src/order_book/multi_book.rs:66-71 | every table index below `S*(S-1)` is the index of an ordered pair of distinct books |
| `MultiBook.PairOfIndex` | core/src/order_book/multi_book.rs:66-85 | reading the pair back from its index gives the pair |
| `MultiBook.PairIndexInjective` | core/src/order_book/multi_book.rs:66-85 | distinct ordered pairs write distinct entries |
| `MultiBook.PairSpread` | core/src/order_book/multi_book.rs:56-64 | the spread of buying on `a` and selling on `b` has raw `b.bid - a.ask` and the sequences (ask, bid) |
| `MultiBook.RefreshStep` | core/src/order_book/multi_book.rs:54-89 | visiting book `i` writes the forward entry (k, i) and then the reverse entry (i, k), each only when both prices exist; visiting `k` writes nothing |
| `MultiBook.RefreshPair` | core/src/order_book/multi_book.rs:54-89 | after the refresh, a pair's entry holds its spread if the pair involves `k` and both prices exist, and its old value otherwise |
| `MultiBook.FirstArb` | core/src/order_book/multi_book.rs:110 | the first index at or after `i` that is a new opportunity, with none before it |
| `MultiBook.CountAtLeast` | core/src/order_book/multi_book.rs:92-106 | a threshold count never exceeds the number of spreads |
| `MultiBook.TallyCounts` | core/src/order_book/multi_book.rs:90-109 | scanning adds to each counter the number of spreads at or above its threshold, leaves the opportunity count alone, and ends at the running maximum |
| `MultiBook.Scanned` | core/src/order_book/multi_book.rs:110-115 | the scan reads at most the whole table |
| `MultiBook.AfterScan` | core/src/order_book/multi_book.rs:90-116 | the scan never changes the spreads or the length of the records |
| `MultiBook.AfterScanFound` | core/src/order_book/multi_book.rs:110-115 | when entry `j` is the first opportunity, the scan stops there, records it and counts it |
| `MultiBook.AfterScanNone` | core/src/order_book/multi_book.rs:90-116 | with no opportunity, the scan reads the whole table and records nothing |
| `MultiBook.ScanFrom` | core/src/order_book/multi_book.rs:90-116 | the scan as the loop runs it, from entry `j` on, never changes the spreads or the number of records |
| `MultiBook.ScanFromAfterScan` | core/src/order_book/multi_book.rs:90-116 | the loop's scan is the specified scan, from wherever the loop stands |
| `MultiBook.AfterUpdate` | core/src/order_book/multi_book.rs:53-117 | after `update_spread` the spreads are the refreshed table, the scan leaving them alone, and the records keep their number |
| `MultiBook.CountAtLeastAntitone` | core/src/order_book/multi_book.rs:92-106 | a higher threshold counts no more spreads than a lower one |
| `MultiBook.RunningMaxBound` | core/src/order_book/multi_book.rs:107-109 | the best percentage never goes down and never becomes NaN, and it is at least every non-NaN percentage compared with it |
| `MultiBook.TallyGrows` | core/src/order_book/multi_book.rs:90-109 | the counters stay nested (`o25 <= o20 <= o15 <= o10 <= o05`), none goes down, and the opportunity count is untouched |
| `MultiBook.ScanGrows` | core/src/order_book/multi_book.rs:90-116 | the scan keeps the counters nested and never lowers a counter or the best percentage; it counts at most one opportunity |
| `MultiBook.ScanMax` | core/src/order_book/multi_book.rs:107-109 | after the scan, the best percentage is at least every percentage the scan read |
| `MultiBook.ScanArb` | core/src/order_book/multi_book.rs:110-115 | only the first opportunity's record changes, and it then holds that spread; the count goes up by one exactly when an opportunity exists; with none, records and count are unchanged |
| `MultiBook.MultiBook.constructor` | core/src/order_book/multi_book.rs:27-51 | one empty book per name, `T` default spreads and records, and zero counters |
| `MultiBook.MultiBook.UpdateSpread` | core/src/order_book/multi_book.rs:53-117 | the new spreads, records and counters are those of `AfterUpdate`; the books are untouched |
| `MultiBook.MultiBook.RefreshSpreads` | core/src/order_book/multi_book.rs:54-89 | the array after the first loop is `Refresh` of the old array |
| `MultiBook.MultiBook.WriteSpread` | core/src/order_book/multi_book.rs:56-87 | one write of the first loop: the pair's spread goes to the index the code computes, when both best prices exist, and the array is otherwise unchanged (`Put`) |
| `MultiBook.MultiBook.ScanSpreads` | core/src/order_book/multi_book.rs:90-116 | the records and counters after the second loop, with its early return, are those of `AfterScan` |
| `MultiBook.MultiBook.Tick` | core/src/order_book/multi_book.rs:92-109 | the counter fields after one entry are `Bump` of the old ones |
| `MultiBook.MultiBook.Record` | core/src/order_book/multi_book.rs:110-114 | the entry's record becomes the spread and the opportunity count goes up by one |
| `OrderBook.OrderBook.constructor` | core/src/order_book/order_book.rs:1-7 | a default book has all four numbers zero |
| `OrderBook.OrderBook.ChangeBid` | core/src/order_book/order_book.rs:10-13 | the bid and its volume are replaced and the ask side is kept |
| `OrderBook.OrderBook.ChangeAsk` | core/src/order_book/order_book.rs:14-17 | the ask and its volume are replaced and the bid side is kept |
| `OrderBook.InBoundsIff` | core/src/order_book/order_book.rs:55-59 | both slots of every pair of books exist exactly when the table has at least `S*S` slots |
| `OrderBook.SlotInjective` | core/src/order_book/order_book.rs:55-59 | distinct pairs of books have distinct slots |
| `OrderBook.SlotsDistinct` | core/src/order_book/order_book.rs:55-59 | the two slots of a pair of different books differ |
| `OrderBook.Write` | core/src/order_book/order_book.rs:48-63 | slot (a, b) holds the spread of buying on a and selling on b, and slot (b, a) the reverse |
| `OrderBook.WriteOther` | core/src/order_book/order_book.rs:48-63 | every slot other than the two of the pair keeps its value |
| `OrderBook.RefreshAt` | core/src/order_book/order_book.rs:32-47 | after refreshing book `k` against the books below `n`, each slot holds the forward spread, the reverse spread or its old value, according to which pair it belongs to |
| `OrderBook.RefreshForward` | core/src/order_book/order_book.rs:32-47 | slot (k, i) of each refreshed `i` holds the spread of buying on k and selling on i |
| `OrderBook.RefreshReverse` | core/src/order_book/order_book.rs:32-47 | slot (i, k) of each refreshed `i` holds the spread of buying on i and selling on k |
| `OrderBook.RefreshOther` | core/src/order_book/order_book.rs:32-47 | slots outside the pairs of `k` keep their values |
| `OrderBook.MultiBook.UpdateSpread` | core/src/order_book/order_book.rs:48-63 | the new table is `Write` of the old one for the pair |
| `OrderBook.MultiBook.ChangeBid` | core/src/order_book/order_book.rs:32-39 | only book k's bid changes, and the table is refreshed against every other book |
| `OrderBook.MultiBook.ChangeAsk` | core/src/order_book/order_book.rs:40-47 | only book k's ask changes, and the table is refreshed against every other book |
| `OrderBook.MultiBook.RefreshPairs` | core/src/order_book/order_book.rs:34-38 | the loop leaves the table equal to `Refresh` of the old one |
| `Float.Div` | core/src/order_book/multi_book.rs:119 | `f64` division of two integers: the exact ratio, or an infinity or NaN by the numerator's sign when the divisor is zero |
| `Float.GeTransitive` | core/src/order_book/multi_book.rs:92-109 | `>=` on `f64` is transitive |
| `Float.GeTotal` | core/src/order_book/multi_book.rs:107 | any two non-NaN values are comparable |
| `OrderData.Push` | core/src/order_book/clients/gemini/gemini_adapter.rs:67 | `heapless::Vec::push` appends when there is room and otherwise drops the element, the result being ignored |
| `OrderData.Take` | core/src/order_book/clients/kraken/kraken_adapter.rs:36-50 | what survives pushing a sequence into an empty vector is at most its capacity long |
| `OrderData.PushTake` | core/src/order_book/clients/kraken/kraken_adapter.rs:36-50 | pushing one more element keeps the vector equal to the capped prefix of everything pushed |
| `OrderData.TakeAll` | core/src/order_book/clients/bitstamp/bitstamp_adapter.rs:45-48 | nothing is dropped while the input fits the capacity |
| `OrderData.TakePrefix` | core/src/order_book/clients/kraken/kraken_adapter.rs:36-50 | the vector holds the first `min(cap, n)` elements pushed, in order |
| `GeminiAdapter.CommonSide` | core/src/order_book/clients/gemini/gemini_adapter.rs:63-66 | Buy maps to Buy and Sell to Sell, both ways |
| `GeminiAdapter.Level` | core/src/order_book/clients/gemini/gemini_adapter.rs:69 | level and amount are copied and the sequence is reset to 0 |
| `GeminiAdapter.SideLevelsAppend` | core/src/order_book/clients/gemini/gemini_adapter.rs:32-42 | partitioning keeps the relative order within each side |
| `GeminiAdapter.SideLevelsPartition` | core/src/order_book/clients/gemini/gemini_adapter.rs:32-42 | every snapshot change lands on exactly one side |
| `GeminiAdapter.SideLevelsFrom` | core/src/order_book/clients/gemini/gemini_adapter.rs:32-42 | every level on a side comes, converted, from a change on that side |
| `GeminiAdapter.Converted` | core/src/order_book/clients/gemini/gemini_adapter.rs:62-71 | one common change per Gemini change, in order, with the side mapped and the sequence reset |
| `GeminiAdapter.Partition` | core/src/order_book/clients/gemini/gemini_adapter.rs:30-42 | bids are the Buy levels and asks the Sell levels, each cut at 65536 |
| `GeminiAdapter.ConvertChanges` | core/src/order_book/clients/gemini/gemini_adapter.rs:59-71 | the converted changes cut at 512 |
| `GeminiAdapter.GeminiAdapter.constructor` | core/src/order_book/clients/gemini/gemini_adapter.rs:20-26 | the adapter always feeds book 1 |
| `GeminiAdapter.GeminiAdapter.InitOrderBook` | core/src/order_book/clients/gemini/gemini_adapter.rs:28-47 | book 1 alone is initialised from the partitioned snapshot, then the table is updated for book 1; the pair name is unchanged |
| `GeminiAdapter.GeminiAdapter.Update` | core/src/order_book/clients/gemini/gemini_adapter.rs:53-85 | an update is accepted exactly when it has at most 16 changes; a rejected one changes nothing; an accepted one reaches book 1 whole, in order, with empty product id and time, and the table is updated for book 1; the pair name is unchanged either way |
| `BitstampAdapter.Level` | core/src/order_book/clients/bitstamp/bitstamp_adapter.rs:29 | level and amount are copied and the sequence is reset to 0 |
| `BitstampAdapter.Changes` | core/src/order_book/clients/bitstamp/bitstamp_adapter.rs:49-68 | all bids as Buy changes, in order, then all asks as Sell changes, in order |
| `BitstampAdapter.GuardedFits` | core/src/order_book/clients/bitstamp/bitstamp_adapter.rs:45-48 | once the size guard passes, the 512-slot vector drops nothing |
| `BitstampAdapter.CopyLevels` | core/src/order_book/clients/bitstamp/bitstamp_adapter.rs:28-33 | the levels are copied in order and cut at 65536 |
| `BitstampAdapter.ConvertChanges` | core/src/order_book/clients/bitstamp/bitstamp_adapter.rs:48-68 | the two loops give the changes in `Changes` order, cut at 512 |
| `BitstampAdapter.BitstampAdapter.constructor` | core/src/order_book/clients/bitstamp/bitstamp_adapter.rs:17-23 | the adapter always feeds book 2 |
| `BitstampAdapter.BitstampAdapter.InitOrderBook` | core/src/order_book/clients/bitstamp/bitstamp_adapter.rs:25-38 | book 2 alone is initialised from the copied sides, then the table is updated for book 2; the pair name is unchanged |
| `BitstampAdapter.BitstampAdapter.Update` | core/src/order_book/clients/bitstamp/bitstamp_adapter.rs:44-73 | an update is accepted exactly when both sides have fewer than 128 levels; a rejected one changes nothing; an accepted one reaches book 2 whole, bids first, and the table is updated for book 2; the pair name is unchanged either way |
| `KrakenAdapter.Level` | core/src/order_book/clients/kraken/kraken_adapter.rs:23 | level and amount are copied and the sequence is reset to 0 |
| `KrakenAdapter.Tagged` | core/src/order_book/clients/kraken/kraken_adapter.rs:37-50 | an absent side gives no changes; a present one gives one change per level on that side, in order |
| `KrakenAdapter.UpdatePrefix` | core/src/order_book/clients/kraken/kraken_adapter.rs:36-51 | the update carries the first `min(32, bids + asks)` changes, bids before asks |
| `KrakenAdapter.CopyLevels` | core/src/order_book/clients/kraken/kraken_adapter.rs:20-27 | the levels are copied in order and cut at 10000 |
| `KrakenAdapter.PushSide` | core/src/order_book/clients/kraken/kraken_adapter.rs:37-50 | one side's loop extends the capped vector by that side's changes, if the side is present |
| `KrakenAdapter.ConvertChanges` | core/src/order_book/clients/kraken/kraken_adapter.rs:36-50 | both loops give the first 32 of bids-then-asks |
| `KrakenAdapter.KrakenAdapter.InitOrderBook` | core/src/order_book/clients/kraken/kraken_adapter.rs:19-29 | the snapshot is accepted exactly when both sides are present; a rejected one delivers nothing; an accepted one delivers both sides copied and cut at 10000 |
| `KrakenAdapter.KrakenAdapter.Update` | core/src/order_book/clients/kraken/kraken_adapter.rs:35-52 | one update is delivered, holding the first 32 changes, with empty product id and time |
| `CoinbaseAdapter.CommonSide` | core/src/order_book/clients/coinbase/coinbase_adapter.rs:39-42 | Buy maps to Buy and Sell to Sell, both ways |
| `CoinbaseAdapter.Converted` | core/src/order_book/clients/coinbase/coinbase_adapter.rs:38-50 | one common change per Coinbase change, in order |
| `CoinbaseAdapter.UpdatePrefix` | core/src/order_book/clients/coinbase/coinbase_adapter.rs:37-51 | the update carries the first `min(32, n)` converted changes, in order |
| `CoinbaseAdapter.CopyLevels` | core/src/order_book/clients/coinbase/coinbase_adapter.rs:21-28 | the levels are copied in order and cut at 10000 |
| `CoinbaseAdapter.ConvertChanges` | core/src/order_book/clients/coinbase/coinbase_adapter.rs:37-50 | the loop gives the converted changes cut at 32 |
| `CoinbaseAdapter.CoinbaseAdapter.InitOrderBook` | core/src/order_book/clients/coinbase/coinbase_adapter.rs:20-30 | one snapshot is delivered, holding both sides copied and cut at 10000 |
| `CoinbaseAdapter.CoinbaseAdapter.Update` | core/src/order_book/clients/coinbase/coinbase_adapter.rs:36-52 | one update is delivered, holding the first 32 converted changes, with empty product id and time |
| `Socket.Texts` | core/src/order_book/clients/gemini/gemini_client.rs:41-82 | what the loop handles out of a stream is text frames only, never more than the stream holds, and a text is among them exactly when the stream carries it |
| `Socket.TextsAppend` | core/src/order_book/clients/gemini/gemini_client.rs:41-82 | the frames handled from two consecutive stretches of a stream are those of the first followed by those of the second |
| `Socket.TextKept` | core/src/order_book/clients/gemini/gemini_client.rs:41-82 | every text frame is handled, in its place between the frames before and after it |
| `Socket.ErrorDropped` | core/src/order_book/clients/gemini/gemini_client.rs:41-82 | an error frame is skipped, and nothing else about the stream changes |
| `GeminiClient.Symbol` | core/src/order_book/clients/gemini/gemini_client.rs:25-31 | a symbol exists exactly for the four supported pairs |
| `GeminiClient.SymbolDropsDash` | core/src/order_book/clients/gemini/gemini_client.rs:25-31 | each symbol is its pair with the dash removed |
| `GeminiClient.SymbolInjective` | core/src/order_book/clients/gemini/gemini_client.rs:25-31 | different pairs have different symbols |
| `GeminiClient.Subscription` | core/src/order_book/clients/gemini/gemini_client.rs:32 | the message is the symbol in double quotes between a fixed prefix and suffix, and no longer than those |
| `GeminiClient.SubscriptionSymbol` | core/src/order_book/clients/gemini/gemini_client.rs:32 | the symbol can be read back from the message |
| `GeminiClient.Receive` | core/src/order_book/clients/gemini/gemini_client.rs:37-83 | the loop makes exactly the calls of `Run` on the stream |
| `GeminiClient.Init` | core/src/order_book/clients/gemini/gemini_client.rs:24-35 | an unsupported pair sends nothing and handles nothing; a supported one sends its subscription once, then receives |
| `GeminiClient.FirstSnapshot` | core/src/order_book/clients/gemini/gemini_client.rs:45-57 | the first text that parses as a snapshot, with none before it |
| `GeminiClient.OnlyUpdatesAfterInit` | core/src/order_book/clients/gemini/gemini_client.rs:45-76 | once a snapshot has been handled, only updates are handled |
| `GeminiClient.SnapshotFirst` | core/src/order_book/clients/gemini/gemini_client.rs:41-82 | with no text parsing as a snapshot nothing is handled; otherwise the first such text is handled first as the snapshot, and the rest of the stream as updates |
| `GeminiClient.SnapshotOnce` | core/src/order_book/clients/gemini/gemini_client.rs:41-82 | exactly the first call, if any, is a snapshot |
| `GeminiClient.ErrorsSkipped` | core/src/order_book/clients/gemini/gemini_client.rs:80 | socket errors change nothing: the calls are those made on the stream without them |
| `BitstampClient.Symbol` | core/src/order_book/clients/bitstamp/bitstamp_client.rs:25-31 | a symbol exists exactly for the four supported pairs |
| `BitstampClient.SymbolLowerNoDash` | core/src/order_book/clients/bitstamp/bitstamp_client.rs:25-31 | each symbol is its pair in lower case with the dash removed |
| `BitstampClient.SymbolInjective` | core/src/order_book/clients/bitstamp/bitstamp_client.rs:25-31 | different pairs have different symbols |
| `BitstampClient.Subscription` | core/src/order_book/clients/bitstamp/bitstamp_client.rs:32 | the message is the symbol between a fixed prefix and suffix, and no longer than those |
| `BitstampClient.SubscriptionSymbol` | core/src/order_book/clients/bitstamp/bitstamp_client.rs:32 | the symbol can be read back from the message |
| `BitstampClient.Receive` | core/src/order_book/clients/bitstamp/bitstamp_client.rs:37-70 | the loop makes exactly the calls of `Run` on the stream |
| `BitstampClient.Init` | core/src/order_book/clients/bitstamp/bitstamp_client.rs:24-35 | an unsupported pair sends nothing and handles nothing; a supported one sends its subscription once, then receives |
| `BitstampClient.StopsAtError` | core/src/order_book/clients/bitstamp/bitstamp_client.rs:64-67 | nothing after a socket error is read |
| `BitstampClient.FirstParsed` | core/src/order_book/clients/bitstamp/bitstamp_client.rs:45-62 | the first text that parses, with none before it |
| `BitstampClient.OnlyUpdatesAfterInit` | core/src/order_book/clients/bitstamp/bitstamp_client.rs:48-59 | once initialised, only updates are handled |
| `BitstampClient.SnapshotFirst` | core/src/order_book/clients/bitstamp/bitstamp_client.rs:41-69 | with no text that parses, or a socket error before the first one, nothing is handled; otherwise the first parsed text is handled first as the snapshot, and the rest of the stream as updates |
| `BitstampClient.SnapshotOnce` | core/src/order_book/clients/bitstamp/bitstamp_client.rs:41-69 | exactly the first call, if any, is a snapshot |
| `Probe.LatencyMs` | ping/src/ping/ping.py:31 | the value is the whole milliseconds rounded down, `v*1000 <= us < v*1000 + 1000`, and lies in 0..999 |
| `Probe.LatencyFloorUnique` | ping/src/ping/ping.py:31 | the floor is the only such whole number, never a rounding |
| `Probe.LatencyDatum` | ping/src/ping/ping.py:18-32 | the datum is Latency in Milliseconds, with dimensions Target then Environment, valued at the latency |
| `Ping.LatencyText` | ping/src/ping/ping.py:42 | the log's latency is digits followed by "ms" |
| `Ping.LogRecord` | ping/src/ping/ping.py:36-43 | the log has six keys in order Path, Request, Status, Reason, Response, Latency, holding the request url, request body, status, reason, decoded body and latency text |
| `Ping.Handler` | ping/src/ping/ping.py:5-44 | a missing url makes nothing happen; otherwise the first effect is the GET of the url with the four fixed headers; a run completes only with a url and a JSON body |
| `Ping.MetricOnlyOn200` | ping/src/ping/ping.py:15 | a metric is submitted only for status 200 |
| `Ping.MetricIff200` | ping/src/ping/ping.py:15-35 | with the event's keys present, a metric is submitted exactly when the status is 200 |
| `Ping.MetricShape` | ping/src/ping/ping.py:16-35 | every submission is one datum in namespace Ping, Latency in Milliseconds, dimensioned Target then Environment from the event, valued at the floored milliseconds in 0..999 |
| `Ping.NonJsonBodyNotLogged` | ping/src/ping/ping.py:41-44 | a body that is not JSON aborts the handler before anything is printed |
| `Ping.LogAlways` | ping/src/ping/ping.py:36-44 | every response with a JSON body is logged last, whatever its status; the printed text decodes back to the record, with its keys in order |
| `Ping.LatencyTextValue` | ping/src/ping/ping.py:31-42 | the log's latency digits read back as the metric's value |
| `Ping.LatencyTextInjective` | ping/src/ping/ping.py:31-42 | two latency texts agree exactly when the two values do |
| `CorePing.Handler` | core/src/ping/ping.py:4-30 | a missing url makes nothing happen; otherwise the first effect is a GET of the url without custom headers |
| `CorePing.StatusIgnored` | core/src/ping/ping.py:9-30 | the status is never inspected: responses with the same latency give the same effects |
| `CorePing.MetricAlways` | core/src/ping/ping.py:9-30 | with all keys present the run completes after the GET and one Ping/Latency datum in Milliseconds, dimensioned Target then Environment, valued at the floored milliseconds; nothing is printed |
| `CorePing.AgreesWithPingOn200` | core/src/ping/ping.py:11-29 | on status 200 both handlers submit the same metric; only the current one sends custom headers |
| `Decimal.ParseNatToString` | ping/src/ping/ping.py:42 | the decimal text of a number reads back as that number |
| `Decimal.NatToStringInjective` | ping/src/ping/ping.py:42 | distinct numbers never print alike |
| `Json.Lookup` | ping/src/ping/ping.py:8 | a key lookup succeeds exactly when the object has the key |
| `Json.ParseDumps` | ping/src/ping/ping.py:44 | the text `json.dumps` writes decodes back to the value |
| `Json.DumpsInjective` | infrastructure/src/ping/index.py:21-22 | distinct values serialise to distinct texts |
| `PingInfra.Dict` | infrastructure/src/ping/index.py:18-19 | the dict has the keys name, url and environment, in that order, holding the constructor arguments |
| `PingInfra.GetInputDecodes` | infrastructure/src/ping/index.py:21-22 | the input text decodes back to the dict |
| `PingInfra.GetInputInjective` | infrastructure/src/ping/index.py:21-22 | distinct targets give distinct inputs |
| `PingInfra.InputDrivesProbe` | infrastructure/src/ping/index.py:94-97 | decoded as the probe's event, the input makes the probe GET the target's url and, on status 200, submit the latency dimensioned by the target's name and environment |
| `PingInfra.LambdaIds` | infrastructure/src/ping/index.py:34-79 | each of the Lambda's nine resource ids is `name + suffix` followed by its own ending |
| `PingInfra.PingLambda` | infrastructure/src/ping/index.py:70-79 | the function is named `name + suffix + "-lambda"`; its code is the bucket object in the bucket `name + suffix`; it runs the handler `ping.lambda_handler` on python3.9 and arm64 under the execution role `-lambda-exec`, with the asset `-asset` as its code hash |
| `PingInfra.LambdaIdsDistinct` | infrastructure/src/ping/index.py:34-79 | the Lambda's nine resources have pairwise distinct ids |
| `PingInfra.ScheduleFor` | infrastructure/src/ping/index.py:90-103 | a target's schedule is every five minutes with the flexible window off; it invokes the function under the function's role with the target's input and sends failures to the target's queue |
| `PingInfra.TargetResources` | infrastructure/src/ping/index.py:90-112 | per target: its queue, its schedule, then the permission for that schedule to invoke the function |
| `PingInfra.Registered` | infrastructure/src/ping/index.py:87-112 | three resources per target |
| `PingInfra.Schedules` | infrastructure/src/ping/index.py:87-105 | one schedule per target, in target order |
| `PingInfra.RegisteredAt` | infrastructure/src/ping/index.py:87-112 | target `i`'s resources sit at positions 3i, 3i+1 and 3i+2 |
| `PingInfra.PingLambdaScheduler.constructor` | infrastructure/src/ping/index.py:84-112 | the loop leaves `schedules` and the registered resources equal to `Schedules` and `Registered` |
| `PingInfra.TargetQueueAndSchedule` | infrastructure/src/ping/index.py:90-105 | target `i`'s first two resources are the queue its schedule names and the schedule itself |
| `PingInfra.OneSchedulePerTarget` | infrastructure/src/ping/index.py:87-105 | `len(schedules) == len(targets)`; schedule `i` is target `i`'s, with `rate(5 minutes)`, window OFF, the target's input and the target's own dead-letter queue |
| `PingInfra.TargetIdInjective` | infrastructure/src/ping/index.py:91-108 | per-target ids of different kinds never collide, and ids of one kind collide only for targets of the same name |
| `PingInfra.RegisteredIdsDistinct` | infrastructure/src/ping/index.py:87-112 | with distinct target names, all registered resources have distinct ids |
| `PingMetrics.KeyIndex` | infrastructure/src/monitoring/ping_metrics.py:12-13 | where a key sits in a dict, or that it is absent |
| `PingMetrics.LookupAt` | infrastructure/src/monitoring/ping_metrics.py:12-13 | in a dict, the value looked up under a key is the one stored with it |
| `PingMetrics.SetKeyProperties` | infrastructure/src/monitoring/ping_metrics.py:12-13 | setting a key stores the value under it, leaves every other key's value alone, keeps the keys distinct, and keeps the key order, adding a new key last |
| `PingMetrics.DashboardBody.Put` | infrastructure/src/monitoring/ping_metrics.py:12-13 | `content[k] = v` on the dict |
| `PingMetrics.DashboardBody.GetContent` | infrastructure/src/monitoring/ping_metrics.py:15-16 | the content as JSON text, which decodes back to the content |
| `PingMetrics.Metrics` | infrastructure/src/monitoring/ping_metrics.py:27-31 | one metric per target, in target order |
| `PingMetrics.Widgets` | infrastructure/src/monitoring/ping_metrics.py:26-45 | one widget per region, in region order |
| `PingMetrics.RegionWidgets` | infrastructure/src/monitoring/ping_metrics.py:24-45 | the nested loops build exactly `Widgets` |
| `PingMetrics.MakeDashboard` | infrastructure/src/monitoring/ping_metrics.py:21-51 | the body is the widgets under the single key "widgets"; the dashboard is named `PingLatencyByRegion-` plus the environment |
| `PingMetrics.BodyDecodes` | infrastructure/src/monitoring/ping_metrics.py:46-51 | the body decodes to the object with the single key "widgets" holding one widget per region |
| `PingMetrics.WidgetShape` | infrastructure/src/monitoring/ping_metrics.py:32-44 | each widget is a metric widget: time series, not stacked, period 300, Average, the loop's region, the title "Exchange Latency - " plus the region, and one metric per target |
| `PingMetrics.PropertiesShape` | infrastructure/src/monitoring/ping_metrics.py:32-44 | a widget's properties have the seven keys in order, each with the code's value |
| `PingMetrics.PlotsProbeMetric` | infrastructure/src/monitoring/ping_metrics.py:30 | for a target of the dashboard's environment, the plotted metric names the namespace, metric name and both dimensions of what the probe submits |
| `Vpc.CandidateTexts` | infrastructure/src/vpc/index.py:11-13 | the blocks are 207.13.0.0/16 and 207.13.0.0/24, 207.13.1.0/24 and 207.13.2.0/24 |
| `Vpc.Letter` | infrastructure/src/vpc/index.py:15-18 | a candidate is skipped exactly for zone c in us-west-1 |
| `Vpc.VpcSubnet` | infrastructure/src/vpc/index.py:25-27 | the subnet's construct id is `name + suffix + "-subnet-" + az`, and it keeps the zone, VPC and block |
| `Vpc.Subnets` | infrastructure/src/vpc/index.py:13-20 | at most one subnet per candidate |
| `Vpc.VPC.constructor` | infrastructure/src/vpc/index.py:9-20 | the VPC has the /16 block, and the loop leaves `subnets` equal to `Subnets` of the candidates |
| `Vpc.ZoneLetters` | infrastructure/src/vpc/index.py:13-18 | at most one letter per candidate, each a single character, no two alike |
| `Vpc.SubnetsByRegion` | infrastructure/src/vpc/index.py:13-20 | us-west-1 gets zones a and b, ap-northeast-1 gets a, d and c, every other region a, b and c; each zone is the region followed by the letter, in candidate order with the candidate's block |
| `Vpc.SubnetsInsideVpc` | infrastructure/src/vpc/index.py:11-13 | every subnet block lies inside 207.13.0.0/16 |
| `Vpc.SubnetsDistinct` | infrastructure/src/vpc/index.py:13-27 | no two subnets overlap, share a zone or share a construct id |

## Left out

- Network I/O is not modelled. This covers the WebSocket connections, `send` and `receive`, the HTTP GET, CloudWatch and S3. A socket is the finite sequence of frames it yields. A response is an input to the handler. Calls out of the handler are returned as effects.
- Concurrency is not modelled: the tokio runtime, the tasks and the `Arc<Mutex<..>>` around the shared table. A lock followed by a call is a direct call.
- The serde deserializers are not modelled. Parsing a frame is a partial function from text to message that is passed in. The float conversion of prices (`* 100.` then truncation) is not modelled either; levels are already natural numbers.
- Float arithmetic is exact: a finite `f64` is the exact real ratio, with no rounding. The spreads use the code's own division, so a zero ask gives +inf, -inf or NaN rather than being excluded by a precondition. `>=` is false against NaN, as in IEEE-754.
- `MultiBook.SpreadFromLevels`, `OrderBook.SpreadOf`: the `isize`/`i64` subtraction `bid - ask` is unbounded here, so overflow is not modelled. Prices are bounded far below it.
- Indexing out of range panics in the code. Those calls are excluded by preconditions:
  - a book index of at least S;
  - a table with fewer than `S*(S-1)` entries (or fewer than `S*S` in the earlier table).
- The order books behind the table are not modelled: their heaps, lookups, `init` and `update`. In the table they are the functions `initBook` and `applyBook` passed to the adapters. The Kraken and Coinbase adapters hold the `OrderBook` of `order_book.rs`, which defines only `change_bid` and `change_ask`; the `init` and `update` they call on it are defined in none of the files, so those adapters record the sequence of snapshots and updates handed to it instead.
- A panic in the adapters is modelled by the adapter's result: an oversized Gemini or Bitstamp update, and a missing Kraken side in a snapshot. The client loops are not composed with that result; a panic would end the task.
- `to_text().unwrap()` in the clients is not modelled; every `Ok` frame is a text.
- The timing counters and averages in the receive loops are not modelled (`count`, `total`, `avg`, `Instant`).
- Output is not modelled: `print`, `print_book`, every `println!` and `Local::now()`.
- The code base is in the middle of a refactor, and some files do not fit together. Each file is modelled against its own types:
  - the clients import the table of `order_book.rs`;
  - the Gemini and Bitstamp adapters build 512-entry change vectors where the common `Update` holds 32;
  - the Gemini and Bitstamp adapters build 65536-entry snapshot sides where the common `Snapshot` holds 10000; the model cuts at 65536, as each adapter does;
  - Coinbase's `Change.side` is a `String` while the adapter matches it as an enum;
  - the Kraken and Coinbase adapters call `init` and `update` on the `OrderBook` of `order_book.rs`, which defines neither.
- Capacity limits of the exchanges' own message vectors are not modelled; Gemini's `Content.changes` holds at most 5000.
- The JSON values have no floating-point numbers. A response body containing a float is outside the model of `Ping.Handler`'s log. The invocation event is taken to be a JSON object.
- The CDKTF constructs themselves are not modelled, nor the IAM policy strings or `infrastructure/src/main.py`. Only the ids, names and settings the code gives each resource are kept. Provider-assigned values are referred to by the id of their resource: the function's role ARN by the execution role, its `s3_key` (the asset's file name) by the bucket object, its code hash by the asset, and a queue's ARN by the queue. Function ARNs are referred to by the function name.
- `Vpc.Contains`, `Vpc.Disjoint`: address blocks are compared as ranges of 32-bit addresses.
