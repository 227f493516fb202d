# Order-book price engine, modelled in Dafny

This project models the price engine of a command-line tool that quotes a
token pair on an on-chain order book (OasisDex). Given a pair text such as
`DAI/W-ETH` and an amount, the engine does five things:

1. It resolves both token symbols and their decimals.
2. It walks the market contract's linked list of offers, from the best
   offer to worse ones.
3. It scales every amount to 18 decimals.
4. It reports the pay/buy rate of the offer at which the requested amount
   is covered, or 0 when the book cannot cover it.
5. It scans recent blocks backwards for `LogTake` trade events.

The engine exists twice. The current copy is the `OasisApi` class of
`src/oasis_api.js`. The older copy is the function set of
`src/get_price.js`. The record they pass around is `src/pair.js`.

Modules:

- `Ledger` holds the values the contracts show. An `OrderBook` is one
  snapshot of the answers to `getOfferCount`, `getBestOffer`, `getOffer` and
  `getWorseOffer`; an id with no entry reads as zeroed storage (the
  sentinel has pay amount 0). It also holds the offer views of
  `src/offer.js` and JavaScript's `slice`, `Math.min` and `Math.max`.
- `Tokens` is the decimals lookup with its `DGD = 9` override.
- `Pairs` is the `Pair` record and its constructor.
- `PairText` is the split done by the regular expression `/([^/]*)\/([^/]*)/im`.
- `Pricing` holds the scaling to 18 decimals, the buy total, and the
  marginal-offer quote that both copies compute.
- `EventScan` is the backward scan of block windows.
- `OasisApi` is the current copy. The walk and the price loop are methods
  with loops, proved equal to specification functions. Its event scan
  calls `EventScan.ScanEvents`, the loop both copies share.
- `LegacyGetPrice` is the older copy. Its offer records are objects of the
  class `OfferRecord`, and `offersToWei` rewrites them in place.

The price is modelled as the integer pair `(pay, buy)` of the marginal
offer (`Quote.Rate`), or `Unfillable` for the reported 0.

Three behaviours are kept as the code writes them:

- **The retry lands in the wrong argument.** The retry in
  `src/oasis_api.js:172` passes the decremented attempt count in the
  `maxCount` position, so the retried pass reads at most `attempt - 1`
  offers, and the attempt budget goes back to its configured default.
  `OasisApi.RetryTruncatesExample` shows a three-offer book coming back
  with two offers. When the configured attempts count is at least 2,
  `OasisApi.RetriesNeverEnd` shows that a book with a positive offer count
  whose best offer stays the sentinel is retried on every snapshot given,
  so the retries are unbounded. An empty book is not retried: its pass
  reads no position and returns the empty list (`OasisApi.EmptyBookExample`). A sentinel further down is met only if it lies among the
  `attempt - 1` positions a retried pass reads. With a count of 1 the retry runs with a maximum count of 0,
  reads nothing and returns the empty list as a success, so the price is
  0 (`OasisApi.RetryEmptiesExample`). With a count of 0 the first race
  already throws `TRADE_TOO_FAST` (`OasisApi.NoRetryExample`).
- **The trailing `return 0` can be reached.** The trailing `return 0` at
  `src/oasis_api.js:233` is reachable, but only for an empty list of
  records and a negative amount (`Pricing.FallThroughOnlyWhenEmpty`). For
  every other input, a price that is not 0 comes from the loop. In the older
  copy, the same input leaves `price` undefined, and `price.toString()`
  throws (`LegacyGetPrice.PriceUndefinedIff`).
- **The older copy rescales the list it shows.** It scales the records it
  fetched in place, so the offers it returns next to the price hold the
  scaled amounts (`LegacyGetPrice.ShownOffersAreScaled`).

Both copies scan for `LogTake` events in windows that share their
boundary block: `[head, latest]` is followed by `[head - step, head]`, and
so on. A trade mined in a boundary block is therefore collected twice
(`EventScan.BoundaryCountedTwice`).

## Model

| member | source | states |
|---|---|---|
| Tokens.TokenDecimals | src/oasis_api.js:19-21 | `DGD` has 9 decimals from the override table; every other symbol takes the token contract's answer |
| PairText.ParsePairText | src/oasis_api.js:23 | the unanchored pattern matches iff the text holds a '/'; the groups are everything before the first '/' and everything after it up to the next '/' or the end |
| PairText.ParsePairTextComplete | src/oasis_api.js:23 | any split of the text into a '/'-free prefix, '/', and a '/'-free run ending at '/' or the end is exactly what the parse returns |
| PairText.PairSplitUnique | src/get_price.js:49 | a text splits into the two groups in at most one way |
| PairText.ParseRoundTrip | src/oasis_api.js:60-64 | joining two '/'-free symbols with '/' (with any tail that starts at '/') parses back to the same two symbols |
| OasisApi.GetPairFromText | src/oasis_api.js:59-63 | the result is `CANT_PARSE_PAIR` exactly when the text has no '/' |
| OasisApi.GetPairFromTextSpec | src/oasis_api.js:64-85 | an unknown `from` is reported first, then an unknown `to`; with both known, the pair keeps the text and both symbols and holds the table addresses and the resolved decimals |
| OasisApi.NoSlashFails | test/oasis_api.js:37-39 | `ololo` is rejected with `CANT_PARSE_PAIR` |
| OasisApi.UnknownTargetFails | test/oasis_api.js:40-42 | `DAI/OLOLO` with `OLOLO` unknown is rejected naming `OLOLO` |
| OasisApi.KnownPairResolves | test/oasis_api.js:43-50 | `DAI/W-ETH`, with both symbols known and both contracts answering 18 decimals, resolves to the full pair record |
| OasisApi.WalkSpec | src/oasis_api.js:164-186 | reading `n` positions succeeds iff none of them is the sentinel, and then position `k` holds the amounts and handle `k` steps along the list |
| OasisApi.PassSpec | src/oasis_api.js:156-176 | a pass returns offers iff none of the first `min(maxCount, getCount)` positions is the sentinel, and then exactly that many in list order; otherwise it retries with max count `attempt - 1` when `attempt > 0` and fails with `TRADE_TOO_FAST` otherwise |
| OasisApi.PassOffersLinked | src/oasis_api.js:179-184 | the returned offers start at the best offer, each next id is the worse offer of the previous one, no pay amount is 0, and each carries the amounts read at its own id |
| OasisApi.OfferPass | src/oasis_api.js:156-187 | the loop, with its dead inner test and `break`, returns exactly what the pass specification says |
| OasisApi.GetAllOfferForPair | src/oasis_api.js:151-188 | passes run one per snapshot; a retry recurses with the shifted max count and the default budget, and the result is that of the driver specification |
| OasisApi.FetchedIsAPass | src/oasis_api.js:169-187 | a successful fetch is the complete answer of one pass, and no returned offer has pay amount 0 |
| OasisApi.TooFastOnlyFirst | src/oasis_api.js:171-174 | with a positive default budget, `TRADE_TOO_FAST` is thrown iff the very first pass fails with it, because every retry starts with the full budget |
| OasisApi.RetriesNeverEnd | src/oasis_api.js:172 | with a positive max count and attempts counts of at least 2, a non-empty book whose best offer is the sentinel on every pass is retried on every snapshot, with no error thrown |
| OasisApi.EmptyBookExample | src/oasis_api.js:163-164 | a book with offer count 0 is read over no position and returns the empty list at once, without a retry |
| OasisApi.RetryTruncatesExample | src/oasis_api.js:172 | a retry after one raced pass returns only two offers of a settled three-offer book, as the retried max count is `3 - 1` |
| OasisApi.RetryEmptiesExample | src/oasis_api.js:171-174 | with an attempts count of 1, a retry after one raced pass runs with max count 0 and returns the empty list as a success |
| OasisApi.NoRetryExample | src/oasis_api.js:171-176 | with an attempts count of 0, the first raced pass fails with `TRADE_TOO_FAST` |
| Pricing.OffersToWei | src/oasis_api.js:197-204 | the scaled copy has the same length and ids, pay times `10^(18 - fromDecimals)` and buy times `10^(18 - toDecimals)`; the input list is a value and stays as it was |
| Pricing.SumBuyScales | src/oasis_api.js:216-221 | the total of the scaled buy amounts is the raw total times `10^(18 - toDecimals)` |
| Pricing.SumBuyPrefixMonotone | src/oasis_api.js:218-221 | running buy totals are non-negative and never go down as the prefix grows |
| Pricing.MarginalFrom | src/oasis_api.js:226-232 | the search returns the first index at or after its start whose running total reaches the target, or the length when there is none |
| Pricing.MarginalUnique | src/oasis_api.js:226-232 | there is at most one marginal offer for a target |
| Pricing.QuoteFillable | src/oasis_api.js:223-232 | a rate comes out exactly when the list is not empty and the target is below its buy total |
| Pricing.QuoteIsMarginalRate | src/oasis_api.js:226-231 | the rate reported is that of the marginal offer, and every marginal offer's rate is the one reported |
| Pricing.FallThroughOnlyWhenEmpty | src/oasis_api.js:233 | the walk falls through below the total only on an empty list with a negative target |
| Pricing.MarginalMonotone | src/oasis_api.js:226-232 | a larger target never moves the marginal offer towards the front |
| Pricing.QuoteMonotone | src/oasis_api.js:226-231 | on a list whose `pay / buy` does not fall towards the back, a larger amount never gets a lower `pay / buy` |
| Pricing.QuoteMonotoneBestFirst | src/oasis_api.js:226-231 | on a list whose `pay / buy` does not rise towards the back (the order the book is walked in, highest first), a larger amount never gets a higher `pay / buy` |
| Pricing.LadderExample | src/oasis_api.js:226-231 | with offers (100, 50) and (300, 100), a target of 80 is covered at the second offer's rate |
| OasisApi.PriceOfOffers | src/oasis_api.js:214-216 | the price of records in token units is the marginal quote of their scaled copies for `amount * 10^18` |
| OasisApi.WalkToTarget | src/oasis_api.js:218-233 | the total and the subtracting loop return the marginal quote of the scaled records: 0 when the target is at least the total, else the rate of the first record at which the remainder drops to 0 or below, else the trailing 0 |
| OasisApi.GetPrice | src/oasis_api.js:213-216 | given records are priced as they are, an empty list included; otherwise the default fetch is priced and its error propagates |
| OasisApi.PriceUnfillable | src/oasis_api.js:214-225 | the price is 0 exactly when the list is empty or `amount * 10^18` is at least the raw buy total times `10^(18 - toDecimals)` |
| OasisApi.PriceIsMarginal | src/oasis_api.js:226-231 | a price that is not 0 is the scaled pay/buy pair of the marginal record |
| Ledger.MakeOffersFromRaw | src/oasis_api.js:140-142 | one view per record, in order, with the pair text, `pay_amt` as pay and `buy_amt` as buy |
| Ledger.TakeViews | src/offer.js:17-23 | one view per event, in order, with `give_amt` as pay and `take_amt` as buy |
| Ledger.JsSlice | src/oasis_api.js:131 | `slice(0, end)` keeps a prefix of length `min(end, length)`, or `max(length + end, 0)` for a negative end |
| Ledger.HandleAtNext | src/oasis_api.js:184 | position `k + 1` of the list is the worse offer of position `k` |
| EventScan.Reverse | src/oasis_api.js:110 | the reversed list has the same length, and element `k` is element `length - 1 - k` of the input |
| EventScan.PastEventsInOrder | src/oasis_api.js:100-111 | for a ledger that answers inside the window and oldest first, one window's events come newest first and lie inside the window |
| EventScan.ScanWindowsChained | src/oasis_api.js:123-129 | the first query is `[head, latest]`; each next window ends where the previous began and starts `step` blocks earlier, never below block 0 |
| EventScan.BoundaryCountedTwice | src/oasis_api.js:123-129 | windows share their boundary block, so a single `LogTake` in block 10 is collected twice when scanning back from head 10 in steps of 5 |
| EventScan.ScanWindowsStop | src/oasis_api.js:126 | every window but the last was followed by another because at most `limit` events were held and it began above the floor; after the last, more than `limit` are held or it began at or below the floor |
| EventScan.ScanNewestFirst | src/oasis_api.js:123-130 | the concatenated events of the whole scan run from the newest block to the oldest |
| EventScan.ScanEvents | src/oasis_api.js:120-130 | the loop collects exactly the events of the scan windows, each window's events reversed, in the order the windows were queried |
| OasisApi.GetLastTakeOrder | src/oasis_api.js:119-132 | the loop returns the views of the first `limit + 1` events of the scan windows' concatenated, reversed results |
| Pairs.NewPairFields | src/pair.js:16-32 | texts and decimals are stored unchanged and the addresses are stored as `from` and `to` |
| Pairs.NewPairRenamesOnly | src/pair.js:25-31 | the renaming loses nothing: the arguments can be read back from the record, and every record is built from its own arguments |
| Pairs.NewPairAcceptsAnything | src/pair.js:28-31 | decimals are not validated and `from == to` is accepted |
| LegacyGetPrice.GetPairAndCheck | src/get_price.js:51-55 | text with no '/' gives `false` |
| LegacyGetPrice.GetPairAndCheckSpec | src/get_price.js:56-73 | after the split, the pair resolves iff both sides are non-empty and listed with a truthy address, and then holds the text, both symbols, both addresses and their decimals (DGD 9 from the override) |
| LegacyGetPrice.WhitelistNeverConsulted | src/get_price.js:60-75 | the contract's whitelist answer changes nothing, so the `return false` after it is unreachable |
| LegacyGetPrice.ResolvedDecimalsInRange | src/get_price.js:61-71 | with decimals answers in 0..18, a resolved pair's decimals are in 0..18 |
| LegacyGetPrice.OfferRecord.constructor | src/get_price.js:110-114 | a new record holds the pay amount, the buy amount and the id it was read from |
| LegacyGetPrice.Values | src/get_price.js:110-114 | the amounts a list of records holds now, record by record |
| LegacyGetPrice.LegacyWalkSpec | src/get_price.js:101-117 | at most 1000 records in list order with no sentinel among them; a shorter list ends only at a sentinel, with no retry and no error |
| LegacyGetPrice.CountIgnored | src/get_price.js:95-101 | the fetched offer count is never read |
| LegacyGetPrice.ReadOffers | src/get_price.js:100-118 | the loop builds fresh, distinct records holding exactly the walk from the best offer |
| LegacyGetPrice.GetAllOfferForPair | src/get_price.js:93-119 | the result holds the first up to 1000 records before the sentinel, in fresh distinct objects |
| LegacyGetPrice.OffersToWei | src/get_price.js:121-127 | returns the very objects it received, whose amounts now are the scaled copy of what they held before |
| LegacyGetPrice.GetLastTakedOrder | src/get_price.js:78-91 | the fixed scan from block 6500000 in 50000-block windows down to block 0 while at most 10 events are held, cut to its first 11 events |
| LegacyGetPrice.ScaledPrice | src/get_price.js:139-155 | a price is set iff the target is at least the scaled total or some running total reaches it, and then it is the marginal quote |
| LegacyGetPrice.AnswerForPair | src/get_price.js:135-137 | the answer of a resolved pair is the one its specification gives, computed from the caller's list after the in-place scaling |
| LegacyGetPrice.AnswerForScaled | src/get_price.js:139-160 | the price, the first 11 records as the list holds them now, and the scanned trades; or the undefined-price error when the walk sets no price |
| LegacyGetPrice.GetPrice | src/get_price.js:129-161 | an unresolved pair gives `false`; a resolved one has decimals in range and gets the answer record or the undefined-price error |
| LegacyGetPrice.ShownOffersAreScaled | src/get_price.js:144 | the offers shown are the first up to 11 fetched records with amounts already multiplied by `10^(18 - decimals)` |
| LegacyGetPrice.PriceUndefinedIff | src/get_price.js:148-157 | `price.toString()` throws exactly when no record was fetched and the amount is negative |
| LegacyGetPrice.LegacyUnfillableIff | src/get_price.js:141-147 | the price is 0 exactly when `amount * 10^18` is at least the scaled buy total |

## Left out

- The RPC plumbing is not modelled: building contracts, `call()`, `getBlock`, `getPastEvents` and the `soliditySha3` filter. Instead, each traversal reads an `OrderBook` snapshot, events come from an `EventsOracle`, and decimals come from a `decimalsOf` function. The chain head is a parameter.
- `Promise.all` concurrency is not modelled; its reads are taken one after another.
- The final divisions are not modelled: `parseFloat(pay) / parseFloat(buy)` in the current copy and `BigNumber.dividedBy` with `toString` in the older copy. The price is the integer pair `(pay, buy)` that is divided.
- The divisions by `10^decimals` in the `Offer` constructor of `src/offer.js` are not modelled. Only the mapping of fields into an `OfferView` is kept.
- `checkPair` (src/oasis_api.js:93-98) is not part of this model. It is the whitelist query to the contract. Only the command-line wrapper calls it (bin/getprice.js:54), never the pricing code.
- The command-line wrappers `bin/getprice.js` and `getprice.js` are not part of this model. They handle arguments, console output and the process exit code.
- The token address tables and the hard-coded endpoints are parameters: a read-only map from symbol to address. In the current copy, a symbol is known iff the table has it.
- Keys inherited through JavaScript's object prototype (such as `constructor`) are not modelled as table entries.
- `parseInt` of a decimals answer that is not numeric is not modelled. The decimals are integers.
- OasisApi.GetAllOfferForPair: when the configured attempts count is at least 2, the source retries for as long as each pass meets the sentinel among the positions it reads (at most `attempt - 1` after a retry). The model gives each pass one snapshot and returns `Unsettled` when the snapshots run out.
- OasisApi.GetLastTakeOrder: requires a positive `eventBlockStep` and a non-negative `lastCheckBlock`. Otherwise the source's loop does not end unless events arrive.
- OasisApi.GetPrice: requires decimals in 0..18, so that `10^(18 - decimals)` is an integer. `amount` is an integer; `bn` of a fractional amount is not modelled.
- LegacyGetPrice.GetPrice: requires every decimals answer to be in 0..18. `Math.pow(10, k)` is taken as the exact integer `10^k`. `amount` is an integer; `bigInt` of a fractional amount throws, and that error is not modelled.
- LegacyGetPrice.OffersToWei: requires the objects in the list to be distinct. The fetch always produces distinct objects, and a repeated object would be scaled twice.
- LegacyGetPrice.PriceUndefined stands for the `TypeError` thrown by `price.toString()`. No message is modelled.
