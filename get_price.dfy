/**
 * The older copy of the price engine, src/get_price.js: a fixed token
 * table, no retry on a raced order book, offer records scaled in place,
 * and a fixed backward scan for trades.
 */
module LegacyGetPrice {
  import opened Wrappers
  import opened Ledger
  import opened Pairs
  import opened PairText
  import opened Tokens
  import Pricing
  import opened EventScan

  /** `MAX_OFFER_COUNT`. */
  const MaxOfferCount: nat := 1000

  /** The fixed scan of `getLastTakedOrder`: first block, window size, floor, and the events kept. */
  const ScanHead: nat := 6500000
  const ScanWindowStep: int := 50000
  const ScanFloor: int := 0
  const ScanLimit: int := 10
  const TakesShown: int := 11

  /** How many offer records `getPrice` shows. */
  const OffersShown: int := 11

  /** `contracts[symbol]` is truthy: the table has the symbol with a non-empty address. */
  predicate Listed(contracts: map<string, Address>, symbol: string)
  {
    symbol in contracts && contracts[symbol] != ""
  }

  /**
   * `getPairAndCheck`: `false` (here `None`) when the text does not split,
   * when a side is empty or when a side is not listed; otherwise the pair
   * record. The whitelist test awaits the method object instead of its
   * `call()`, which is always truthy, so `whitelisted`, the answer the
   * market contract would give, is never read.
   */
  function GetPairAndCheck(text: string, contracts: map<string, Address>, decimalsOf: string -> int, whitelisted: bool): (r: Option<Pair>)
    ensures '/' !in text ==> r.None?
  {
    match ParsePairText(text)
    case None => None
    case Some((from, to)) =>
      if from == "" || to == "" || !Listed(contracts, from) || !Listed(contracts, to) then None
      else
        Some(Pair(text, contracts[from], from, TokenDecimals(from, decimalsOf),
                  contracts[to], to, TokenDecimals(to, decimalsOf)))
  }

  /**
   * Once the text splits into `f` and `t`, the pair resolves exactly when
   * both are non-empty and listed, whatever the whitelist says, and then
   * holds the text, both symbols, their addresses and their decimals.
   */
  lemma GetPairAndCheckSpec(text: string, contracts: map<string, Address>, decimalsOf: string -> int, whitelisted: bool, f: string, t: string)
    requires IsPairSplit(text, f, t)
    ensures GetPairAndCheck(text, contracts, decimalsOf, whitelisted).Some? <==>
      f != "" && t != "" && Listed(contracts, f) && Listed(contracts, t)
    ensures GetPairAndCheck(text, contracts, decimalsOf, whitelisted).Some? ==>
      GetPairAndCheck(text, contracts, decimalsOf, whitelisted).value
        == Pair(text, contracts[f], f, TokenDecimals(f, decimalsOf), contracts[t], t, TokenDecimals(t, decimalsOf))
  {
    ParsePairTextComplete(text, f, t);
  }

  /** `return false` after the whitelist test is unreachable: a pair the contract refuses still resolves. */
  lemma WhitelistNeverConsulted(text: string, contracts: map<string, Address>, decimalsOf: string -> int)
    ensures GetPairAndCheck(text, contracts, decimalsOf, false) == GetPairAndCheck(text, contracts, decimalsOf, true)
  {
  }

  /** One `{ pay_amt, buy_amt, id }` object: `offersToWei` rewrites its amounts in place. */
  class OfferRecord {
    var payAmt: nat
    var buyAmt: nat
    const id: Handle

    constructor (pay: nat, buy: nat, handle: Handle)
      ensures payAmt == pay && buyAmt == buy && id == handle
    {
      payAmt := pay;
      buyAmt := buy;
      id := handle;
    }

    /** The amounts the object holds now. */
    function Value(): RawOffer
      reads this
    {
      RawOffer(payAmt, buyAmt, id)
    }
  }

  /** The amounts a list of objects holds now. */
  function Values(offers: seq<OfferRecord>): (vs: seq<RawOffer>)
    reads set o | o in offers
    ensures |vs| == |offers|
    ensures forall k :: 0 <= k < |offers| ==> vs[k] == offers[k].Value()
  {
    if offers == [] then [] else Values(offers[..|offers| - 1]) + [offers[|offers| - 1].Value()]
  }

  /** No object appears twice in the list. */
  ghost predicate Distinct(offers: seq<OfferRecord>)
  {
    forall i, j :: 0 <= i < j < |offers| ==> offers[i] != offers[j]
  }

  /** The records read from `h` on: at most `n`, stopping silently before the first sentinel. */
  function LegacyWalk(book: OrderBook, h: Handle, n: nat): seq<RawOffer>
    decreases n
  {
    if n == 0 || GetOffer(book, h).pay == 0 then []
    else [RawOffer(GetOffer(book, h).pay, GetOffer(book, h).buy, h)] + LegacyWalk(book, GetWorseOffer(book, h), n - 1)
  }

  /**
   * The walk reads the list in order, keeps no sentinel, and ends early
   * only at a sentinel: a truncated list is returned as if it were whole.
   */
  lemma {:induction false} LegacyWalkSpec(book: OrderBook, h: Handle, n: nat)
    ensures var r := LegacyWalk(book, h, n);
      && |r| <= n
      && (forall k :: 0 <= k < |r| ==> r[k] == OfferAt(book, h, k) && r[k].pay != 0)
      && (|r| < n ==> GetOffer(book, HandleAt(book, h, |r|)).pay == 0)
    decreases n
  {
    var r := LegacyWalk(book, h, n);
    assert HandleAt(book, h, 0) == h;
    if n > 0 && GetOffer(book, h).pay != 0 {
      var h' := GetWorseOffer(book, h);
      LegacyWalkSpec(book, h', n - 1);
      var rest := LegacyWalk(book, h', n - 1);
      assert r == [RawOffer(GetOffer(book, h).pay, GetOffer(book, h).buy, h)] + rest;
      forall k | 0 <= k < |r| ensures r[k] == OfferAt(book, h, k) && r[k].pay != 0 {
        if k > 0 {
          assert r[k] == rest[k - 1];
          assert HandleAt(book, h, k) == HandleAt(book, h', k - 1);
        }
      }
      assert HandleAt(book, h, |r|) == HandleAt(book, h', |rest|);
    }
  }

  /** The fetched offer count is never read: two snapshots that differ only in it give the same records. */
  lemma CountIgnored(book: OrderBook, count: nat)
    ensures LegacyOffers(book.(count := count)) == LegacyOffers(book)
  {
    WalkIgnoresCount(book, count, book.best, MaxOfferCount);
  }

  lemma {:induction false} WalkIgnoresCount(book: OrderBook, count: nat, h: Handle, n: nat)
    ensures LegacyWalk(book.(count := count), h, n) == LegacyWalk(book, h, n)
    decreases n
  {
    var other := book.(count := count);
    assert GetOffer(other, h) == GetOffer(book, h) && GetWorseOffer(other, h) == GetWorseOffer(book, h);
    if n > 0 {
      WalkIgnoresCount(book, count, GetWorseOffer(book, h), n - 1);
    }
  }

  /** The records the older copy fetches: at most 1000 from the best offer on. */
  function LegacyOffers(book: OrderBook): seq<RawOffer>
  {
    LegacyWalk(book, book.best, MaxOfferCount)
  }

  /** `getAllOfferForPair`: up to 1000 new objects along the list, stopping at the sentinel. */
  method GetAllOfferForPair(book: OrderBook) returns (offers: seq<OfferRecord>)
    ensures Values(offers) == LegacyOffers(book)
    ensures Distinct(offers) && forall o :: o in offers ==> fresh(o)
  {
    offers := ReadOffers(book, MaxOfferCount);
    assert Values(offers) == LegacyOffers(book);
  }

  /** The loop of `getAllOfferForPair`, counting down from `cap`. */
  method ReadOffers(book: OrderBook, cap: nat) returns (offers: seq<OfferRecord>)
    ensures var walk := LegacyWalk(book, book.best, cap);
      |offers| == |walk| && forall k :: 0 <= k < |offers| ==> offers[k].Value() == walk[k]
    ensures Distinct(offers) && forall o :: o in offers ==> fresh(o)
  {
    offers := [];
    ghost var read: seq<RawOffer> := [];
    var offerId := book.best;
    var i := cap;
    while i > 0
      invariant 0 <= i <= cap
      invariant LegacyWalk(book, book.best, cap) == read + LegacyWalk(book, offerId, i)
      invariant |offers| == |read| && forall k :: 0 <= k < |offers| ==> offers[k].Value() == read[k]
      invariant forall k :: 0 <= k < |offers| ==> fresh(offers[k])
      invariant Distinct(offers)
    {
      var bestOffer := GetOffer(book, offerId);
      var nextOfferId := GetWorseOffer(book, offerId);
      if bestOffer.pay == 0 {
        break;
      }
      var record := new OfferRecord(bestOffer.pay, bestOffer.buy, offerId);
      LegacyWalkStep(book, offerId, i);
      AppendAssoc(read, [record.Value()], LegacyWalk(book, nextOfferId, i - 1));
      offers := offers + [record];
      read := read + [record.Value()];
      offerId := nextOfferId;
      i := i - 1;
    }
    assert LegacyWalk(book, offerId, i) == [];
    assert read + [] == read;
  }

  /** One step of the walk: the record at `h`, then the walk from its worse offer. */
  lemma LegacyWalkStep(book: OrderBook, h: Handle, n: nat)
    requires n > 0 && GetOffer(book, h).pay != 0
    ensures LegacyWalk(book, h, n) == [RawOffer(GetOffer(book, h).pay, GetOffer(book, h).buy, h)] + LegacyWalk(book, GetWorseOffer(book, h), n - 1)
  {
  }

  /**
   * `offersToWei`: scales the amounts of the objects it is given, in place,
   * and returns the same objects.
   */
  method OffersToWei(offers: seq<OfferRecord>, fromDecimals: int, toDecimals: int) returns (r: seq<OfferRecord>)
    requires 0 <= fromDecimals <= 18 && 0 <= toDecimals <= 18
    requires Distinct(offers)
    modifies set o | o in offers
    ensures r == offers
    ensures Values(offers) == Pricing.OffersToWei(old(Values(offers)), fromDecimals, toDecimals)
  {
    ghost var before := Values(offers);
    ghost var after := Pricing.OffersToWei(before, fromDecimals, toDecimals);
    var i := 0;
    while i < |offers|
      invariant 0 <= i <= |offers|
      invariant forall k :: 0 <= k < |offers| ==> offers[k].Value() == if k < i then after[k] else before[k]
    {
      var v := offers[i];
      v.buyAmt := v.buyAmt * Pow10(18 - toDecimals);
      v.payAmt := v.payAmt * Pow10(18 - fromDecimals);
      i := i + 1;
    }
    r := offers;
  }

  /** The trades the older copy reports: the first eleven events of the fixed scan. */
  function LegacyTakes(oracle: EventsOracle): seq<TakeEvent>
  {
    JsSlice(Collected(oracle, ScanWindows(oracle, ScanHead, ScanWindowStep, ScanFloor, ScanLimit)), TakesShown)
  }

  /** `getLastTakedOrder`: the fixed scan, cut to its first eleven events. */
  method GetLastTakedOrder(oracle: EventsOracle) returns (events: seq<TakeEvent>)
    ensures events == LegacyTakes(oracle)
  {
    events := ScanEvents(oracle, ScanHead, ScanWindowStep, ScanFloor, ScanLimit);
    events := JsSlice(events, TakesShown);
  }

  /**
   * What `getPrice` resolves to: `false` for a pair that does not resolve,
   * the answer record, or the `TypeError` that `price.toString()` throws
   * when the walk sets no price.
   */
  datatype LegacyAnswer = NotResolved | Answer(price: Pricing.Quote, offers: seq<OfferView>, takes: seq<OfferView>) | PriceUndefined

  /**
   * The answer for scaled records `scaled`, the target `amount * 10^18` and
   * the scanned trades: the price, the first eleven records, and the views
   * of the trades; no price at all when the walk sets none.
   */
  function ScaledAnswer(text: string, scaled: seq<RawOffer>, target: int, takes: seq<TakeEvent>): LegacyAnswer
  {
    var quote := Pricing.MarginalQuote(scaled, target);
    if target >= Pricing.SumBuy(scaled) || quote.Rate? then
      Answer(quote, MakeOffersFromRaw(text, JsSlice(scaled, OffersShown)), TakeViews(text, takes))
    else PriceUndefined
  }

  /**
   * The answer for a resolved pair: the one for the fetched records after
   * the in-place scaling (the caller's list holds them from then on).
   */
  function LegacyAnswerOf(pair: Pair, amount: int, book: OrderBook, oracle: EventsOracle): LegacyAnswer
    requires 0 <= pair.fromDecimals <= 18 && 0 <= pair.toDecimals <= 18
  {
    ScaledAnswer(pair.text, Pricing.OffersToWei(LegacyOffers(book), pair.fromDecimals, pair.toDecimals),
                 amount * Pow10(18), LegacyTakes(oracle))
  }

  /** Every decimals answer is one `offersToWei` can scale by. */
  ghost predicate DecimalsInRange(decimalsOf: string -> int)
  {
    forall s :: 0 <= decimalsOf(s) <= 18
  }

  /** The pair of a successful lookup has decimals in range. */
  lemma ResolvedDecimalsInRange(text: string, contracts: map<string, Address>, decimalsOf: string -> int, whitelisted: bool)
    requires DecimalsInRange(decimalsOf)
    requires GetPairAndCheck(text, contracts, decimalsOf, whitelisted).Some?
    ensures var p := GetPairAndCheck(text, contracts, decimalsOf, whitelisted).value;
      0 <= p.fromDecimals <= 18 && 0 <= p.toDecimals <= 18
  {
    var p := GetPairAndCheck(text, contracts, decimalsOf, whitelisted).value;
    assert 0 <= decimalsOf(p.fromText) <= 18 && 0 <= decimalsOf(p.toText) <= 18;
  }

  /**
   * The price part of `getPrice` over the scaled objects: 0 when the target
   * is at least their buy total, else the rate of the first object at which
   * the remaining amount drops to 0 or below, else no price at all.
   */
  method ScaledPrice(offers: seq<OfferRecord>, target: int) returns (price: Option<Pricing.Quote>)
    ensures price.Some? <==> target >= Pricing.SumBuy(Values(offers)) || Pricing.MarginalQuote(Values(offers), target).Rate?
    ensures price.Some? ==> price.value == Pricing.MarginalQuote(Values(offers), target)
  {
    var scaled := Values(offers);
    var allAmount := Pricing.SumBuy(scaled);
    if target >= allAmount {
      return Some(Pricing.Unfillable);
    }
    price := None;
    var amount := target;
    var i := 0;
    while i < |offers|
      invariant 0 <= i <= |offers|
      invariant amount == target - Pricing.SumBuy(scaled[..i])
      invariant forall j :: 0 <= j < i ==> Pricing.Through(scaled, j) < target
    {
      assert scaled[..i + 1][..i] == scaled[..i];
      amount := amount - offers[i].buyAmt;
      if amount <= 0 {
        Pricing.MarginalFromFinds(scaled, target, i);
        price := Some(Pricing.Rate(offers[i].payAmt, offers[i].buyAmt));
        return;
      }
      i := i + 1;
    }
    Pricing.MarginalFromMisses(scaled, target);
  }

  /**
   * `getPrice(pairText, amount)` as the older copy runs it: resolve the
   * pair, then answer for it.
   */
  method GetPrice(pairText: string, amount: int, contracts: map<string, Address>, decimalsOf: string -> int,
                  whitelisted: bool, book: OrderBook, oracle: EventsOracle)
    returns (r: LegacyAnswer)
    requires DecimalsInRange(decimalsOf)
    ensures GetPairAndCheck(pairText, contracts, decimalsOf, whitelisted).None? ==> r == NotResolved
    ensures GetPairAndCheck(pairText, contracts, decimalsOf, whitelisted).Some? ==>
      var pair := GetPairAndCheck(pairText, contracts, decimalsOf, whitelisted).value;
      0 <= pair.fromDecimals <= 18 && 0 <= pair.toDecimals <= 18 && r == LegacyAnswerOf(pair, amount, book, oracle)
  {
    var found := GetPairAndCheck(pairText, contracts, decimalsOf, whitelisted);
    if found.None? {
      return NotResolved;
    }
    ResolvedDecimalsInRange(pairText, contracts, decimalsOf, whitelisted);
    r := AnswerForPair(found.value, amount, book, oracle);
  }

  /**
   * The rest of `getPrice` once the pair resolved: fetch, then scale in
   * place; from then on the caller's list holds the scaled objects.
   */
  method AnswerForPair(pair: Pair, amount: int, book: OrderBook, oracle: EventsOracle) returns (r: LegacyAnswer)
    requires 0 <= pair.fromDecimals <= 18 && 0 <= pair.toDecimals <= 18
    ensures r == LegacyAnswerOf(pair, amount, book, oracle)
  {
    var target := amount * Pow10(18);
    var offersRaw := GetAllOfferForPair(book);
    var offers := OffersToWei(offersRaw, pair.fromDecimals, pair.toDecimals);
    assert offersRaw == offers;
    r := AnswerForScaled(pair.text, offersRaw, target, oracle);
  }

  /**
   * Total, walk, and answer with the offers read back from the scaled
   * objects and the trades of the scan.
   */
  method AnswerForScaled(text: string, offersRaw: seq<OfferRecord>, target: int, oracle: EventsOracle) returns (r: LegacyAnswer)
    ensures r == ScaledAnswer(text, Values(offersRaw), target, LegacyTakes(oracle))
  {
    var price := ScaledPrice(offersRaw, target);
    if price.None? {
      return PriceUndefined;
    }
    var takes := GetLastTakedOrder(oracle);
    var shown := MakeOffersFromRaw(text, JsSlice(Values(offersRaw), OffersShown));
    r := Answer(price.value, shown, TakeViews(text, takes));
  }

  /**
   * The offers shown next to a price are the fetched records after the
   * in-place scaling: at most eleven, each with its amounts multiplied by
   * `10^(18 - decimals)`, not the amounts read from the book.
   */
  lemma ShownOffersAreScaled(pair: Pair, amount: int, book: OrderBook, oracle: EventsOracle)
    requires 0 <= pair.fromDecimals <= 18 && 0 <= pair.toDecimals <= 18
    requires LegacyAnswerOf(pair, amount, book, oracle).Answer?
    ensures var shown := LegacyAnswerOf(pair, amount, book, oracle).offers;
      var raw := LegacyOffers(book);
      && |shown| == (if |raw| < OffersShown then |raw| else OffersShown)
      && forall k :: 0 <= k < |shown| ==>
           && shown[k].payAmt == raw[k].pay * Pow10(18 - pair.fromDecimals)
           && shown[k].buyAmt == raw[k].buy * Pow10(18 - pair.toDecimals)
  {
    var raw := LegacyOffers(book);
    var scaled := Pricing.OffersToWei(raw, pair.fromDecimals, pair.toDecimals);
    var cut := JsSlice(scaled, OffersShown);
    var shown := LegacyAnswerOf(pair, amount, book, oracle).offers;
    ShownOffersOf(pair.text, scaled, amount * Pow10(18), LegacyTakes(oracle));
    assert shown == MakeOffersFromRaw(pair.text, cut);
    assert |cut| == (if |raw| < OffersShown then |raw| else OffersShown);
    forall k | 0 <= k < |shown|
      ensures shown[k].payAmt == raw[k].pay * Pow10(18 - pair.fromDecimals)
      ensures shown[k].buyAmt == raw[k].buy * Pow10(18 - pair.toDecimals)
    {
      assert shown[k].payAmt == cut[k].pay && shown[k].buyAmt == cut[k].buy;
      assert cut[k] == scaled[k];
    }
  }

  /** An answer shows the first eleven of the records it was computed from. */
  lemma ShownOffersOf(text: string, scaled: seq<RawOffer>, target: int, takes: seq<TakeEvent>)
    requires ScaledAnswer(text, scaled, target, takes).Answer?
    ensures ScaledAnswer(text, scaled, target, takes).offers == MakeOffersFromRaw(text, JsSlice(scaled, OffersShown))
  {
  }

  /** A negative amount is below zero after scaling, and a non-negative one is not. */
  lemma ScaledSign(amount: int)
    ensures amount * Pow10(18) < 0 <==> amount < 0
  {
    var p := Pow10(18);
    if amount < 0 {
      assert amount * p <= amount * 1;
    } else {
      assert amount * p >= 0;
    }
  }

  /**
   * `price.toString()` throws exactly when the fetch found no record and
   * the amount is negative: then no branch sets `price`.
   */
  lemma PriceUndefinedIff(pair: Pair, amount: int, book: OrderBook, oracle: EventsOracle)
    requires 0 <= pair.fromDecimals <= 18 && 0 <= pair.toDecimals <= 18
    ensures LegacyAnswerOf(pair, amount, book, oracle) == PriceUndefined <==> LegacyOffers(book) == [] && amount < 0
  {
    var scaled := Pricing.OffersToWei(LegacyOffers(book), pair.fromDecimals, pair.toDecimals);
    Pricing.FallThroughOnlyWhenEmpty(scaled, amount * Pow10(18));
    ScaledSign(amount);
  }

  /** The price is 0 exactly when `amount * 10^18` is at least the scaled buy total. */
  lemma LegacyUnfillableIff(pair: Pair, amount: int, book: OrderBook, oracle: EventsOracle)
    requires 0 <= pair.fromDecimals <= 18 && 0 <= pair.toDecimals <= 18
    ensures var scaled := Pricing.OffersToWei(LegacyOffers(book), pair.fromDecimals, pair.toDecimals);
      (LegacyAnswerOf(pair, amount, book, oracle).Answer? && LegacyAnswerOf(pair, amount, book, oracle).price == Pricing.Unfillable)
      <==> amount * Pow10(18) >= Pricing.SumBuy(scaled)
  {
    var scaled := Pricing.OffersToWei(LegacyOffers(book), pair.fromDecimals, pair.toDecimals);
  }
}
