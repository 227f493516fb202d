/**
 * The current copy of the price engine, the `OasisApi` class of
 * src/oasis_api.js. Every remote read goes to a snapshot (`OrderBook`),
 * an events oracle or a decimals oracle passed in.
 */
module OasisApi {
  import opened Wrappers
  import opened Ledger
  import opened Pairs
  import opened PairText
  import opened Tokens
  import opened Pricing
  import opened EventScan

  /** The configuration values the class reads. */
  datatype Config = Config(maxOfferCount: int, attemptsCount: int, lastCheckBlock: int, eventBlockStep: int)

  /**
   * The three error templates the class throws, and `Unsettled`: the
   * snapshots given to a traversal ran out while the source would still be
   * retrying.
   */
  datatype ApiError = CantParsePair | UnknownToken(symbol: string) | TradeTooFast | Unsettled

  /**
   * `getPairFromText`: split the text, look both symbols up in the token
   * table (a symbol is known iff the table has it) and read the decimals.
   */
  function GetPairFromText(text: string, tokens: map<string, Address>, decimalsOf: string -> int): (r: Result<Pair, ApiError>)
    ensures r == Err(CantParsePair) <==> '/' !in text
  {
    match ParsePairText(text)
    case None => Err(CantParsePair)
    case Some((from, to)) =>
      if from !in tokens || to !in tokens then
        Err(UnknownToken(if from in tokens then to else from))
      else
        Ok(NewPair(PairArgs(text, tokens[from], from, TokenDecimals(from, decimalsOf),
                            tokens[to], to, TokenDecimals(to, decimalsOf))))
  }

  /**
   * Once the text splits into `f` and `t`: an unknown `f` is reported
   * first, then an unknown `t`, and two known symbols give the pair with
   * the text, both symbols, both table addresses and their decimals.
   */
  lemma GetPairFromTextSpec(text: string, tokens: map<string, Address>, decimalsOf: string -> int, f: string, t: string)
    requires IsPairSplit(text, f, t)
    ensures f !in tokens ==> GetPairFromText(text, tokens, decimalsOf) == Err(UnknownToken(f))
    ensures f in tokens && t !in tokens ==> GetPairFromText(text, tokens, decimalsOf) == Err(UnknownToken(t))
    ensures f in tokens && t in tokens ==>
      && GetPairFromText(text, tokens, decimalsOf).Ok?
      && var p := GetPairFromText(text, tokens, decimalsOf).value;
      && p.text == text && p.fromText == f && p.toText == t
      && p.from == tokens[f] && p.to == tokens[t]
      && p.fromDecimals == TokenDecimals(f, decimalsOf) && p.toDecimals == TokenDecimals(t, decimalsOf)
  {
    ParsePairTextComplete(text, f, t);
  }

  /** `'ololo'` has no '/', so it cannot be parsed. */
  lemma NoSlashFails(tokens: map<string, Address>, decimalsOf: string -> int)
    ensures GetPairFromText("ololo", tokens, decimalsOf) == Err(CantParsePair)
  {
    assert forall k :: 0 <= k < 5 ==> "ololo"[k] != '/';
  }

  /** `'DAI/OLOLO'` with `DAI` known and `OLOLO` not names `OLOLO`. */
  lemma UnknownTargetFails(tokens: map<string, Address>, decimalsOf: string -> int)
    requires "DAI" in tokens && "OLOLO" !in tokens
    ensures GetPairFromText("DAI/OLOLO", tokens, decimalsOf) == Err(UnknownToken("OLOLO"))
  {
    ParseRoundTrip("DAI", "OLOLO", "");
    assert "DAI" + "/" + "OLOLO" + "" == "DAI/OLOLO";
  }

  /** `'DAI/W-ETH'` with both known and both token contracts answering 18 decimals. */
  lemma KnownPairResolves(tokens: map<string, Address>, decimalsOf: string -> int)
    requires "DAI" in tokens && "W-ETH" in tokens
    requires decimalsOf("DAI") == 18 && decimalsOf("W-ETH") == 18
    ensures GetPairFromText("DAI/W-ETH", tokens, decimalsOf)
         == Ok(Pair("DAI/W-ETH", tokens["DAI"], "DAI", 18, tokens["W-ETH"], "W-ETH", 18))
  {
    var text := "DAI/W-ETH";
    assert ParsePairText(text) == Some(("DAI", "W-ETH")) by {
      ParseRoundTrip("DAI", "W-ETH", "");
      assert "DAI" + "/" + "W-ETH" + "" == text;
    }
    assert TokenDecimals("DAI", decimalsOf) == 18;
    assert TokenDecimals("W-ETH", decimalsOf) == 18;
  }

  /** How one traversal of `getAllOfferForPair` ends. */
  datatype PassResult = Offers(offers: seq<RawOffer>) | Retry(newMaxCount: int) | TooFast

  /**
   * The records read from `h` on over `n` steps, or `None` when the
   * sentinel (pay amount 0) shows up among them.
   */
  function Walk(book: OrderBook, h: Handle, n: nat): Option<seq<RawOffer>>
    decreases n
  {
    if n == 0 then Some([])
    else if GetOffer(book, h).pay == 0 then None
    else
      match Walk(book, GetWorseOffer(book, h), n - 1)
      case None => None
      case Some(rest) => Some([RawOffer(GetOffer(book, h).pay, GetOffer(book, h).buy, h)] + rest)
  }

  /** None of the first `n` positions of the list from `h` is the sentinel. */
  ghost predicate NoSentinel(book: OrderBook, h: Handle, n: nat)
  {
    forall k :: 0 <= k < n ==> GetOffer(book, HandleAt(book, h, k)).pay != 0
  }

  /** No sentinel among the first `n` positions from `h`: none at `h`, and none among the first `n - 1` after it. */
  lemma NoSentinelShift(book: OrderBook, h: Handle, n: nat)
    requires n > 0
    ensures NoSentinel(book, h, n) <==> GetOffer(book, h).pay != 0 && NoSentinel(book, GetWorseOffer(book, h), n - 1)
  {
    var h' := GetWorseOffer(book, h);
    assert HandleAt(book, h, 0) == h;
    if NoSentinel(book, h, n) {
      assert GetOffer(book, HandleAt(book, h, 0)).pay != 0;
      forall k | 0 <= k < n - 1 ensures GetOffer(book, HandleAt(book, h', k)).pay != 0 {
        assert HandleAt(book, h, k + 1) == HandleAt(book, h', k);
        assert GetOffer(book, HandleAt(book, h, k + 1)).pay != 0;
      }
    } else {
      var j :| 0 <= j < n && GetOffer(book, HandleAt(book, h, j)).pay == 0;
      if j > 0 {
        assert HandleAt(book, h, j) == HandleAt(book, h', j - 1);
      }
    }
  }

  /** The walk succeeds iff none of the first `n` positions is the sentinel, and then reads position `k` at index `k`. */
  lemma {:induction false} WalkSpec(book: OrderBook, h: Handle, n: nat)
    ensures Walk(book, h, n).Some? <==> NoSentinel(book, h, n)
    ensures Walk(book, h, n).Some? ==>
      |Walk(book, h, n).value| == n && forall k :: 0 <= k < n ==> Walk(book, h, n).value[k] == OfferAt(book, h, k)
    decreases n
  {
    if n > 0 {
      var h' := GetWorseOffer(book, h);
      NoSentinelShift(book, h, n);
      if GetOffer(book, h).pay != 0 {
        WalkSpec(book, h', n - 1);
        if Walk(book, h, n).Some? {
          var r := Walk(book, h, n).value;
          forall k | 0 <= k < n ensures r[k] == OfferAt(book, h, k) {
            if k > 0 {
              assert r[k] == Walk(book, h', n - 1).value[k - 1];
            }
          }
        }
      }
    }
  }

  /** The number of offers a pass expects: `Math.min(maxCount, getCount)`, none when that is not positive. */
  function Expected(book: OrderBook, maxCount: int): nat
  {
    Max0(Min(maxCount, book.count))
  }

  /**
   * One pass over the snapshot `book`: the expected number of records, or,
   * at the sentinel, a retry whose *max count* is `attempt - 1` (the
   * argument lands in the `maxCount` slot), or `TooFast` when `attempt <= 0`.
   */
  function Pass(book: OrderBook, maxCount: int, attempt: int): PassResult
  {
    match Walk(book, book.best, Expected(book, maxCount))
    case Some(offers) => Offers(offers)
    case None => if attempt > 0 then Retry(attempt - 1) else TooFast
  }

  /**
   * What a pass returns: every expected position when none of them is the
   * sentinel, in list order with the handle each was read from; otherwise
   * the retry or the error.
   */
  lemma PassSpec(book: OrderBook, maxCount: int, attempt: int)
    ensures var n := Expected(book, maxCount);
      && (Pass(book, maxCount, attempt).Offers? <==> NoSentinel(book, book.best, n))
      && (Pass(book, maxCount, attempt).Offers? ==>
            && |Pass(book, maxCount, attempt).offers| == n
            && forall k :: 0 <= k < n ==> Pass(book, maxCount, attempt).offers[k] == OfferAt(book, book.best, k))
      && (!Pass(book, maxCount, attempt).Offers? ==>
            Pass(book, maxCount, attempt) == if attempt > 0 then Retry(attempt - 1) else TooFast)
  {
    WalkSpec(book, book.best, Expected(book, maxCount));
  }

  /**
   * The offers of a pass form a chain: the first is the best offer, each
   * next one is the worse offer of the one before, none is the sentinel,
   * and each carries the amounts read at its own handle.
   */
  lemma PassOffersLinked(book: OrderBook, maxCount: int, attempt: int)
    requires Pass(book, maxCount, attempt).Offers?
    ensures var o := Pass(book, maxCount, attempt).offers;
      && (o != [] ==> o[0].id == book.best)
      && (forall k :: 0 <= k < |o| - 1 ==> o[k + 1].id == GetWorseOffer(book, o[k].id))
      && (forall k :: 0 <= k < |o| ==>
            o[k].pay != 0 && o[k].pay == GetOffer(book, o[k].id).pay && o[k].buy == GetOffer(book, o[k].id).buy)
  {
    PassSpec(book, maxCount, attempt);
    var o := Pass(book, maxCount, attempt).offers;
    forall k | 0 <= k < |o|
      ensures o[k].pay != 0 && o[k].pay == GetOffer(book, o[k].id).pay && o[k].buy == GetOffer(book, o[k].id).buy
    {
      assert o[k] == OfferAt(book, book.best, k);
      assert o[k].id == HandleAt(book, book.best, k);
    }
    forall k | 0 <= k < |o| - 1 ensures o[k + 1].id == GetWorseOffer(book, o[k].id) {
      HandleAtNext(book, book.best, k);
    }
  }

  /**
   * One traversal of `getAllOfferForPair` over the snapshot `book`, as the
   * source writes it, the inner `if (i > 0)` and its dead `break` included.
   */
  method OfferPass(book: OrderBook, maxCount: int, attempt: int) returns (r: PassResult)
    ensures r == Pass(book, maxCount, attempt)
  {
    WalkSpec(book, book.best, Expected(book, maxCount));
    var offers: seq<RawOffer> := [];
    var offerId := book.best;
    var i := Min(maxCount, book.count);
    while i > 0
      invariant |offers| + Max0(i) == Expected(book, maxCount)
      invariant offerId == HandleAt(book, book.best, |offers|)
      invariant forall k :: 0 <= k < |offers| ==> offers[k] == OfferAt(book, book.best, k)
      invariant forall k :: 0 <= k < |offers| ==> GetOffer(book, HandleAt(book, book.best, k)).pay != 0
    {
      var bestOffer := GetOffer(book, offerId);
      var nextOfferId := GetWorseOffer(book, offerId);
      if bestOffer.pay == 0 {
        if i > 0 {
          if attempt > 0 {
            return Retry(attempt - 1);
          } else {
            return TooFast;
          }
        }
        break;
      }
      HandleAtNext(book, book.best, |offers|);
      offers := offers + [RawOffer(bestOffer.pay, bestOffer.buy, offerId)];
      offerId := nextOfferId;
      i := i - 1;
    }
    return Offers(offers);
  }

  /**
   * `getAllOfferForPair` over the snapshots its passes see, one per pass:
   * a retry calls the function again with `maxCount = attempt - 1` and the
   * attempt budget back at its default.
   */
  function Fetch(cfg: Config, snapshots: seq<OrderBook>, maxCount: int, attempt: int): Result<seq<RawOffer>, ApiError>
    decreases |snapshots|
  {
    if snapshots == [] then Err(Unsettled)
    else
      match Pass(snapshots[0], maxCount, attempt)
      case Offers(offers) => Ok(offers)
      case TooFast => Err(TradeTooFast)
      case Retry(newMaxCount) => Fetch(cfg, snapshots[1..], newMaxCount, cfg.attemptsCount)
  }

  /** `getAllOfferForPair`: passes until one returns or throws, retrying on the next snapshot. */
  method GetAllOfferForPair(cfg: Config, snapshots: seq<OrderBook>, maxCount: int, attempt: int)
    returns (r: Result<seq<RawOffer>, ApiError>)
    ensures r == Fetch(cfg, snapshots, maxCount, attempt)
    decreases |snapshots|
  {
    if snapshots == [] {
      return Err(Unsettled);
    }
    var pass := OfferPass(snapshots[0], maxCount, attempt);
    match pass {
      case Offers(offers) =>
        r := Ok(offers);
      case TooFast =>
        r := Err(TradeTooFast);
      case Retry(newMaxCount) =>
        r := GetAllOfferForPair(cfg, snapshots[1..], newMaxCount, cfg.attemptsCount);
    }
  }

  /**
   * Whatever a traversal returns is the complete answer of one pass: the
   * pass's expected count of linked records, none of them the sentinel.
   */
  lemma {:induction false} FetchedIsAPass(cfg: Config, snapshots: seq<OrderBook>, maxCount: int, attempt: int)
    requires Fetch(cfg, snapshots, maxCount, attempt).Ok?
    ensures var o := Fetch(cfg, snapshots, maxCount, attempt).value;
      exists i, m, a :: 0 <= i < |snapshots| && Pass(snapshots[i], m, a) == Offers(o)
    ensures forall k :: 0 <= k < |Fetch(cfg, snapshots, maxCount, attempt).value| ==>
      Fetch(cfg, snapshots, maxCount, attempt).value[k].pay != 0
    decreases |snapshots|
  {
    var o := Fetch(cfg, snapshots, maxCount, attempt).value;
    match Pass(snapshots[0], maxCount, attempt)
    case Offers(_) =>
      PassOffersLinked(snapshots[0], maxCount, attempt);
      assert Pass(snapshots[0], maxCount, attempt) == Offers(o);
    case Retry(m) =>
      var rest := snapshots[1..];
      FetchedIsAPass(cfg, rest, m, cfg.attemptsCount);
      var i, m', a :| 0 <= i < |rest| && Pass(rest[i], m', a) == Offers(o);
      assert snapshots[i + 1] == rest[i];
  }

  /**
   * The attempt budget starts again at its default on every retry: with a
   * positive default, `TRADE_TOO_FAST` comes only from the very first pass.
   */
  lemma {:induction false} TooFastOnlyFirst(cfg: Config, snapshots: seq<OrderBook>, maxCount: int, attempt: int)
    requires cfg.attemptsCount > 0
    ensures Fetch(cfg, snapshots, maxCount, attempt) == Err(TradeTooFast) <==>
      snapshots != [] && Pass(snapshots[0], maxCount, attempt) == TooFast
    decreases |snapshots|
  {
    if snapshots != [] {
      match Pass(snapshots[0], maxCount, attempt)
      case Offers(_) =>
      case TooFast =>
      case Retry(m) =>
        var rest := snapshots[1..];
        TooFastOnlyFirst(cfg, rest, m, cfg.attemptsCount);
        if rest != [] {
          PassSpec(rest[0], m, cfg.attemptsCount);
        }
    }
  }

  /** Every pass meets the sentinel at the best offer of a non-empty list. */
  ghost predicate AllSentinelFirst(snapshots: seq<OrderBook>)
  {
    forall i :: 0 <= i < |snapshots| ==> snapshots[i].count > 0 && GetOffer(snapshots[i], snapshots[i].best).pay == 0
  }

  /**
   * Retries are not bounded: with a positive default count and budgets of
   * at least 2, a list that keeps showing the sentinel is
   * retried on every snapshot there is, and no error is ever thrown.
   */
  lemma {:induction false} RetriesNeverEnd(cfg: Config, snapshots: seq<OrderBook>, attempt: int)
    requires cfg.maxOfferCount > 0 && cfg.attemptsCount >= 2 && attempt >= 2
    requires AllSentinelFirst(snapshots)
    ensures Fetch(cfg, snapshots, cfg.maxOfferCount, attempt) == Err(Unsettled)
    decreases |snapshots|
  {
    if snapshots != [] {
      RetriesNeverEndFrom(cfg, snapshots, cfg.maxOfferCount, attempt);
    }
  }

  /** The same from any pass with a positive max count. */
  lemma {:induction false} RetriesNeverEndFrom(cfg: Config, snapshots: seq<OrderBook>, maxCount: int, attempt: int)
    requires cfg.attemptsCount >= 2 && attempt >= 2
    requires AllSentinelFirst(snapshots)
    requires snapshots != [] ==> maxCount > 0
    ensures Fetch(cfg, snapshots, maxCount, attempt) == Err(Unsettled)
    decreases |snapshots|
  {
    if snapshots != [] {
      var book := snapshots[0];
      assert book.count > 0 && GetOffer(book, book.best).pay == 0;
      assert Expected(book, maxCount) > 0;
      assert GetOffer(book, HandleAt(book, book.best, 0)).pay == 0;
      PassSpec(book, maxCount, attempt);
      assert Pass(book, maxCount, attempt) == Retry(attempt - 1);
      var rest := snapshots[1..];
      assert AllSentinelFirst(rest) by {
        forall i | 0 <= i < |rest| ensures rest[i].count > 0 && GetOffer(rest[i], rest[i].best).pay == 0 {
          assert rest[i] == snapshots[i + 1];
        }
      }
      RetriesNeverEndFrom(cfg, rest, attempt - 1, cfg.attemptsCount);
    }
  }

  /**
   * The shifted retry cuts the book short without a word: the first pass
   * meets the sentinel, and the retry, run with max count `3 - 1`, returns
   * two offers of a list of three.
   */
  lemma RetryTruncatesExample()
    ensures var cfg := Config(1000, 3, 0, 1);
      var raced := OrderBook(3, 1, map[], map[]);
      var settled := OrderBook(3, 1, map[1 := Amounts(10, 1), 2 := Amounts(20, 2), 3 := Amounts(30, 3)], map[1 := 2, 2 := 3]);
      Fetch(cfg, [raced, settled], 1000, 3) == Ok([RawOffer(10, 1, 1), RawOffer(20, 2, 2)])
  {
    var cfg := Config(1000, 3, 0, 1);
    var raced := OrderBook(3, 1, map[], map[]);
    var settled := OrderBook(3, 1, map[1 := Amounts(10, 1), 2 := Amounts(20, 2), 3 := Amounts(30, 3)], map[1 := 2, 2 := 3]);
    assert Pass(raced, 1000, 3) == Retry(2);
    assert Expected(settled, 2) == 2;
    assert GetOffer(settled, 1) == Amounts(10, 1) && GetWorseOffer(settled, 1) == 2;
    assert GetOffer(settled, 2) == Amounts(20, 2) && GetWorseOffer(settled, 2) == 3;
    assert Walk(settled, 3, 0) == Some([]);
    assert [RawOffer(20, 2, 2)] + [] == [RawOffer(20, 2, 2)];
    assert [RawOffer(10, 1, 1)] + [RawOffer(20, 2, 2)] == [RawOffer(10, 1, 1), RawOffer(20, 2, 2)];
    assert Walk(settled, 2, 1) == Some([RawOffer(20, 2, 2)]);
    assert Walk(settled, 1, 2) == Some([RawOffer(10, 1, 1), RawOffer(20, 2, 2)]);
    assert [raced, settled][1..] == [settled];
  }

  /** An empty book is read over no position and is not retried, although its best offer is the sentinel. */
  lemma EmptyBookExample()
    ensures Fetch(Config(1000, 2, 0, 1), [OrderBook(0, 0, map[], map[])], 1000, 2) == Ok([])
  {
    var empty := OrderBook(0, 0, map[], map[]);
    assert Expected(empty, 1000) == 0;
    assert Walk(empty, 0, 0) == Some([]);
  }

  /**
   * With an attempts count of 1 the retry runs with a maximum count of 0: it
   * reads nothing and the empty list comes back as a success.
   */
  lemma RetryEmptiesExample()
    ensures var cfg := Config(1000, 1, 0, 1);
      var raced := OrderBook(3, 1, map[], map[]);
      var settled := OrderBook(3, 1, map[1 := Amounts(10, 1), 2 := Amounts(20, 2), 3 := Amounts(30, 3)], map[1 := 2, 2 := 3]);
      Fetch(cfg, [raced, settled], 1000, 1) == Ok([])
  {
    var raced := OrderBook(3, 1, map[], map[]);
    var settled := OrderBook(3, 1, map[1 := Amounts(10, 1), 2 := Amounts(20, 2), 3 := Amounts(30, 3)], map[1 := 2, 2 := 3]);
    assert Pass(raced, 1000, 1) == Retry(0);
    assert Expected(settled, 0) == 0;
    assert Walk(settled, 1, 0) == Some([]);
    assert [raced, settled][1..] == [settled];
  }

  /** With an attempts count of 0 the first race already fails with `TRADE_TOO_FAST`. */
  lemma NoRetryExample()
    ensures var cfg := Config(1000, 0, 0, 1);
      var raced := OrderBook(3, 1, map[], map[]);
      var settled := OrderBook(3, 1, map[1 := Amounts(10, 1), 2 := Amounts(20, 2), 3 := Amounts(30, 3)], map[1 := 2, 2 := 3]);
      Fetch(cfg, [raced, settled], 1000, 0) == Err(TradeTooFast)
  {
    var raced := OrderBook(3, 1, map[], map[]);
    assert Pass(raced, 1000, 0) == TooFast;
  }

  /** The price `getPrice` computes from records in token units: the marginal quote of their scaled copies. */
  function PriceOf(pair: Pair, amount: int, rawOffers: seq<RawOffer>): Quote
    requires 0 <= pair.fromDecimals <= 18 && 0 <= pair.toDecimals <= 18
  {
    MarginalQuote(OffersToWei(rawOffers, pair.fromDecimals, pair.toDecimals), amount * Pow10(18))
  }

  /**
   * `getPrice`'s walk over given records: 0 when `amount * 10^18` is at
   * least the scaled total, else the rate of the first offer at which the
   * remaining amount drops to 0 or below, else (an empty list and a
   * negative amount) the trailing 0.
   */
  method PriceOfOffers(pair: Pair, amount: int, rawOffers: seq<RawOffer>) returns (price: Quote)
    requires 0 <= pair.fromDecimals <= 18 && 0 <= pair.toDecimals <= 18
    ensures price == PriceOf(pair, amount, rawOffers)
  {
    var target := amount * Pow10(18);
    var offers := OffersToWei(rawOffers, pair.fromDecimals, pair.toDecimals);
    price := WalkToTarget(offers, target);
  }

  /** The total and the subtracting loop of `getPrice` over scaled records. */
  method WalkToTarget(offers: seq<RawOffer>, target: int) returns (price: Quote)
    ensures price == MarginalQuote(offers, target)
  {
    var allAmount := SumBuy(offers);
    if target >= allAmount {
      return Unfillable;
    }
    var rest := target;
    var i := 0;
    while i < |offers|
      invariant 0 <= i <= |offers|
      invariant rest == target - SumBuy(offers[..i])
      invariant forall j :: 0 <= j < i ==> Through(offers, j) < target
    {
      assert offers[..i + 1][..i] == offers[..i];
      rest := rest - offers[i].buy;
      if rest <= 0 {
        MarginalFromFinds(offers, target, i);
        return Rate(offers[i].pay, offers[i].buy);
      }
      i := i + 1;
    }
    MarginalFromMisses(offers, target);
    return Unfillable;
  }

  /**
   * `getPrice`: given records are used as they are (an empty list
   * included); without them the book is fetched with the default count and
   * budget, and a fetch error propagates.
   */
  method GetPrice(cfg: Config, pair: Pair, amount: int, given: Option<seq<RawOffer>>, snapshots: seq<OrderBook>)
    returns (r: Result<Quote, ApiError>)
    requires 0 <= pair.fromDecimals <= 18 && 0 <= pair.toDecimals <= 18
    ensures given.Some? ==> r == Ok(PriceOf(pair, amount, given.value))
    ensures given.None? ==>
      r == match Fetch(cfg, snapshots, cfg.maxOfferCount, cfg.attemptsCount)
           case Ok(raw) => Ok(PriceOf(pair, amount, raw))
           case Err(e) => Err(e)
  {
    var rawOffers: seq<RawOffer>;
    if given.Some? {
      rawOffers := given.value;
    } else {
      var fetched := GetAllOfferForPair(cfg, snapshots, cfg.maxOfferCount, cfg.attemptsCount);
      if fetched.Err? {
        return Err(fetched.error);
      }
      rawOffers := fetched.value;
    }
    var price := PriceOfOffers(pair, amount, rawOffers);
    return Ok(price);
  }

  /**
   * The price is 0 exactly when the book is empty or `amount * 10^18` is at
   * least the buy total in token units scaled by `10^(18 - toDecimals)`.
   */
  lemma PriceUnfillable(pair: Pair, amount: int, rawOffers: seq<RawOffer>)
    requires 0 <= pair.fromDecimals <= 18 && 0 <= pair.toDecimals <= 18
    ensures PriceOf(pair, amount, rawOffers) == Unfillable <==>
      rawOffers == [] || amount * Pow10(18) >= SumBuy(rawOffers) * Pow10(18 - pair.toDecimals)
  {
    var offers := OffersToWei(rawOffers, pair.fromDecimals, pair.toDecimals);
    QuoteFillable(offers, amount * Pow10(18));
    SumBuyScales(rawOffers, pair.fromDecimals, pair.toDecimals);
  }

  /**
   * A price that is not 0 is the scaled rate of one of the records: the
   * first at which the scaled running total reaches `amount * 10^18`.
   */
  lemma PriceIsMarginal(pair: Pair, amount: int, rawOffers: seq<RawOffer>)
    requires 0 <= pair.fromDecimals <= 18 && 0 <= pair.toDecimals <= 18
    requires PriceOf(pair, amount, rawOffers).Rate?
    ensures var offers := OffersToWei(rawOffers, pair.fromDecimals, pair.toDecimals);
      exists k :: IsMarginal(offers, amount * Pow10(18), k)
        && PriceOf(pair, amount, rawOffers).pay == rawOffers[k].pay * Pow10(18 - pair.fromDecimals)
        && PriceOf(pair, amount, rawOffers).buy == rawOffers[k].buy * Pow10(18 - pair.toDecimals)
  {
    var offers := OffersToWei(rawOffers, pair.fromDecimals, pair.toDecimals);
    var q := PriceOf(pair, amount, rawOffers);
    QuoteIsMarginalRate(offers, amount * Pow10(18), q.pay, q.buy);
  }

  /**
   * `getLastTakeOrder`: one query from the head block to `latest`, then
   * windows of `eventBlockStep` blocks back while at most `limit` events
   * are held and the last window ended above `lastCheckBlock`; the first
   * `limit + 1` events, as views of the pair.
   */
  method GetLastTakeOrder(cfg: Config, oracle: EventsOracle, head: nat, pair: Pair, limit: int)
    returns (takes: seq<OfferView>)
    requires cfg.eventBlockStep > 0 && cfg.lastCheckBlock >= 0
    ensures takes == TakeViews(pair.text,
      JsSlice(Collected(oracle, ScanWindows(oracle, head, cfg.eventBlockStep, cfg.lastCheckBlock, limit)), limit + 1))
  {
    var events := ScanEvents(oracle, head, cfg.eventBlockStep, cfg.lastCheckBlock, limit);
    takes := TakeViews(pair.text, JsSlice(events, limit + 1));
  }
}
