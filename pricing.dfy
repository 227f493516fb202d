/**
 * Decimal normalisation and the price walk shared by both copies of the
 * engine: amounts are scaled to 18 decimals, and the price is the
 * pay/buy rate of the offer at which the requested amount is covered.
 */
module Pricing {
  import opened Ledger

  /** An amount in a token with `decimals` decimals, scaled to 18 decimals. */
  function ToWei(raw: nat, decimals: int): nat
    requires 0 <= decimals <= 18
  {
    raw * Pow10(18 - decimals)
  }

  /** `offersToWei` of the current copy: a scaled copy of every record, ids kept. */
  function OffersToWei(offers: seq<RawOffer>, fromDecimals: int, toDecimals: int): (r: seq<RawOffer>)
    requires 0 <= fromDecimals <= 18 && 0 <= toDecimals <= 18
    ensures |r| == |offers|
    ensures forall k :: 0 <= k < |offers| ==>
      && r[k].id == offers[k].id
      && r[k].pay == offers[k].pay * Pow10(18 - fromDecimals)
      && r[k].buy == offers[k].buy * Pow10(18 - toDecimals)
  {
    if offers == [] then []
    else
      [RawOffer(ToWei(offers[0].pay, fromDecimals), ToWei(offers[0].buy, toDecimals), offers[0].id)]
      + OffersToWei(offers[1..], fromDecimals, toDecimals)
  }

  /** The `reduce` total: the sum of the buy amounts, added left to right. */
  function SumBuy(offers: seq<RawOffer>): int
  {
    if offers == [] then 0 else SumBuy(offers[..|offers| - 1]) + offers[|offers| - 1].buy
  }

  /** The buy amount of offers `0..k`, both ends included. */
  function Through(offers: seq<RawOffer>, k: nat): int
    requires k < |offers|
  {
    SumBuy(offers[..k + 1])
  }

  /** Sums of buy amounts never go down as the prefix grows. */
  lemma {:induction false} SumBuyPrefixMonotone(offers: seq<RawOffer>, i: nat, j: nat)
    requires i <= j <= |offers|
    ensures 0 <= SumBuy(offers[..i]) <= SumBuy(offers[..j])
    decreases j
  {
    if i < j {
      assert offers[..j][..j - 1] == offers[..j - 1];
      SumBuyPrefixMonotone(offers, i, j - 1);
    } else if i > 0 {
      assert offers[..i][..i - 1] == offers[..i - 1];
      SumBuyPrefixMonotone(offers, i - 1, i - 1);
    }
  }

  /** Scaling commutes with taking a prefix of the list. */
  lemma OffersToWeiPrefix(offers: seq<RawOffer>, fromDecimals: int, toDecimals: int, m: nat)
    requires 0 <= fromDecimals <= 18 && 0 <= toDecimals <= 18
    requires m <= |offers|
    ensures OffersToWei(offers, fromDecimals, toDecimals)[..m] == OffersToWei(offers[..m], fromDecimals, toDecimals)
  {
  }

  lemma Distribute(a: int, b: int, p: int)
    ensures a * p + b * p == (a + b) * p
  {
  }

  /** Scaling multiplies the total by the scale of the bought token. */
  lemma {:induction false} SumBuyScales(offers: seq<RawOffer>, fromDecimals: int, toDecimals: int)
    requires 0 <= fromDecimals <= 18 && 0 <= toDecimals <= 18
    ensures SumBuy(OffersToWei(offers, fromDecimals, toDecimals)) == SumBuy(offers) * Pow10(18 - toDecimals)
    decreases |offers|
  {
    if offers != [] {
      var n := |offers|;
      var p := Pow10(18 - toDecimals);
      var scaled := OffersToWei(offers, fromDecimals, toDecimals);
      var init := offers[..n - 1];
      OffersToWeiPrefix(offers, fromDecimals, toDecimals, n - 1);
      SumBuyScales(init, fromDecimals, toDecimals);
      var a, b := SumBuy(init), offers[n - 1].buy;
      assert |scaled| == n;
      assert SumBuy(scaled) == SumBuy(scaled[..n - 1]) + scaled[n - 1].buy;
      assert SumBuy(scaled[..n - 1]) == a * p;
      assert scaled[n - 1].buy == b * p;
      Distribute(a, b, p);
    }
  }

  /** What `getPrice` reports: `0` (unfillable) or the pay/buy pair whose quotient it prints. */
  datatype Quote = Unfillable | Rate(pay: nat, buy: nat)

  /** Offer `k` is the marginal one for `target`: the first whose running buy total reaches it. */
  ghost predicate IsMarginal(offers: seq<RawOffer>, target: int, k: int)
  {
    && 0 <= k < |offers|
    && Through(offers, k) >= target
    && forall j :: 0 <= j < k ==> Through(offers, j) < target
  }

  /** The first index at or after `i` whose running total reaches `target`, or `|offers|`. */
  function MarginalFrom(offers: seq<RawOffer>, target: int, i: nat): (k: nat)
    requires i <= |offers|
    ensures i <= k <= |offers|
    ensures k < |offers| ==> Through(offers, k) >= target
    ensures forall j :: i <= j < k ==> Through(offers, j) < target
    decreases |offers| - i
  {
    if i == |offers| then i
    else if Through(offers, i) >= target then i
    else MarginalFrom(offers, target, i + 1)
  }

  /**
   * The price of `target` (in 18-decimal units) against scaled offers, as
   * the walk defines it: unfillable when the total is not above the target,
   * otherwise the rate of the marginal offer; the walk falls through (also
   * reported as `0`) only on an empty list with a negative target.
   */
  function MarginalQuote(offers: seq<RawOffer>, target: int): Quote
  {
    if target >= SumBuy(offers) then Unfillable
    else
      var k := MarginalFrom(offers, target, 0);
      if k < |offers| then Rate(offers[k].pay, offers[k].buy) else Unfillable
  }

  /** The search finds the marginal offer wherever it is. */
  lemma MarginalFromFinds(offers: seq<RawOffer>, target: int, k: int)
    requires IsMarginal(offers, target, k)
    ensures MarginalFrom(offers, target, 0) == k
  {
  }

  /** The search runs off the end exactly when no running total reaches the target. */
  lemma MarginalFromMisses(offers: seq<RawOffer>, target: int)
    ensures MarginalFrom(offers, target, 0) == |offers| <==> forall j :: 0 <= j < |offers| ==> Through(offers, j) < target
  {
  }

  /** The marginal offer, when there is one, is unique. */
  lemma MarginalUnique(offers: seq<RawOffer>, target: int, k1: int, k2: int)
    requires IsMarginal(offers, target, k1) && IsMarginal(offers, target, k2)
    ensures k1 == k2
  {
  }

  /** A price comes out exactly when the book is not empty and its total exceeds the target. */
  lemma QuoteFillable(offers: seq<RawOffer>, target: int)
    ensures MarginalQuote(offers, target).Rate? <==> offers != [] && target < SumBuy(offers)
  {
    if offers != [] && target < SumBuy(offers) {
      assert offers[..|offers|] == offers;
      assert Through(offers, |offers| - 1) == SumBuy(offers);
      var k := MarginalFrom(offers, target, 0);
    }
  }

  /** The price is the rate of the marginal offer, and of nothing else. */
  lemma QuoteIsMarginalRate(offers: seq<RawOffer>, target: int, pay: nat, buy: nat)
    ensures MarginalQuote(offers, target) == Rate(pay, buy) <==>
      && target < SumBuy(offers)
      && exists k :: IsMarginal(offers, target, k) && offers[k].pay == pay && offers[k].buy == buy
  {
    if target < SumBuy(offers) {
      var k := MarginalFrom(offers, target, 0);
      if k < |offers| {
        assert IsMarginal(offers, target, k);
        forall k' | IsMarginal(offers, target, k') ensures k' == k {
          MarginalUnique(offers, target, k, k');
        }
      } else {
        forall k' | 0 <= k' < |offers| ensures !IsMarginal(offers, target, k') {
        }
      }
    }
  }

  /**
   * When the target is below the total, the walk still finds no offer only
   * on an empty list, that is, only for a negative target.
   */
  lemma FallThroughOnlyWhenEmpty(offers: seq<RawOffer>, target: int)
    ensures (target < SumBuy(offers) && MarginalQuote(offers, target) == Unfillable) <==> (offers == [] && target < 0)
  {
    QuoteFillable(offers, target);
  }

  /** Asking for more never moves the marginal offer towards the front of the book. */
  lemma {:induction false} MarginalMonotone(offers: seq<RawOffer>, t1: int, t2: int, i: nat)
    requires t1 <= t2 && i <= |offers|
    ensures MarginalFrom(offers, t1, i) <= MarginalFrom(offers, t2, i)
    decreases |offers| - i
  {
    if i < |offers| && Through(offers, i) < t1 {
      MarginalMonotone(offers, t1, t2, i + 1);
    }
  }

  /** The rates `pay / buy` do not fall along the list (compared by cross-multiplying). */
  ghost predicate RisingRateLadder(offers: seq<RawOffer>)
  {
    forall i, j :: 0 <= i < j < |offers| ==> offers[i].pay * offers[j].buy <= offers[j].pay * offers[i].buy
  }

  /**
   * On a list whose `pay / buy` does not fall towards the back, asking for
   * more never gives a lower `pay / buy` than asking for less.
   */
  lemma QuoteMonotone(offers: seq<RawOffer>, t1: int, t2: int)
    requires RisingRateLadder(offers)
    requires t1 <= t2
    requires MarginalQuote(offers, t2).Rate?
    ensures MarginalQuote(offers, t1).Rate?
    ensures var q1, q2 := MarginalQuote(offers, t1), MarginalQuote(offers, t2);
      q1.pay * q2.buy <= q2.pay * q1.buy
  {
    QuoteFillable(offers, t2);
    QuoteFillable(offers, t1);
    MarginalMonotone(offers, t1, t2, 0);
  }

  /** The rates `pay / buy` do not rise along the list: the order `getBestOffer` and `getWorseOffer` walk. */
  ghost predicate FallingRateLadder(offers: seq<RawOffer>)
  {
    forall i, j :: 0 <= i < j < |offers| ==> offers[j].pay * offers[i].buy <= offers[i].pay * offers[j].buy
  }

  /**
   * On a list running from the highest `pay / buy` down, asking for more
   * never gives a higher `pay / buy` than asking for less.
   */
  lemma QuoteMonotoneBestFirst(offers: seq<RawOffer>, t1: int, t2: int)
    requires FallingRateLadder(offers)
    requires t1 <= t2
    requires MarginalQuote(offers, t2).Rate?
    ensures MarginalQuote(offers, t1).Rate?
    ensures var q1, q2 := MarginalQuote(offers, t1), MarginalQuote(offers, t2);
      q2.pay * q1.buy <= q1.pay * q2.buy
  {
    QuoteFillable(offers, t2);
    QuoteFillable(offers, t1);
    MarginalMonotone(offers, t1, t2, 0);
  }

  /** The worked example: with offers (100, 50) and (300, 100), 80 units cost 300/100. */
  lemma LadderExample()
    ensures MarginalQuote([RawOffer(100, 50, 1), RawOffer(300, 100, 2)], 80) == Rate(300, 100)
  {
    var offers := [RawOffer(100, 50, 1), RawOffer(300, 100, 2)];
    assert offers[..2] == offers;
    assert offers[..1] == [RawOffer(100, 50, 1)];
    assert offers[..2][..1] == offers[..1];
    assert Through(offers, 0) == 50;
    assert Through(offers, 1) == 150;
  }
}
