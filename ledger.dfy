/**
 * What the market contract and the token contracts show the price engine.
 * Every remote read becomes a lookup in a snapshot value: one `OrderBook`
 * per traversal, so a list that changes between two traversals is two
 * different snapshots.
 */
module Ledger {
  /** An offer id of the market contract (a uint256). */
  type Handle = nat

  /** A token contract address, as the text the address table holds. */
  type Address = string

  /** Fields 0 and 2 of `getOffer(id)`: what the offer pays and what it wants in return. */
  datatype Amounts = Amounts(pay: nat, buy: nat)

  /** One `{ pay_amt, buy_amt, id }` record of the offer list. */
  datatype RawOffer = RawOffer(pay: nat, buy: nat, id: Handle)

  /**
   * A snapshot of the offer list for one token pair: the answers of
   * `getOfferCount`, `getBestOffer`, `getOffer` and `getWorseOffer`.
   * An id with no entry reads as the contract's zeroed storage.
   */
  datatype OrderBook = OrderBook(count: nat, best: Handle, entries: map<Handle, Amounts>, worse: map<Handle, Handle>)

  function GetOffer(book: OrderBook, id: Handle): Amounts
  {
    if id in book.entries then book.entries[id] else Amounts(0, 0)
  }

  function GetWorseOffer(book: OrderBook, id: Handle): Handle
  {
    if id in book.worse then book.worse[id] else 0
  }

  /** The id reached from `id` after `k` steps along `getWorseOffer`. */
  function HandleAt(book: OrderBook, id: Handle, k: nat): Handle
    decreases k
  {
    if k == 0 then id else HandleAt(book, GetWorseOffer(book, id), k - 1)
  }

  /** The record a traversal reads at position `k` of the list that starts at `id`. */
  function OfferAt(book: OrderBook, id: Handle, k: nat): RawOffer
  {
    var h := HandleAt(book, id, k);
    RawOffer(GetOffer(book, h).pay, GetOffer(book, h).buy, h)
  }

  /** Position `k + 1` is the worse offer of position `k`. */
  lemma {:induction false} HandleAtNext(book: OrderBook, id: Handle, k: nat)
    ensures HandleAt(book, id, k + 1) == GetWorseOffer(book, HandleAt(book, id, k))
    decreases k
  {
    if k > 0 {
      HandleAtNext(book, GetWorseOffer(book, id), k - 1);
    }
  }

  /** `10^k`, the exact integer the scaling multiplies by. */
  function Pow10(k: nat): (r: nat)
    ensures r >= 1
  {
    if k == 0 then 1 else 10 * Pow10(k - 1)
  }

  /** A `LogTake` event: the block it is in and the amounts it moved. */
  datatype TakeEvent = TakeEvent(blockNumber: nat, giveAmt: nat, takeAmt: nat)

  /**
   * An `Offer` of src/offer.js: the pair text and the two amounts it was
   * built from (the division by `10^decimals` it then does is not modelled).
   */
  datatype OfferView = OfferView(pair: string, payAmt: nat, buyAmt: nat)

  /** `makeOffersFromRaw`: one view per record, `pay_amt` as pay and `buy_amt` as buy. */
  function MakeOffersFromRaw(pairText: string, offers: seq<RawOffer>): (views: seq<OfferView>)
    ensures |views| == |offers|
    ensures forall k :: 0 <= k < |offers| ==>
      views[k].pair == pairText && views[k].payAmt == offers[k].pay && views[k].buyAmt == offers[k].buy
  {
    if offers == [] then []
    else [OfferView(pairText, offers[0].pay, offers[0].buy)] + MakeOffersFromRaw(pairText, offers[1..])
  }

  /** `Offer.createFromTakeEvent` over a list: `give_amt` as pay and `take_amt` as buy. */
  function TakeViews(pairText: string, events: seq<TakeEvent>): (views: seq<OfferView>)
    ensures |views| == |events|
    ensures forall k :: 0 <= k < |events| ==>
      views[k].pair == pairText && views[k].payAmt == events[k].giveAmt && views[k].buyAmt == events[k].takeAmt
  {
    if events == [] then []
    else [OfferView(pairText, events[0].giveAmt, events[0].takeAmt)] + TakeViews(pairText, events[1..])
  }

  /** `Math.min`. */
  function Min(a: int, b: int): (m: int)
    ensures m <= a && m <= b && (m == a || m == b)
  {
    if a <= b then a else b
  }

  /** `Math.max(x, 0)`. */
  function Max0(x: int): (m: nat)
    ensures m >= x && (m == x || m == 0)
  {
    if x > 0 then x else 0
  }

  /** The end index `s.slice(0, end)` keeps, negative ends counting from the back. */
  function SliceEnd(len: nat, end: int): (e: nat)
    ensures e <= len
    ensures 0 <= end ==> e == Min(end, len)
    ensures end < 0 ==> e == Max0(len + end)
  {
    if end < 0 then Max0(len + end) else Min(end, len)
  }

  /** `s.slice(0, end)`. */
  function JsSlice<T>(s: seq<T>, end: int): (r: seq<T>)
    ensures |r| == SliceEnd(|s|, end) && r == s[..|r|]
  {
    s[..SliceEnd(|s|, end)]
  }
}
