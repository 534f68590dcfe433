/** The `Book` class of pusherclientb/book.py: price and size lists per side written
    position by position, plus the last trade, deduplicated by trade id. */
module PushBook {
  import opened Levels

  /** The value of a `Book`: its two sides as levels and the last trade. */
  datatype BookView = BookView(bids: seq<Level>, asks: seq<Level>, ltp: real, lts: real, tradeId: string)
  {
    function Levels(side: Side): seq<Level> {
      if side == Bid then bids else asks
    }

    function WithLevels(side: Side, s: seq<Level>): BookView {
      if side == Bid then this.(bids := s) else this.(asks := s)
    }
  }

  /** `before` with `x` written at index `limit`: the list is first padded with zeros until
      that index exists; every other index keeps its value. */
  ghost predicate WrittenAt(before: seq<real>, after: seq<real>, limit: nat, x: real) {
    |after| == Max(|before|, limit + 1) && after[limit] == x &&
    forall i :: 0 <= i < |after| && i != limit ==>
      after[i] == if i < |before| then before[i] else 0.0
  }

  /** `before` with its first `|front|` entries replaced by `front`; it grows when
      `front` is longer. */
  function Overwrite<T>(before: seq<T>, front: seq<T>): seq<T> {
    if |before| > |front| then front + before[|front|..] else front
  }

  /** Writing a prefix never shrinks a list, writes `front` at indices 0.., and keeps every
      later index. */
  lemma OverwriteKeepsTail<T>(before: seq<T>, front: seq<T>)
    ensures var r := Overwrite(before, front);
      |r| == Max(|before|, |front|) && r[..|front|] == front &&
      forall i :: |front| <= i < |r| ==> r[i] == before[i]
  {
  }

  class Book {
    const symbol: string
    const exchCode: string
    var bids: seq<real>
    var asks: seq<real>
    var bidSizes: seq<real>
    var askSizes: seq<real>
    var ltp: real
    var lts: real
    var tradeId: string

    /** Each price list is as long as its size list. */
    ghost predicate Valid()
      reads this
    {
      |bids| == |bidSizes| && |asks| == |askSizes|
    }

    ghost function View(): BookView
      reads this
      requires Valid()
    {
      BookView(Zip(bids, bidSizes), Zip(asks, askSizes), ltp, lts, tradeId)
    }

    constructor (symbol: string, exchCode: string)
      ensures Valid()
      ensures this.symbol == symbol && this.exchCode == exchCode
      ensures bids == [] && asks == [] && bidSizes == [] && askSizes == []
      ensures ltp == 0.0 && lts == 0.0 && tradeId == ""
    {
      this.symbol := symbol;
      this.exchCode := exchCode;
      bids, asks, bidSizes, askSizes := [], [], [], [];
      ltp, lts, tradeId := 0.0, 0.0, "";
    }

    /** `bid(limit)`: 0 for an empty list, otherwise the price at rank `limit`. */
    function BidPrice(limit: nat): (r: real)
      reads this
      requires |bids| == 0 || limit < |bids|
      ensures |bids| == 0 ==> r == 0.0
      ensures |bids| > 0 ==> r == bids[limit]
    {
      if |bids| == 0 then 0.0 else bids[limit]
    }

    /** `ask(limit)`: 0 for an empty list, otherwise the price at rank `limit`. */
    function AskPrice(limit: nat): (r: real)
      reads this
      requires |asks| == 0 || limit < |asks|
      ensures |asks| == 0 ==> r == 0.0
      ensures |asks| > 0 ==> r == asks[limit]
    {
      if |asks| == 0 then 0.0 else asks[limit]
    }

    /** `bidSize(limit)`: 0 for an empty list, otherwise the size at rank `limit`. */
    function BidSize(limit: nat): (r: real)
      reads this
      requires |bidSizes| == 0 || limit < |bidSizes|
      ensures |bidSizes| == 0 ==> r == 0.0
      ensures |bidSizes| > 0 ==> r == bidSizes[limit]
    {
      if |bidSizes| == 0 then 0.0 else bidSizes[limit]
    }

    /** `askSize(limit)`: 0 for an empty list, otherwise the size at rank `limit`. */
    function AskSize(limit: nat): (r: real)
      reads this
      requires |askSizes| == 0 || limit < |askSizes|
      ensures |askSizes| == 0 ==> r == 0.0
      ensures |askSizes| > 0 ==> r == askSizes[limit]
    {
      if |askSizes| == 0 then 0.0 else askSizes[limit]
    }

    /** `onQuote`: pads the chosen side's lists with zeros until index `limit` exists and
        writes `(price, qty)` there; nothing else changes. */
    method OnQuote(limit: nat, isBid: bool, price: real, qty: real)
      modifies this
      ensures isBid ==> WrittenAt(old(bids), bids, limit, price) &&
                        WrittenAt(old(bidSizes), bidSizes, limit, qty) &&
                        asks == old(asks) && askSizes == old(askSizes)
      ensures !isBid ==> WrittenAt(old(asks), asks, limit, price) &&
                         WrittenAt(old(askSizes), askSizes, limit, qty) &&
                         bids == old(bids) && bidSizes == old(bidSizes)
      ensures ltp == old(ltp) && lts == old(lts) && tradeId == old(tradeId)
      ensures old(Valid()) ==> Valid()
      ensures isBid ==> BidPrice(limit) == price && BidSize(limit) == qty
      ensures !isBid ==> AskPrice(limit) == price && AskSize(limit) == qty
    {
      if isBid {
        bids := PadWithZeros(bids, limit);
        bidSizes := PadWithZeros(bidSizes, limit);
        bids := bids[limit := price];
        bidSizes := bidSizes[limit := qty];
      } else {
        asks := PadWithZeros(asks, limit);
        askSizes := PadWithZeros(askSizes, limit);
        asks := asks[limit := price];
        askSizes := askSizes[limit := qty];
      }
    }

    /** `while len(xs) <= limit: xs.append(0)`. */
    static method PadWithZeros(xs: seq<real>, limit: nat) returns (padded: seq<real>)
      ensures |padded| == Max(|xs|, limit + 1)
      ensures padded[..|xs|] == xs
      ensures forall i :: |xs| <= i < |padded| ==> padded[i] == 0.0
    {
      padded := xs;
      while |padded| <= limit
        invariant |xs| <= |padded| <= Max(|xs|, limit + 1)
        invariant padded[..|xs|] == xs
        invariant forall i :: |xs| <= i < |padded| ==> padded[i] == 0.0
        decreases limit - |padded|
      {
        padded := padded + [0.0];
      }
    }

    /** `onTrade`: a trade whose id equals the stored one changes nothing; any other
        trade replaces the last price, size and id. */
    method OnTrade(price: real, qty: real, id: string)
      modifies this
      ensures old(tradeId) == id ==> ltp == old(ltp) && lts == old(lts) && tradeId == old(tradeId)
      ensures old(tradeId) != id ==> ltp == price && lts == qty && tradeId == id
      ensures bids == old(bids) && asks == old(asks) && bidSizes == old(bidSizes) && askSizes == old(askSizes)
    {
      if tradeId != id {
        ltp := price;
        lts := qty;
        tradeId := id;
      }
    }

    /** `clear`: pops each list down to its limit; a list already within it is kept. */
    method Clear(bidLimit: nat, askLimit: nat)
      modifies this
      ensures bids == old(bids)[..Min(|old(bids)|, bidLimit)]
      ensures bidSizes == old(bidSizes)[..Min(|old(bidSizes)|, bidLimit)]
      ensures asks == old(asks)[..Min(|old(asks)|, askLimit)]
      ensures askSizes == old(askSizes)[..Min(|old(askSizes)|, askLimit)]
      ensures ltp == old(ltp) && lts == old(lts) && tradeId == old(tradeId)
      ensures old(Valid()) ==> Valid()
    {
      bids := PopDownTo(bids, bidLimit);
      bidSizes := PopDownTo(bidSizes, bidLimit);
      asks := PopDownTo(asks, askLimit);
      askSizes := PopDownTo(askSizes, askLimit);
    }

    /** `while len(xs) > limit: xs.pop()`. */
    static method PopDownTo(xs: seq<real>, limit: nat) returns (kept: seq<real>)
      ensures kept == xs[..Min(|xs|, limit)]
    {
      kept := xs;
      while |kept| > limit
        invariant |kept| >= Min(|xs|, limit)
        invariant kept == xs[..|kept|]
      {
        kept := kept[..|kept| - 1];
      }
    }
  }
}
