/** The `orderBook` class of connection.py: parallel price and size lists per side, kept
    at most `max_size` deep by upserts, padded back to that depth by removals, plus the
    last trade. Each method is proved against a function on the book's value. */
module PlnxOrderBook {
  import opened Levels

  /** The value of an `orderBook`: its two sides as levels and the last trade. */
  datatype BookView = BookView(bids: seq<Level>, asks: seq<Level>,
                               ltp: Option<real>, lts: Option<real>, tradeId: string)
  {
    function Levels(side: Side): seq<Level> {
      if side == Bid then bids else asks
    }

    function WithLevels(side: Side, s: seq<Level>): BookView {
      if side == Bid then this.(bids := s) else this.(asks := s)
    }
  }

  /** The book's symbol: `''.join(symbol.split('_'))`, every underscore dropped. */
  function StripUnderscores(s: string): (r: string)
    ensures |r| <= |s|
    ensures forall i :: 0 <= i < |r| ==> r[i] != '_'
    ensures (forall i :: 0 <= i < |s| ==> s[i] != '_') ==> r == s
  {
    if s == [] then []
    else (if s[0] == '_' then [] else [s[0]]) + StripUnderscores(s[1..])
  }

  /** Splitting on `'_'` and joining works character by character: an underscore becomes
      nothing, any other character stays, and the pieces of a concatenation are stripped
      separately and kept in order. These three facts fix the result on every input. */
  lemma {:induction false} StripUnderscoresSplits(a: string, b: string)
    ensures StripUnderscores(a + b) == StripUnderscores(a) + StripUnderscores(b)
    ensures StripUnderscores("_") == ""
    ensures forall c :: c != '_' ==> StripUnderscores([c]) == [c]
    decreases |a|
  {
    if a == [] {
      assert a + b == b;
    } else {
      assert (a + b)[1..] == a[1..] + b;
      StripUnderscoresSplits(a[1..], b);
    }
    assert "_"[1..] == "";
    forall c | c != '_' ensures StripUnderscores([c]) == [c] {
      assert [c][1..] == [];
    }
  }

  /** The symbol of a Poloniex pair loses its separator: `"BTC_ETH"` becomes `"BTCETH"`. */
  lemma PairSymbolStripped()
    ensures StripUnderscores("BTC_ETH") == "BTCETH"
  {
    StripUnderscoresSplits("BTC", "_ETH");
    StripUnderscoresSplits("_", "ETH");
  }

  /** `snapAsks` / `snapBids`: the best `max_size` levels of the snapshot, appended. */
  function Snapped(side: Side, current: seq<Level>, data: seq<Level>): seq<Level> {
    current + Top(side, data, MaxSize)
  }

  /** `orderRemoval`: every level at `price` dropped, then zero levels up to `max_size`. */
  function Removed(current: seq<Level>, price: real): seq<Level> {
    PadTo(RemovePrice(current, price), MaxSize)
  }

  /** `updateBidAsk`: the new level appended, the side sorted, the first `max_size` kept. */
  function Upserted(side: Side, current: seq<Level>, l: Level): seq<Level> {
    Take(SortLevels(side, current + [l]), MaxSize)
  }

  class OrderBook {
    const symbol: string
    var bids: seq<real>
    var asks: seq<real>
    var bidSizes: seq<real>
    var askSizes: seq<real>
    var ltp: Option<real>
    var lts: Option<real>
    var tradeId: string

    /** Each price list is as long as its size list. */
    ghost predicate Valid()
      reads this
    {
      |bids| == |bidSizes| && |asks| == |askSizes|
    }

    ghost function View(): BookView
      reads this
      requires Valid()
    {
      BookView(Zip(bids, bidSizes), Zip(asks, askSizes), ltp, lts, tradeId)
    }

    constructor (symbol: string)
      ensures Valid()
      ensures this.symbol == StripUnderscores(symbol)
      ensures View() == BookView([], [], None, None, "")
    {
      this.symbol := StripUnderscores(symbol);
      bids, asks, bidSizes, askSizes := [], [], [], [];
      ltp, lts, tradeId := None, None, "";
    }

    /** Appends the lowest `max_size` asks of the snapshot; returns the ask lists. */
    method SnapAsks(askData: seq<Level>) returns (prices: seq<real>, sizes: seq<real>)
      requires Valid()
      modifies this
      ensures Valid()
      ensures View() == old(View()).(asks := Snapped(Ask, old(View().asks), askData))
      ensures prices == asks && sizes == askSizes
    {
      var top := Top(Ask, askData, MaxSize);
      var n := |asks|;
      var i := 0;
      while i < |top|
        invariant 0 <= i <= |top|
        invariant |asks| == |askSizes| == n + i
        invariant asks[..n] == old(asks) && askSizes[..n] == old(askSizes)
        invariant forall k :: 0 <= k < i ==> asks[n + k] == top[k].price && askSizes[n + k] == top[k].size
        invariant bids == old(bids) && bidSizes == old(bidSizes)
        invariant ltp == old(ltp) && lts == old(lts) && tradeId == old(tradeId)
      {
        asks := asks + [top[i].price];
        askSizes := askSizes + [top[i].size];
        i := i + 1;
      }
      assert Zip(asks, askSizes) == old(Zip(asks, askSizes)) + top;
      prices, sizes := asks, askSizes;
    }

    /** Appends the highest `max_size` bids of the snapshot; returns the bid lists. */
    method SnapBids(bidData: seq<Level>) returns (prices: seq<real>, sizes: seq<real>)
      requires Valid()
      modifies this
      ensures Valid()
      ensures View() == old(View()).(bids := Snapped(Bid, old(View().bids), bidData))
      ensures prices == bids && sizes == bidSizes
    {
      var top := Top(Bid, bidData, MaxSize);
      var n := |bids|;
      var i := 0;
      while i < |top|
        invariant 0 <= i <= |top|
        invariant |bids| == |bidSizes| == n + i
        invariant bids[..n] == old(bids) && bidSizes[..n] == old(bidSizes)
        invariant forall k :: 0 <= k < i ==> bids[n + k] == top[k].price && bidSizes[n + k] == top[k].size
        invariant asks == old(asks) && askSizes == old(askSizes)
        invariant ltp == old(ltp) && lts == old(lts) && tradeId == old(tradeId)
      {
        bids := bids + [top[i].price];
        bidSizes := bidSizes + [top[i].size];
        i := i + 1;
      }
      assert Zip(bids, bidSizes) == old(Zip(bids, bidSizes)) + top;
      prices, sizes := bids, bidSizes;
    }

    /** Drops every level at `price` from one side and pads that side with zero levels
        back up to `max_size`; `isBid` chooses the side. */
    method OrderRemoval(price: real, isBid: bool)
      requires Valid()
      modifies this
      ensures Valid()
      ensures var side := if isBid then Bid else Ask;
        View() == old(View()).WithLevels(side, Removed(old(View()).Levels(side), price))
    {
      var levels := if isBid then Zip(bids, bidSizes) else Zip(asks, askSizes);
      var newPrices, newSizes := KeepOtherPrices(levels, price);
      newPrices, newSizes := PadWithZeros(newPrices, newSizes);
      if isBid {
        bids, bidSizes := newPrices, newSizes;
      } else {
        asks, askSizes := newPrices, newSizes;
      }
    }

    /** The filtering loop of `orderRemoval`: the levels whose price is not `price`. */
    static method KeepOtherPrices(levels: seq<Level>, price: real) returns (newPrices: seq<real>, newSizes: seq<real>)
      ensures |newPrices| == |newSizes|
      ensures Zip(newPrices, newSizes) == RemovePrice(levels, price)
    {
      newPrices, newSizes := [], [];
      var i := 0;
      while i < |levels|
        invariant 0 <= i <= |levels|
        invariant |newPrices| == |newSizes|
        invariant Zip(newPrices, newSizes) == RemovePrice(levels[..i], price)
      {
        assert levels[..i + 1][..i] == levels[..i];
        if levels[i].price != price {
          newPrices := newPrices + [levels[i].price];
          newSizes := newSizes + [levels[i].size];
        }
        i := i + 1;
      }
      assert levels[..i] == levels;
    }

    /** The padding step of `orderRemoval`: zero prices and sizes up to `max_size`. */
    static method PadWithZeros(prices: seq<real>, sizes: seq<real>) returns (newPrices: seq<real>, newSizes: seq<real>)
      requires |prices| == |sizes|
      ensures |newPrices| == |newSizes|
      ensures Zip(newPrices, newSizes) == PadTo(Zip(prices, sizes), MaxSize)
    {
      newPrices, newSizes := prices, sizes;
      if |prices| < MaxSize {
        var extension := seq(MaxSize - |prices|, _ => 0.0);
        newPrices := newPrices + extension;
        newSizes := newSizes + extension;
      }
    }

    /** Records a trade unconditionally. */
    method UpdateTrade(rate: real, amt: real, id: string)
      requires Valid()
      modifies this
      ensures Valid()
      ensures View() == old(View()).(ltp := Some(rate), lts := Some(amt), tradeId := id)
    {
      ltp := Some(rate);
      lts := Some(amt);
      tradeId := id;
    }

    /** Adds the level `(rate, amt)` to one side, re-sorts it and keeps `max_size` levels;
        `isAsk` chooses the side. */
    method UpdateBidAsk(rate: real, amt: real, isAsk: bool)
      requires Valid()
      modifies this
      ensures Valid()
      ensures var side := if isAsk then Ask else Bid;
        View() == old(View()).WithLevels(side, Upserted(side, old(View()).Levels(side), Level(rate, amt)))
    {
      if isAsk {
        var askData := SortAndCut(Ask, Zip(asks, askSizes) + [Level(rate, amt)]);
        ZipPricesSizes(askData);
        asks, askSizes := Prices(askData), Sizes(askData);
      } else {
        var bidData := SortAndCut(Bid, Zip(bids, bidSizes) + [Level(rate, amt)]);
        ZipPricesSizes(bidData);
        bids, bidSizes := Prices(bidData), Sizes(bidData);
      }
    }

    /** The sort-and-filter step of `updateBidAsk`: sorted, and cut to `max_size` when longer. */
    static method SortAndCut(side: Side, data: seq<Level>) returns (kept: seq<Level>)
      ensures kept == Take(SortLevels(side, data), MaxSize)
    {
      if |data| > MaxSize {
        kept := SortLevels(side, data)[..MaxSize];
      } else {
        kept := SortLevels(side, data);
      }
    }
  }

  // ---------------------------------------------------------------------------
  // What the three book operations promise

  /** A snapshot appends: the old levels stay in front, followed by at most `max_size`
      levels of the snapshot, in ranking order, none of them beaten by a level left out. */
  lemma SnappedAppendsBest(side: Side, current: seq<Level>, data: seq<Level>)
    ensures var r := Snapped(side, current, data);
      |r| == |current| + Min(MaxSize, |data|) && r[..|current|] == current &&
      Ordered(side, r[|current|..]) && multiset(r[|current|..]) <= multiset(data) &&
      forall x, y :: x in r[|current|..] && y in multiset(data) - multiset(r[|current|..]) ==>
        !Ahead(side, y.price, x.price)
  {
    var r := Snapped(side, current, data);
    assert r[|current|..] == Top(side, data, MaxSize);
    TopIsBest(side, data, MaxSize);
  }

  /** A removal leaves at least `max_size` levels; the levels of other prices come first,
      in their old order and with their own sizes; only zero levels follow them. */
  lemma RemovedDropsPrice(current: seq<Level>, price: real)
    ensures var r := Removed(current, price);
      var kept := RemovePrice(current, price);
      |r| == Max(|kept|, MaxSize) && |r| >= MaxSize &&
      r[..|kept|] == kept && Subsequence(kept, current) &&
      (forall i :: |kept| <= i < |r| ==> r[i] == ZeroLevel) &&
      (forall i :: 0 <= i < |r| && r[i].price == price ==> r[i] == ZeroLevel) &&
      (forall x: Level :: x.price != price ==> multiset(kept)[x] == multiset(current)[x])
  {
    var kept := RemovePrice(current, price);
    RemovePriceSubsequence(current, price);
    forall x: Level | x.price != price ensures multiset(kept)[x] == multiset(current)[x] {
      RemovePriceCounts(current, price, x);
    }
  }

  /** An upsert keeps the side in order and at most `max_size` deep; below that depth the
      new level joins all old ones, including one of the same price (no dedup); from an
      ordered side the new level lands after the levels of equal price. */
  lemma UpsertedSortsAndBounds(side: Side, current: seq<Level>, l: Level)
    ensures var r := Upserted(side, current, l);
      |r| == Min(|current| + 1, MaxSize) && Ordered(side, r) &&
      multiset(r) <= multiset(current) + multiset{l} &&
      (|current| < MaxSize ==> multiset(r) == multiset(current) + multiset{l}) &&
      (Ordered(side, current) ==> r == Take(Place(side, current, l), MaxSize))
  {
    var sorted := SortLevels(side, current + [l]);
    SortLevelsOrdered(side, current + [l]);
    TakeOrdered(side, sorted, MaxSize);
    if Ordered(side, current) {
      SortAppended(side, current, l);
    }
  }

  /** The first level of a sorted ask side is one of its levels, at the lowest price. */
  lemma SortedAskFirstIsLowest(s: seq<Level>)
    requires s != []
    ensures SortLevels(Ask, s)[0] in s
    ensures forall x :: x in s ==> SortLevels(Ask, s)[0].price <= x.price
  {
    var r := SortLevels(Ask, s);
    SortLevelsOrdered(Ask, s);
    assert r[0] in multiset(s);
    forall x | x in s ensures r[0].price <= x.price {
      assert x in multiset(r);
      var z :| 0 <= z < |r| && r[z] == x;
    }
  }

  /** The zero padding of a removal is visible on the ask side: when fewer than
      `max_size` levels survive a removal and no price is negative, the next ask upsert
      ranks a padding price of 0.0 first, whatever the new ask's price. */
  lemma PaddedAskLeads(current: seq<Level>, price: real, l: Level)
    requires |RemovePrice(current, price)| < MaxSize
    requires forall i :: 0 <= i < |current| ==> current[i].price >= 0.0
    requires l.price >= 0.0
    ensures Upserted(Ask, Removed(current, price), l)[0].price == 0.0
  {
    var kept := RemovePrice(current, price);
    var input := Removed(current, price) + [l];
    assert input[|kept|] == ZeroLevel;
    forall x | x in input ensures x.price >= 0.0 {
      var j :| 0 <= j < |input| && input[j] == x;
      if j < |kept| {
        assert input[j] in kept;
      }
    }
    SortedAskFirstIsLowest(input);
  }
}
