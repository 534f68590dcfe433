/** The book helpers of pusherclientb/utils.py: `setBidAsk` writes a sorted snapshot from
    the top of each side, `updateBidAsk` inserts one level and pops the tail, and
    `orderRemoval` pops matching levels in place inside a loop whose bound was fixed
    before the loop. */
module PushUtils {
  import opened Levels
  import opened Feed
  import opened PushBook

  // ---------------------------------------------------------------------------
  // setBidAsk

  /** Writes `(prices[k], sizes[k])` at index `k` of one side through `onQuote`, for each
      `k` in order: the loop `for price, qty in zip(...): book.onQuote(limit, ...)`. */
  method WriteLevels(book: Book, isBid: bool, prices: seq<real>, sizes: seq<real>)
    requires |prices| == |sizes|
    modifies book
    ensures isBid ==> book.bids == Overwrite(old(book.bids), prices) &&
                      book.bidSizes == Overwrite(old(book.bidSizes), sizes) &&
                      book.asks == old(book.asks) && book.askSizes == old(book.askSizes)
    ensures !isBid ==> book.asks == Overwrite(old(book.asks), prices) &&
                       book.askSizes == Overwrite(old(book.askSizes), sizes) &&
                       book.bids == old(book.bids) && book.bidSizes == old(book.bidSizes)
    ensures book.ltp == old(book.ltp) && book.lts == old(book.lts) && book.tradeId == old(book.tradeId)
  {
    var limit := 0;
    while limit < |prices|
      invariant 0 <= limit <= |prices|
      invariant isBid ==> book.bids == Overwrite(old(book.bids), prices[..limit]) &&
                          book.bidSizes == Overwrite(old(book.bidSizes), sizes[..limit]) &&
                          book.asks == old(book.asks) && book.askSizes == old(book.askSizes)
      invariant !isBid ==> book.asks == Overwrite(old(book.asks), prices[..limit]) &&
                           book.askSizes == Overwrite(old(book.askSizes), sizes[..limit]) &&
                           book.bids == old(book.bids) && book.bidSizes == old(book.bidSizes)
      invariant book.ltp == old(book.ltp) && book.lts == old(book.lts) && book.tradeId == old(book.tradeId)
    {
      book.OnQuote(limit, isBid, prices[limit], sizes[limit]);
      OverwriteStep(if isBid then old(book.bids) else old(book.asks), prices, limit);
      OverwriteStep(if isBid then old(book.bidSizes) else old(book.askSizes), sizes, limit);
      limit := limit + 1;
    }
    assert prices[..limit] == prices && sizes[..limit] == sizes;
  }

  /** One more `onQuote` extends the written prefix by one entry. */
  lemma OverwriteStep(before: seq<real>, front: seq<real>, k: nat)
    requires k < |front|
    ensures WrittenAt(Overwrite(before, front[..k]), Overwrite(before, front[..k + 1]), k, front[k])
  {
  }

  /** `setBidAsk`: writes the `depth` highest bids in descending order and the `depth`
      lowest asks in ascending order from index 0; later indices keep what they held. */
  method SetBidAsk(bidData: seq<Level>, askData: seq<Level>, depth: nat, book: Book)
    requires book.Valid()
    modifies book
    ensures book.Valid()
    ensures book.View() == old(book.View()).(bids := Overwrite(old(book.View()).bids, Top(Bid, bidData, depth)),
                                             asks := Overwrite(old(book.View()).asks, Top(Ask, askData, depth)))
  {
    var topBids := Top(Bid, bidData, depth);
    WriteLevels(book, true, Prices(topBids), Sizes(topBids));
    var bottomAsks := Top(Ask, askData, depth);
    WriteLevels(book, false, Prices(bottomAsks), Sizes(bottomAsks));
    ZipOverwrite(old(book.bids), old(book.bidSizes), topBids);
    ZipOverwrite(old(book.asks), old(book.askSizes), bottomAsks);
  }

  lemma ZipOverwrite(prices: seq<real>, sizes: seq<real>, front: seq<Level>)
    requires |prices| == |sizes|
    ensures |Overwrite(prices, Prices(front))| == |Overwrite(sizes, Sizes(front))|
    ensures Zip(Overwrite(prices, Prices(front)), Overwrite(sizes, Sizes(front))) == Overwrite(Zip(prices, sizes), front)
  {
  }

  /** What `setBidAsk` leaves on one side: the best `min(depth, n)` snapshot levels in
      ranking order at indices 0.., none beaten by a snapshot level left out, and the
      side's older levels beyond them; the side never shrinks. */
  lemma SetBidAskWritesBest(side: Side, before: seq<Level>, data: seq<Level>, depth: nat)
    ensures var top := Top(side, data, depth);
      var r := Overwrite(before, top);
      |top| == Min(depth, |data|) && |r| == Max(|before|, |top|) &&
      r[..|top|] == top && Ordered(side, top) &&
      (forall i :: |top| <= i < |r| ==> r[i] == before[i]) &&
      forall x, y :: x in top && y in multiset(data) - multiset(top) ==> !Ahead(side, y.price, x.price)
  {
    TopIsBest(side, data, depth);
    OverwriteKeepsTail(before, Top(side, data, depth));
  }

  // ---------------------------------------------------------------------------
  // updateBidAsk

  /** The index the insertion loop stops at: the first level that `l` ranks strictly
      ahead of, or `|s|` when there is none. */
  function FirstBehind(side: Side, s: seq<Level>, l: Level): (k: nat)
    ensures k <= |s|
    ensures forall j :: 0 <= j < k ==> !Ahead(side, l.price, s[j].price)
    ensures k < |s| ==> Ahead(side, l.price, s[k].price)
  {
    if s == [] || Ahead(side, l.price, s[0].price) then 0 else 1 + FirstBehind(side, s[1..], l)
  }

  /** `updateBidAsk` on one side: `l` inserted before the first level it ranks strictly
      ahead of, then the last level popped; no change when there is no such level. */
  function InsertAndPop(side: Side, s: seq<Level>, l: Level): seq<Level> {
    Place(side, s, l)[..|s|]
  }

  /** The length never changes; a level that ranks ahead of no tracked level (in particular
      any level, when the side is empty) leaves the side as it is; otherwise the side
      gains `l` and loses its last level. */
  lemma InsertAndPopContents(side: Side, s: seq<Level>, l: Level)
    ensures |InsertAndPop(side, s, l)| == |s|
    ensures (forall i :: 0 <= i < |s| ==> !Ahead(side, l.price, s[i].price)) ==> InsertAndPop(side, s, l) == s
    ensures (exists i :: 0 <= i < |s| && Ahead(side, l.price, s[i].price)) ==>
      multiset(InsertAndPop(side, s, l)) == multiset(s) - multiset{s[|s| - 1]} + multiset{l}
  {
    var k := FirstBehind(side, s, l);
    PlaceAt(side, s, l, k);
    if k < |s| {
      SplitMultiset(s, l, k);
    } else {
      assert (s[..k] + [l] + s[k..])[..|s|] == s;
    }
  }

  /** Inserting at `k < |s|` and dropping the last entry trades the last level for `l`. */
  lemma SplitMultiset(s: seq<Level>, l: Level, k: nat)
    requires k < |s|
    ensures multiset((s[..k] + [l] + s[k..])[..|s|]) == multiset(s) - multiset{s[|s| - 1]} + multiset{l}
  {
    var front, back := s[..k], s[k..|s| - 1];
    assert (s[..k] + [l] + s[k..])[..|s|] == front + [l] + back;
    assert s == front + back + [s[|s| - 1]];
  }

  /** The insertion keeps an ordered side ordered. */
  lemma InsertAndPopOrdered(side: Side, s: seq<Level>, l: Level)
    requires Ordered(side, s)
    ensures Ordered(side, InsertAndPop(side, s, l))
  {
    PlaceOrdered(side, s, l);
  }

  /** The loop of `updateBidAsk` on copies of one side's lists: `(rate, amt)` goes in
      before the first level whose price `rate` ranks strictly ahead of, and the last entry
      of each list is popped; when there is no such level the copies are left as they are. */
  method InsertLevel(side: Side, prices: seq<real>, sizes: seq<real>, rate: real, amt: real)
    returns (newPrices: seq<real>, newSizes: seq<real>)
    requires |prices| == |sizes|
    ensures |newPrices| == |newSizes| == |prices|
    ensures Zip(newPrices, newSizes) == InsertAndPop(side, Zip(prices, sizes), Level(rate, amt))
  {
    ghost var levels := Zip(prices, sizes);
    var length := |prices|;
    newPrices, newSizes := prices, sizes;
    var i := 0;
    while i < length
      invariant 0 <= i <= length
      invariant newPrices == prices && newSizes == sizes
      invariant forall j :: 0 <= j < i ==> !Ahead(side, rate, levels[j].price)
    {
      if Ahead(side, rate, newPrices[i]) {
        newPrices := newPrices[..i] + [rate] + newPrices[i..];
        newSizes := newSizes[..i] + [amt] + newSizes[i..];
        newPrices := newPrices[..|newPrices| - 1];
        newSizes := newSizes[..|newSizes| - 1];
        PlaceAt(side, levels, Level(rate, amt), i);
        ZipInsertPop(prices, sizes, i, rate, amt);
        return;
      }
      i := i + 1;
    }
    PlaceAt(side, levels, Level(rate, amt), length);
    assert (levels + [Level(rate, amt)])[..length] == levels;
  }

  /** Inserting into both lists at the same index and popping both is inserting the level
      into the zipped side and popping it. */
  lemma ZipInsertPop(p: seq<real>, s: seq<real>, i: nat, x: real, y: real)
    requires |p| == |s| && i < |p|
    ensures Zip((p[..i] + [x] + p[i..])[..|p|], (s[..i] + [y] + s[i..])[..|s|]) ==
            (Zip(p, s)[..i] + [Level(x, y)] + Zip(p, s)[i..])[..|p|]
  {
    var z := Zip(p, s);
    var lhs := Zip((p[..i] + [x] + p[i..])[..|p|], (s[..i] + [y] + s[i..])[..|s|]);
    var rhs := (z[..i] + [Level(x, y)] + z[i..])[..|p|];
    assert |lhs| == |rhs|;
    forall k | 0 <= k < |lhs| ensures lhs[k] == rhs[k] {
      if k < i {
      } else if k == i {
      } else {
        assert lhs[k] == Level(p[k - 1], s[k - 1]);
      }
    }
  }

  /** `updateBidAsk` exactly as written: on the ask side, the insertion loop and the
      write-back through `onQuote`; on the bid side, the branch that compares `rate` with
      the whole list (`UpdateBidsAsWritten`), which leaves the book as it was. */
  method UpdateBidAsk(book: Book, rate: real, amt: real, isAsk: bool)
    requires book.Valid()
    modifies book
    ensures book.Valid()
    ensures isAsk ==> book.View() == old(book.View()).(asks := InsertAndPop(Ask, old(book.View()).asks, Level(rate, amt)))
    ensures !isAsk ==> book.View() == old(book.View()).(bids := BidInsertAsWritten(old(book.View()).bids, Level(rate, amt)))
    ensures !isAsk ==> book.View() == old(book.View())
  {
    if isAsk {
      var asks, askSizes := InsertLevel(Ask, book.asks, book.askSizes, rate, amt);
      WriteLevels(book, false, asks, askSizes);
    } else {
      UpdateBidsAsWritten(book, rate, amt);
    }
  }

  /** `updateBidAsk` with the bid test corrected to the per-element `rate > bids[i]`,
      mirroring the ask branch: on either side the level goes in before the first level it
      ranks strictly ahead of and the last level is popped; the side is written back
      through `onQuote`. The dispatcher uses this version. */
  method UpdateBidAskPerElement(book: Book, rate: real, amt: real, isAsk: bool)
    requires book.Valid()
    modifies book
    ensures book.Valid()
    ensures var side := if isAsk then Ask else Bid;
      book.View() == old(book.View()).WithLevels(side, InsertAndPop(side, old(book.View()).Levels(side), Level(rate, amt)))
  {
    if isAsk {
      var asks, askSizes := InsertLevel(Ask, book.asks, book.askSizes, rate, amt);
      WriteLevels(book, false, asks, askSizes);
    } else {
      var bids, bidSizes := InsertLevel(Bid, book.bids, book.bidSizes, rate, amt);
      WriteLevels(book, true, bids, bidSizes);
    }
  }

  /** A value of Python 2 as far as the bid test needs: a number or a list of numbers. */
  datatype PyValue = PyNum(x: real) | PyList(items: seq<real>)

  /** Python 2's `a < b` for these values: numbers by value, lists lexicographically, and
      a number below every list (Python 2 orders numbers before other types). */
  predicate Py2Less(a: PyValue, b: PyValue) {
    match (a, b)
    case (PyNum(x), PyNum(y)) => x < y
    case (PyNum(_), PyList(_)) => true
    case (PyList(_), PyNum(_)) => false
    case (PyList(xs), PyList(ys)) => LexLess(xs, ys)
  }

  predicate LexLess(xs: seq<real>, ys: seq<real>) {
    if ys == [] then false
    else if xs == [] then true
    else xs[0] < ys[0] || (xs[0] == ys[0] && LexLess(xs[1..], ys[1..]))
  }

  /** `s` with `x` inserted at index `i` (at the end when `i` is past it): Python's
      `list.insert`. */
  function InsertAt<T>(s: seq<T>, i: nat, x: T): (r: seq<T>)
    ensures |r| == |s| + 1
  {
    var j := Min(i, |s|);
    s[..j] + [x] + s[j..]
  }

  /** The bid side of `updateBidAsk` as written: the loop test is `rate > bids`, with the
      whole list on the right, so it does not depend on the index; were it true, the first
      round would insert at index 0 and pop the last entry. */
  function BidInsertAsWritten(s: seq<Level>, l: Level): seq<Level> {
    InsertFirstWhen(s != [] && Py2Less(PyList(Prices(s)), PyNum(l.price)), s, l)
  }

  function InsertFirstWhen(test: bool, s: seq<Level>, l: Level): seq<Level> {
    if test then Take([l] + s, |s|) else s
  }

  /** Under Python 2 ordering the test `rate > bids` is never true, so the bid branch
      never inserts anything. */
  lemma BidTestNeverHolds(s: seq<Level>, l: Level)
    ensures BidInsertAsWritten(s, l) == s
  {
  }

  /** A bid above the best bid is lost as written, while the per-element test puts it
      first: bids [(10.0, 1), (9.5, 2)] with a new bid (10.5, 3). */
  lemma BetterBidIsDropped()
    ensures var s := [Level(10.0, 1.0), Level(9.5, 2.0)];
      var l := Level(10.5, 3.0);
      BidInsertAsWritten(s, l) == s && InsertAndPop(Bid, s, l) == [l, Level(10.0, 1.0)]
  {
    var s := [Level(10.0, 1.0), Level(9.5, 2.0)];
    var l := Level(10.5, 3.0);
    PlaceAt(Bid, s, l, 0);
  }

  /** The bid branch of `updateBidAsk` exactly as written: the loop compares `rate` with
      the whole list, never inserts, and writes the unchanged lists back through `onQuote`. */
  method UpdateBidsAsWritten(book: Book, rate: real, amt: real)
    requires book.Valid()
    modifies book
    ensures book.Valid()
    ensures book.View() == old(book.View()).(bids := BidInsertAsWritten(old(book.View()).bids, Level(rate, amt)))
    ensures book.View() == old(book.View())
  {
    var length: nat := |book.bids|;
    var bids := book.bids;
    var bidSizes := book.bidSizes;
    var i: nat := 0;
    while i < length
      invariant 0 <= i <= length
      invariant bids == book.bids && bidSizes == book.bidSizes
    {
      if Py2Less(PyList(bids), PyNum(rate)) {
        bids := Take(InsertAt(bids, i, rate), length);
        bidSizes := Take(InsertAt(bidSizes, i, amt), length);
        break;
      }
      i := i + 1;
    }
    WriteLevels(book, true, bids, bidSizes);
    BidTestNeverHolds(old(book.View()).bids, Level(rate, amt));
  }

  // ---------------------------------------------------------------------------
  // orderRemoval

  /** The removal loop as written, from index `i` with the bound `length` fixed before the
      loop: pops every level at price `p` it meets; indexing past the shortened list
      raises IndexError. Returns the side when the loop ends and whether it raised. */
  function RemovalScan(s: seq<Level>, p: real, i: nat, length: nat): (seq<Level>, bool)
    decreases length - i
  {
    if i >= length then (s, false)
    else if i >= |s| then (s, true)
    else if s[i].price == p then RemovalScan(s[..i] + s[i + 1..], p, i + 1, length)
    else RemovalScan(s, p, i + 1, length)
  }

  /** Once a pop has shortened the side below the fixed bound, the loop is bound to raise;
      entries before index `i` are never touched. */
  lemma {:induction false} RaisesAfterPop(s: seq<Level>, p: real, i: nat, length: nat)
    requires |s| < length && i < length && i <= |s| + 1
    ensures var (r, raised) := RemovalScan(s, p, i, length);
      raised && |r| <= |s| && |r| >= Min(i, |s|) && r[..Min(i, |s|)] == s[..Min(i, |s|)]
    decreases length - i
  {
    if i < |s| {
      if s[i].price == p {
        var t := s[..i] + s[i + 1..];
        RaisesAfterPop(t, p, i + 1, length);
        var r := RemovalScan(t, p, i + 1, length).0;
        assert Min(i + 1, |t|) >= i;
        assert r[..i] == r[..Min(i + 1, |t|)][..i] == t[..Min(i + 1, |t|)][..i] == t[..i];
        assert t[..i] == s[..i];
      } else {
        RaisesAfterPop(s, p, i + 1, length);
        var r := RemovalScan(s, p, i + 1, length).0;
        assert r[..i] == r[..i + 1][..i];
      }
    }
  }

  lemma {:induction false} ScanFromIndex(s: seq<Level>, p: real, i: nat)
    requires i <= |s|
    ensures var (r, raised) := RemovalScan(s, p, i, |s|);
      (raised <==> exists k :: i <= k < |s| - 1 && s[k].price == p) &&
      (!raised ==> r == if i < |s| && s[|s| - 1].price == p then s[..|s| - 1] else s) &&
      (raised ==> |r| < |s| && |r| >= i && r[..i] == s[..i])
    decreases |s| - i
  {
    if i < |s| {
      if s[i].price == p {
        var t := s[..i] + s[i + 1..];
        if i < |s| - 1 {
          RaisesAfterPop(t, p, i + 1, |s|);
          assert t[..i] == s[..i];
        } else {
          assert t == s[..|s| - 1];
        }
      } else {
        ScanFromIndex(s, p, i + 1);
      }
    }
  }

  /** Whether or not it raises, the removal loop pops only levels at price `p`: every level
      at another price keeps its count, and no level is added. */
  lemma {:induction false} ScanPopsOnlyPrice(s: seq<Level>, p: real, i: nat, length: nat)
    ensures var r := RemovalScan(s, p, i, length).0;
      multiset(r) <= multiset(s) &&
      forall x: Level :: x.price != p ==> multiset(r)[x] == multiset(s)[x]
    decreases length - i
  {
    if i < length && i < |s| {
      var r := RemovalScan(s, p, i, length).0;
      if s[i].price == p {
        var t := s[..i] + s[i + 1..];
        assert r == RemovalScan(t, p, i + 1, length).0;
        ScanPopsOnlyPrice(t, p, i + 1, length);
        assert s == s[..i] + [s[i]] + s[i + 1..];
        assert multiset(s) == multiset(t) + multiset{s[i]};
        forall x: Level | x.price != p ensures multiset(r)[x] == multiset(s)[x] {
          assert x != s[i];
        }
      } else {
        assert r == RemovalScan(s, p, i + 1, length).0;
        ScanPopsOnlyPrice(s, p, i + 1, length);
      }
    }
  }

  /** The removal loop from index 0 with the bound `len(side)`: it raises exactly when a
      level before the last one has the price, and is then shorter; when it does not raise,
      it has removed the price as a filter would; an absent price leaves the side as it is. */
  lemma ScanFromStart(s: seq<Level>, p: real)
    ensures var (r, raised) := RemovalScan(s, p, 0, |s|);
      (raised <==> exists k :: 0 <= k < |s| - 1 && s[k].price == p) &&
      (raised ==> |r| < |s|) &&
      (!raised ==> r == RemovePrice(s, p)) &&
      ((forall k :: 0 <= k < |s| ==> s[k].price != p) ==> r == s)
  {
    ScanFromIndex(s, p, 0);
    var (r, raised) := RemovalScan(s, p, 0, |s|);
    if !raised && s != [] {
      var init := s[..|s| - 1];
      RemovePriceAbsent(init, p);
    }
  }

  /** `orderRemoval` as written: it raises IndexError exactly when a level before the last
      one has the price, and then only after popping it (the side is already shorter, and
      only levels at the price are gone); when it does not raise, it has removed the price
      as a filter would, and a price that is absent leaves the side unchanged. */
  lemma OrderRemovalOutcome(s: seq<Level>, p: real)
    ensures var (r, raised) := RemovalScan(s, p, 0, |s|);
      (raised <==> exists k :: 0 <= k < |s| - 1 && s[k].price == p) &&
      (raised ==> |r| < |s|) &&
      multiset(r) <= multiset(s) &&
      (forall x: Level :: x.price != p ==> multiset(r)[x] == multiset(s)[x]) &&
      (!raised ==> r == RemovePrice(s, p)) &&
      ((forall k :: 0 <= k < |s| ==> s[k].price != p) ==> r == s)
  {
    ScanFromStart(s, p);
    ScanPopsOnlyPrice(s, p, 0, |s|);
  }

  /** `orderRemoval`: pops, from both lists of the side at the same index, each level at
      `price` the loop meets; `isBid` chooses the side. */
  method OrderRemoval(book: Book, price: real, isBid: bool) returns (outcome: Outcome)
    requires book.Valid()
    modifies book
    ensures book.Valid()
    ensures var side := if isBid then Bid else Ask;
      var before := old(book.View()).Levels(side);
      var (r, raised) := RemovalScan(before, price, 0, |before|);
      book.View() == old(book.View()).WithLevels(side, r) &&
      outcome == if raised then Raised(IndexError) else Completed
  {
    if isBid {
      outcome := RemoveBids(book, price);
    } else {
      outcome := RemoveAsks(book, price);
    }
  }

  /** The bid branch of `orderRemoval`. */
  method RemoveBids(book: Book, price: real) returns (outcome: Outcome)
    requires book.Valid()
    modifies book
    ensures book.Valid()
    ensures var (r, raised) := RemovalScan(old(book.View()).bids, price, 0, |old(book.View()).bids|);
      book.View() == old(book.View()).(bids := r) &&
      outcome == if raised then Raised(IndexError) else Completed
  {
    ghost var before := book.View().bids;
    var length := |book.bids|;
    var i := 0;
    while i < length
      invariant 0 <= i <= length
      invariant book.Valid()
      invariant RemovalScan(book.View().bids, price, i, length) == RemovalScan(before, price, 0, length)
      invariant book.View() == old(book.View()).(bids := book.View().bids)
    {
      if i >= |book.bids| {
        return Raised(IndexError);
      }
      if book.bids[i] == price {
        ghost var levels := book.View().bids;
        book.bids := book.bids[..i] + book.bids[i + 1..];
        book.bidSizes := book.bidSizes[..i] + book.bidSizes[i + 1..];
        assert book.View().bids == levels[..i] + levels[i + 1..];
      }
      i := i + 1;
    }
    return Completed;
  }

  /** The ask branch of `orderRemoval`. */
  method RemoveAsks(book: Book, price: real) returns (outcome: Outcome)
    requires book.Valid()
    modifies book
    ensures book.Valid()
    ensures var (r, raised) := RemovalScan(old(book.View()).asks, price, 0, |old(book.View()).asks|);
      book.View() == old(book.View()).(asks := r) &&
      outcome == if raised then Raised(IndexError) else Completed
  {
    ghost var before := book.View().asks;
    var length := |book.asks|;
    var i := 0;
    while i < length
      invariant 0 <= i <= length
      invariant book.Valid()
      invariant RemovalScan(book.View().asks, price, i, length) == RemovalScan(before, price, 0, length)
      invariant book.View() == old(book.View()).(asks := book.View().asks)
    {
      if i >= |book.asks| {
        return Raised(IndexError);
      }
      if book.asks[i] == price {
        ghost var levels := book.View().asks;
        book.asks := book.asks[..i] + book.asks[i + 1..];
        book.askSizes := book.askSizes[..i] + book.askSizes[i + 1..];
        assert book.View().asks == levels[..i] + levels[i + 1..];
      }
      i := i + 1;
    }
    return Completed;
  }
}
