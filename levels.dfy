/** Price levels shared by both order-book implementations: a level is a (price, size)
    pair, a side is the bid or the ask list, and each side has its own ranking order.
    The functions here are the specifications the two book classes are proved against. */
module Levels {

  datatype Option<T> = None | Some(value: T)

  /** One resting level. Prices and sizes are only compared and copied, never combined. */
  datatype Level = Level(price: real, size: real)

  datatype Side = Bid | Ask

  /** The depth both implementations track (`max_size` and `maxNbLimit`). */
  const MaxSize: nat := 5

  /** The level a side is padded with: price 0.0 and size 0.0. */
  const ZeroLevel: Level := Level(0.0, 0.0)

  function Min(a: int, b: int): int { if a <= b then a else b }

  function Max(a: int, b: int): int { if a >= b then a else b }

  /** Price `a` ranks strictly ahead of price `b`: lower for asks, higher for bids. */
  predicate Ahead(side: Side, a: real, b: real) {
    match side
    case Ask => a < b
    case Bid => a > b
  }

  /** No level ranks strictly ahead of a level before it: asks ascending, bids descending. */
  ghost predicate Ordered(side: Side, s: seq<Level>) {
    forall i, j :: 0 <= i < j < |s| ==> !Ahead(side, s[j].price, s[i].price)
  }

  function Prices(s: seq<Level>): seq<real> {
    seq(|s|, i requires 0 <= i < |s| => s[i].price)
  }

  function Sizes(s: seq<Level>): seq<real> {
    seq(|s|, i requires 0 <= i < |s| => s[i].size)
  }

  /** Python's `zip` of a price list and a size list of the same length. */
  function Zip(prices: seq<real>, sizes: seq<real>): seq<Level>
    requires |prices| == |sizes|
  {
    seq(|prices|, i requires 0 <= i < |prices| => Level(prices[i], sizes[i]))
  }

  /** Python's `s[:n]`. */
  function Take<T>(s: seq<T>, n: nat): seq<T> {
    if |s| <= n then s else s[..n]
  }

  /** `s` with `l` inserted just before the first level that `l` ranks strictly ahead of,
      so after every level of equal price; at the end when there is none. */
  function Place(side: Side, s: seq<Level>, l: Level): (r: seq<Level>)
    ensures |r| == |s| + 1
    ensures multiset(r) == multiset(s) + multiset{l}
    ensures r[0] == l || (|s| > 0 && r[0] == s[0])
  {
    if s == [] || Ahead(side, l.price, s[0].price) then [l] + s
    else
      assert s == [s[0]] + s[1..];
      [s[0]] + Place(side, s[1..], l)
  }

  /** Python's stable `sorted` by price, ascending for asks and descending (`reverse=True`)
      for bids: each level goes after the already sorted levels of equal price. */
  function SortLevels(side: Side, s: seq<Level>): (r: seq<Level>)
    ensures |r| == |s|
    ensures multiset(r) == multiset(s)
  {
    if s == [] then []
    else
      assert s == s[..|s| - 1] + [s[|s| - 1]];
      Place(side, SortLevels(side, s[..|s| - 1]), s[|s| - 1])
  }

  /** `sorted(levels, ...)[:n]`: the `n` best-ranked levels of the input. */
  function Top(side: Side, s: seq<Level>, n: nat): seq<Level> {
    Take(SortLevels(side, s), n)
  }

  /** The levels whose price differs from `p`, in their original order. */
  function RemovePrice(s: seq<Level>, p: real): (r: seq<Level>)
    ensures |r| <= |s|
    ensures forall i :: 0 <= i < |r| ==> r[i].price != p
    ensures forall x :: x in r ==> x in s
  {
    if s == [] then []
    else
      var rest := RemovePrice(s[..|s| - 1], p);
      if s[|s| - 1].price == p then rest else rest + [s[|s| - 1]]
  }

  /** `s` extended with zero levels up to length `n`. */
  function PadTo(s: seq<Level>, n: nat): (r: seq<Level>)
    ensures |r| == Max(|s|, n)
    ensures r[..|s|] == s
    ensures forall i :: |s| <= i < |r| ==> r[i] == ZeroLevel
  {
    if |s| < n then s + seq(n - |s|, _ => ZeroLevel) else s
  }

  /** `a` is `b` with some levels dropped and the rest in their original order. */
  ghost predicate Subsequence(a: seq<Level>, b: seq<Level>)
    decreases |b|
  {
    if a == [] then true
    else if b == [] then false
    else if a[|a| - 1] == b[|b| - 1] && Subsequence(a[..|a| - 1], b[..|b| - 1]) then true
    else Subsequence(a, b[..|b| - 1])
  }

  // ---------------------------------------------------------------------------
  // Lemmas about the ranking order

  lemma {:induction false} PlaceOrdered(side: Side, s: seq<Level>, l: Level)
    requires Ordered(side, s)
    ensures Ordered(side, Place(side, s, l))
    decreases |s|
  {
    if s == [] || Ahead(side, l.price, s[0].price) {
    } else {
      var t := Place(side, s[1..], l);
      PlaceOrdered(side, s[1..], l);
      forall j | 0 <= j < |t| ensures !Ahead(side, t[j].price, s[0].price) {
        assert t[j] in multiset(t);
        assert t[j] in multiset(s[1..]) || t[j] == l;
      }
    }
  }

  lemma {:induction false} SortLevelsOrdered(side: Side, s: seq<Level>)
    ensures Ordered(side, SortLevels(side, s))
    decreases |s|
  {
    if s != [] {
      SortLevelsOrdered(side, s[..|s| - 1]);
      PlaceOrdered(side, SortLevels(side, s[..|s| - 1]), s[|s| - 1]);
    }
  }

  /** Placing a level that ranks ahead of no level of `s` appends it. */
  lemma {:induction false} PlaceAfterAll(side: Side, s: seq<Level>, l: Level)
    requires forall i :: 0 <= i < |s| ==> !Ahead(side, l.price, s[i].price)
    ensures Place(side, s, l) == s + [l]
    decreases |s|
  {
    if s != [] {
      PlaceAfterAll(side, s[1..], l);
      assert [s[0]] + (s[1..] + [l]) == s + [l];
    }
  }

  /** Where `Place` puts the level: at the first index `k` whose level it ranks ahead of. */
  lemma PlaceAt(side: Side, s: seq<Level>, l: Level, k: nat)
    requires k <= |s|
    requires forall j :: 0 <= j < k ==> !Ahead(side, l.price, s[j].price)
    requires k < |s| ==> Ahead(side, l.price, s[k].price)
    ensures Place(side, s, l) == s[..k] + [l] + s[k..]
  {
    var r := Place(side, s, l);
    PlaceAtIndex(side, s, l, k);
    assert forall i :: 0 <= i < |r| ==> r[i] == (s[..k] + [l] + s[k..])[i];
  }

  lemma {:induction false} PlaceAtIndex(side: Side, s: seq<Level>, l: Level, k: nat)
    requires k <= |s|
    requires forall j :: 0 <= j < k ==> !Ahead(side, l.price, s[j].price)
    requires k < |s| ==> Ahead(side, l.price, s[k].price)
    ensures var r := Place(side, s, l);
      r[k] == l && (forall i :: 0 <= i < k ==> r[i] == s[i]) && forall i :: k < i <= |s| ==> r[i] == s[i - 1]
    decreases k
  {
    if k > 0 {
      var t := s[1..];
      PlaceAtIndex(side, t, l, k - 1);
      PlaceStep(side, s, l);
    } else {
      PlaceFront(side, s, l);
    }
  }

  lemma PlaceStep(side: Side, s: seq<Level>, l: Level)
    requires s != [] && !Ahead(side, l.price, s[0].price)
    ensures Place(side, s, l) == [s[0]] + Place(side, s[1..], l)
  {
  }

  lemma PlaceFront(side: Side, s: seq<Level>, l: Level)
    requires s == [] || Ahead(side, l.price, s[0].price)
    ensures Place(side, s, l) == [l] + s
  {
  }

  /** Sorting a side that is already in order leaves it as it is. */
  lemma {:induction false} SortOrderedIsIdentity(side: Side, s: seq<Level>)
    requires Ordered(side, s)
    ensures SortLevels(side, s) == s
    decreases |s|
  {
    if s != [] {
      var init := s[..|s| - 1];
      assert Ordered(side, init);
      SortOrderedIsIdentity(side, init);
      PlaceAfterAll(side, init, s[|s| - 1]);
      assert init + [s[|s| - 1]] == s;
    }
  }

  /** Appending a level to an ordered side and sorting is the same as placing the level
      after every level of equal price: an existing level of the same price is kept. */
  lemma SortAppended(side: Side, s: seq<Level>, l: Level)
    requires Ordered(side, s)
    ensures SortLevels(side, s + [l]) == Place(side, s, l)
  {
    assert (s + [l])[..|s|] == s;
    SortOrderedIsIdentity(side, s);
  }

  /** A prefix of an ordered side is ordered and drawn from it. */
  lemma TakeOrdered(side: Side, s: seq<Level>, n: nat)
    requires Ordered(side, s)
    ensures |Take(s, n)| == Min(n, |s|)
    ensures Ordered(side, Take(s, n))
    ensures multiset(Take(s, n)) <= multiset(s)
  {
    if n < |s| {
      assert s == s[..n] + s[n..];
    }
  }

  /** Splitting a side into its price and size lists and zipping them back is the identity. */
  lemma ZipPricesSizes(s: seq<Level>)
    ensures |Prices(s)| == |Sizes(s)| == |s|
    ensures Zip(Prices(s), Sizes(s)) == s
  {
  }

  /** The best `n` levels: in order, at most `n` of them, drawn from the input, and no
      level left out ranks strictly ahead of a level kept. */
  lemma TopIsBest(side: Side, s: seq<Level>, n: nat)
    ensures |Top(side, s, n)| == Min(n, |s|)
    ensures Ordered(side, Top(side, s, n))
    ensures multiset(Top(side, s, n)) <= multiset(s)
    ensures forall x, y :: x in Top(side, s, n) && y in multiset(s) - multiset(Top(side, s, n)) ==>
              !Ahead(side, y.price, x.price)
  {
    var sorted := SortLevels(side, s);
    SortLevelsOrdered(side, s);
    var k := Min(n, |s|);
    var t := Top(side, s, n);
    var rest := sorted[k..];
    assert t == sorted[..k] && sorted == t + rest;
    assert Ordered(side, t);
    calc {
      multiset(s) - multiset(t);
      multiset(t + rest) - multiset(t);
      multiset(rest);
    }
    forall x, y | x in t && y in multiset(s) - multiset(t)
      ensures !Ahead(side, y.price, x.price)
    {
      TopBeforeRest(side, sorted, k, x, y);
    }
  }

  lemma TopBeforeRest(side: Side, sorted: seq<Level>, k: nat, x: Level, y: Level)
    requires Ordered(side, sorted) && k <= |sorted|
    requires x in sorted[..k] && y in sorted[k..]
    ensures !Ahead(side, y.price, x.price)
  {
    var i :| 0 <= i < k && sorted[..k][i] == x;
    var j :| 0 <= j < |sorted| - k && sorted[k..][j] == y;
    assert sorted[i] == x && sorted[k + j] == y;
  }

  // ---------------------------------------------------------------------------
  // Lemmas about removal by price

  /** Removal keeps every level of another price, as often as it occurred. */
  lemma {:induction false} RemovePriceCounts(s: seq<Level>, p: real, x: Level)
    ensures multiset(RemovePrice(s, p))[x] == if x.price == p then 0 else multiset(s)[x]
    decreases |s|
  {
    if s != [] {
      var init := s[..|s| - 1];
      RemovePriceCounts(init, p, x);
      assert s == init + [s[|s| - 1]];
    }
  }

  /** Removal keeps the remaining levels in their original order. */
  lemma {:induction false} RemovePriceSubsequence(s: seq<Level>, p: real)
    ensures Subsequence(RemovePrice(s, p), s)
    decreases |s|
  {
    if s != [] {
      var init := s[..|s| - 1];
      var r := RemovePrice(s, p);
      RemovePriceSubsequence(init, p);
      if s[|s| - 1].price != p {
        assert r[..|r| - 1] == RemovePrice(init, p);
      } else if r != [] {
        SubsequenceOfPrefix(r, init, s);
      }
    }
  }

  lemma {:induction false} SubsequenceOfPrefix(a: seq<Level>, b: seq<Level>, c: seq<Level>)
    requires c != [] && b == c[..|c| - 1] && a != []
    requires Subsequence(a, b)
    ensures Subsequence(a, c)
  {
  }

  /** Removing a price that no level has changes nothing. */
  lemma {:induction false} RemovePriceAbsent(s: seq<Level>, p: real)
    requires forall i :: 0 <= i < |s| ==> s[i].price != p
    ensures RemovePrice(s, p) == s
    decreases |s|
  {
    if s != [] {
      RemovePriceAbsent(s[..|s| - 1], p);
      assert s[..|s| - 1] + [s[|s| - 1]] == s;
    }
  }

  lemma {:induction false} RemovePriceOrdered(side: Side, s: seq<Level>, p: real)
    requires Ordered(side, s)
    ensures Ordered(side, RemovePrice(s, p))
    decreases |s|
  {
    if s != [] {
      var init := s[..|s| - 1];
      assert Ordered(side, init);
      RemovePriceOrdered(side, init, p);
      var rest := RemovePrice(init, p);
      forall i | 0 <= i < |rest| ensures !Ahead(side, s[|s| - 1].price, rest[i].price) {
        assert rest[i] in init;
      }
    }
  }
}
