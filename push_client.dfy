/** The dispatcher of pusherclientb/__init__.py: `PoloniexPush` keeps one `Book` per symbol
    of the code-to-symbol map, and `onUpdate` routes each `'o'` tick to `orderBookEvent`
    and each `'t'` tick to `tradeEvent` in list order. An IndexError raised by
    `orderRemoval` escapes `onUpdate`, so the ticks after it are not processed. */
module PushClient {
  import opened Levels
  import opened Feed
  import opened PushBook
  import opened PushUtils

  const ExchangeCode: string := "Poloniex"

  /** `orderBookEvent` on the book's value: side flag 0 is the ask side; a size string of
      `"0.00000000"` removes the price (and may raise), any other size inserts the level. */
  function ApplyOrder(v: BookView, flag: int, price: real, size: real, text: string): (BookView, Outcome) {
    var side := SideOf(flag);
    if text == RemovalSize then
      var (r, raised) := RemovalScan(v.Levels(side), price, 0, |v.Levels(side)|);
      (v.WithLevels(side, r), if raised then Raised(IndexError) else Completed)
    else
      (v.WithLevels(side, InsertAndPop(side, v.Levels(side), Level(price, size))), Completed)
  }

  /** `tradeEvent` on the book's value: `onTrade` with price `tick[3]`, size `tick[4]` and
      id `tick[1]`; a repeated id changes nothing. */
  function ApplyTrade(v: BookView, id: string, price: real, size: real): BookView {
    if v.tradeId == id then v else v.(ltp := price, lts := size, tradeId := id)
  }

  /** One tick of the loop in `onUpdate`: only `'o'` and `'t'` tuples do anything. */
  function ApplyPushTick(v: BookView, t: Tick): (BookView, Outcome) {
    match t
    case Order(flag, price, size, text) => ApplyOrder(v, flag, price, size, text)
    case Trade(id, _, price, size, _) => (ApplyTrade(v, id, price, size), Completed)
    case Snapshot(_, _) => (v, Completed)
    case Other(_) => (v, Completed)
  }

  /** The ticks in list order, stopping at the first one that raises. */
  function ApplyPushTicks(v: BookView, ticks: seq<Tick>): (BookView, Outcome) {
    if ticks == [] then (v, Completed)
    else
      var (w, o) := ApplyPushTicks(v, ticks[..|ticks| - 1]);
      if o.Raised? then (w, o) else ApplyPushTick(w, ticks[|ticks| - 1])
  }

  // ---------------------------------------------------------------------------
  // What the dispatch promises

  /** An order tick changes only the side its flag names (flag 0: asks) and never the last
      trade; a removal pops only levels at its price, raises exactly when a level before the
      last one has the price, and otherwise filters the price out; an insertion keeps the
      side's length and order. */
  lemma OrderTickEffect(v: BookView, flag: int, price: real, size: real, text: string)
    ensures var (w, o) := ApplyOrder(v, flag, price, size, text);
      var side := SideOf(flag);
      var s := v.Levels(side);
      (forall other :: other != side ==> w.Levels(other) == v.Levels(other)) &&
      w.ltp == v.ltp && w.lts == v.lts && w.tradeId == v.tradeId &&
      (text == RemovalSize ==>
        (o.Raised? <==> exists k :: 0 <= k < |s| - 1 && s[k].price == price) &&
        multiset(w.Levels(side)) <= multiset(s) &&
        (forall x: Level :: x.price != price ==> multiset(w.Levels(side))[x] == multiset(s)[x]) &&
        (o == Completed ==> w.Levels(side) == RemovePrice(s, price))) &&
      (text != RemovalSize ==>
        o == Completed && |w.Levels(side)| == |s| &&
        (Ordered(side, s) ==> Ordered(side, w.Levels(side))))
  {
    var side := SideOf(flag);
    var s := v.Levels(side);
    if text == RemovalSize {
      OrderRemovalOutcome(s, price);
    } else {
      InsertAndPopContents(side, s, Level(price, size));
      if Ordered(side, s) {
        InsertAndPopOrdered(side, s, Level(price, size));
      }
    }
  }

  /** Delivering the same trade tick twice is the same as delivering it once. */
  lemma RepeatedTradeIsIgnored(v: BookView, t: Tick)
    requires t.Trade?
    ensures ApplyPushTicks(v, [t, t]) == ApplyPushTicks(v, [t])
    ensures ApplyPushTicks(v, [t]).0.tradeId == t.tradeId
  {
    assert [t, t][..1] == [t];
    assert [t][..0] == [];
  }

  /** Once a tick has raised, the ticks after it are never applied. */
  lemma {:induction false} RaiseStopsTicks(v: BookView, ticks: seq<Tick>, more: seq<Tick>)
    requires ApplyPushTicks(v, ticks).1.Raised?
    ensures ApplyPushTicks(v, ticks + more) == ApplyPushTicks(v, ticks)
    decreases |more|
  {
    if more != [] {
      var init := more[..|more| - 1];
      var all := ticks + more;
      assert all[..|all| - 1] == ticks + init;
      RaiseStopsTicks(v, ticks, init);
      assert ApplyPushTicks(v, all[..|all| - 1]).1.Raised?;
    } else {
      assert ticks + more == ticks;
    }
  }

  /** Tuples tagged neither `'o'` nor `'t'` (the `'i'` snapshot among them) are ignored. */
  lemma {:induction false} UntaggedTicksIgnored(v: BookView, ticks: seq<Tick>)
    requires forall k :: 0 <= k < |ticks| ==> ticks[k].Snapshot? || ticks[k].Other?
    ensures ApplyPushTicks(v, ticks) == (v, Completed)
    decreases |ticks|
  {
    if ticks != [] {
      UntaggedTicksIgnored(v, ticks[..|ticks| - 1]);
    }
  }

  /** `{SYMBOL_CODE[key]: Book(SYMBOL_CODE[key], 'Poloniex') for key in SYMBOL_CODE}`. */
  method NewBooks(symbolCode: map<int, string>) returns (m: map<string, Book>)
    ensures m.Keys == set c | c in symbolCode :: symbolCode[c]
    ensures forall s :: s in m ==>
      fresh(m[s]) && m[s].Valid() && m[s].symbol == s && m[s].exchCode == ExchangeCode &&
      m[s].View() == BookView([], [], 0.0, 0.0, "")
    ensures forall s, t :: s in m && t in m && s != t ==> m[s] != m[t]
  {
    m := map[];
    var codes := symbolCode.Keys;
    while exists c :: c in codes
      invariant codes <= symbolCode.Keys
      invariant m.Keys == set c | c in symbolCode && c !in codes :: symbolCode[c]
      invariant forall s :: s in m ==>
        fresh(m[s]) && m[s].Valid() && m[s].symbol == s && m[s].exchCode == ExchangeCode &&
        m[s].View() == BookView([], [], 0.0, 0.0, "")
      invariant forall s, t :: s in m && t in m && s != t ==> m[s] != m[t]
      decreases codes
    {
      var c :| c in codes;
      var book := new Book(symbolCode[c], ExchangeCode);
      m := m[symbolCode[c] := book];
      codes := codes - {c};
    }
  }

  class PoloniexPush {
    /** `SYMBOL_CODE`: channel code to symbol, given and never changed. */
    const symbolCode: map<int, string>
    const books: map<string, Book>
    /** `connection.connected`, the flag the watchdog of the connection polls. */
    var connected: bool

    /** Every mapped symbol has a book, every book is valid and no two symbols share one. */
    ghost predicate Valid()
      reads books.Values
    {
      (forall c :: c in symbolCode ==> symbolCode[c] in books) &&
      (forall s :: s in books ==> books[s].Valid()) &&
      (forall s, t :: s in books && t in books && s != t ==> books[s] != books[t])
    }

    /** One empty book per symbol of the map, named by the symbol, on exchange
        `'Poloniex'`; the connection starts out connected. */
    constructor (symbolCode: map<int, string>)
      ensures Valid()
      ensures this.symbolCode == symbolCode
      ensures books.Keys == set c | c in symbolCode :: symbolCode[c]
      ensures forall s :: s in books ==>
        fresh(books[s]) && books[s].symbol == s && books[s].exchCode == ExchangeCode &&
        books[s].View() == BookView([], [], 0.0, 0.0, "")
      ensures connected
    {
      var m := NewBooks(symbolCode);
      this.symbolCode := symbolCode;
      books := m;
      connected := true;
    }

    /** `onUpdate`: an error reply returns with nothing changed; any channel message sets
        `connected`; a heartbeat or an unmapped code then returns; otherwise the ticks go to
        the code's book in list order until one raises, and that error escapes. */
    method OnUpdate(msg: Message) returns (outcome: Outcome)
      requires Valid()
      modifies this, books.Values
      ensures Valid()
      ensures msg.ErrorReply? ==> connected == old(connected)
      ensures msg.Channel? ==> connected
      ensures msg.ErrorReply? || msg.code == HeartbeatCode || msg.code !in symbolCode ==>
        outcome == Completed &&
        forall s :: s in books ==> books[s].View() == old(books[s].View())
      ensures msg.Channel? && msg.code != HeartbeatCode && msg.code in symbolCode ==>
        var symbol := symbolCode[msg.code];
        var book := books[symbol];
        (book.View(), outcome) == ApplyPushTicks(old(book.View()), msg.ticks) &&
        forall s :: s in books && s != symbol ==> books[s].View() == old(books[s].View())
    {
      if msg.ErrorReply? {
        return Completed;
      }
      if msg.code == HeartbeatCode {
        connected := true;
        return Completed;
      }
      connected := true;
      if msg.code !in symbolCode {
        return Completed;
      }
      var book := books[symbolCode[msg.code]];
      outcome := DispatchTicks(book, msg.ticks);
    }

    /** The tick loop of `onUpdate` on the channel's book: `'o'` and `'t'` tuples are
        handled in list order; an error ends the loop and escapes. */
    static method DispatchTicks(book: Book, ticks: seq<Tick>) returns (outcome: Outcome)
      requires book.Valid()
      modifies book
      ensures book.Valid()
      ensures (book.View(), outcome) == ApplyPushTicks(old(book.View()), ticks)
    {
      outcome := Completed;
      var i := 0;
      while i < |ticks|
        invariant 0 <= i <= |ticks|
        invariant book.Valid()
        invariant (book.View(), outcome) == ApplyPushTicks(old(book.View()), ticks[..i])
        invariant outcome == Completed
      {
        assert ticks[..i + 1][..i] == ticks[..i];
        match ticks[i] {
          case Order(flag, price, size, text) =>
            outcome := OrderBookEvent(book, flag, price, size, text);
          case Trade(id, _, price, size, _) =>
            TradeEvent(book, id, price, size);
          case Snapshot(_, _) =>
          case Other(_) =>
        }
        if outcome.Raised? {
          RaiseStopsTicks(old(book.View()), ticks[..i + 1], ticks[i + 1..]);
          assert ticks[..i + 1] + ticks[i + 1..] == ticks;
          return;
        }
        i := i + 1;
      }
      assert ticks[..i] == ticks;
    }

    /** `orderBookEvent`: removal for a size string of `"0.00000000"`, insertion otherwise,
        on the side the flag names; insertions use the corrected per-element bid test. */
    static method OrderBookEvent(book: Book, flag: int, price: real, size: real, text: string)
      returns (outcome: Outcome)
      requires book.Valid()
      modifies book
      ensures book.Valid()
      ensures (book.View(), outcome) == ApplyOrder(old(book.View()), flag, price, size, text)
    {
      if text == RemovalSize {
        if flag == 0 {
          outcome := OrderRemoval(book, price, false);
        } else {
          outcome := OrderRemoval(book, price, true);
        }
      } else {
        if flag == 0 {
          UpdateBidAskPerElement(book, price, size, true);
        } else {
          UpdateBidAskPerElement(book, price, size, false);
        }
        outcome := Completed;
      }
    }

    /** `tradeEvent`: hands price, size and id to `onTrade`. */
    static method TradeEvent(book: Book, id: string, price: real, size: real)
      requires book.Valid()
      modifies book
      ensures book.Valid()
      ensures book.View() == ApplyTrade(old(book.View()), id, price, size)
    {
      book.OnTrade(price, size, id);
    }
  }
}
