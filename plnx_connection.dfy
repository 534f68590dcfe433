/** The `PLNXConnection` class of connection.py: one `orderBook` per subscribed symbol,
    the routing of each decoded tick to that book, the notifications handed to the
    `onUpdate` callback, and the flags that decide whether the reconnect loop runs. */
module PlnxClient {
  import opened Levels
  import opened Feed
  import opened PlnxOrderBook

  /** What `_on_message` hands to `onUpdate`: both sides of a book on channel
      `orderbook_<symbol>`, or `[rate, amt, tradeID]` on channel `tradebook_<symbol>`. */
  datatype Notification =
    | BookUpdate(channel: string, bids: seq<Level>, asks: seq<Level>)
    | TradeUpdate(channel: string, rate: real, amount: real, tradeId: string)

  /** The effect of one tick on its book. */
  function ApplyTick(v: BookView, t: Tick): BookView {
    match t
    case Snapshot(askData, bidData) =>
      v.(asks := Snapped(Ask, v.asks, askData), bids := Snapped(Bid, v.bids, bidData))
    case Order(flag, price, size, text) =>
      var side := SideOf(flag);
      if text == RemovalSize then v.WithLevels(side, Removed(v.Levels(side), price))
      else v.WithLevels(side, Upserted(side, v.Levels(side), Level(price, size)))
    case Trade(id, _, price, size, _) => v.(ltp := Some(price), lts := Some(size), tradeId := id)
    case Other(_) => v
  }

  /** The notifications one tick produces, given the book after it. */
  function Emitted(symbol: string, after: BookView, t: Tick): seq<Notification> {
    match t
    case Snapshot(_, _) => [BookUpdate("orderbook_" + symbol, after.bids, after.asks)]
    case Order(_, _, _, _) => [BookUpdate("orderbook_" + symbol, after.bids, after.asks)]
    case Trade(id, _, price, size, _) => [TradeUpdate("tradebook_" + symbol, price, size, id)]
    case Other(_) => []
  }

  /** The ticks applied in list order. */
  function ApplyTicks(v: BookView, ticks: seq<Tick>): BookView {
    if ticks == [] then v
    else ApplyTick(ApplyTicks(v, ticks[..|ticks| - 1]), ticks[|ticks| - 1])
  }

  function EmittedAll(symbol: string, v: BookView, ticks: seq<Tick>): seq<Notification> {
    if ticks == [] then []
    else EmittedAll(symbol, v, ticks[..|ticks| - 1]) + Emitted(symbol, ApplyTicks(v, ticks), ticks[|ticks| - 1])
  }

  // ---------------------------------------------------------------------------
  // Reconnect flags

  const DefaultReconnectInterval: int := 3

  datatype ReconnectFlags = ReconnectFlags(needsReconnect: bool, disconnectCalled: bool, reconnectInterval: int)

  /** The guard of the reconnect loop in `connect_Socket`. */
  predicate ReconnectLoopRuns(f: ReconnectFlags) {
    f.needsReconnect && !f.disconnectCalled
  }

  function AfterDisconnect(f: ReconnectFlags): ReconnectFlags {
    f.(needsReconnect := false, disconnectCalled := true)
  }

  function AfterReconnect(f: ReconnectFlags, interval: Option<int>): ReconnectFlags {
    f.(reconnectInterval := if interval.None? then DefaultReconnectInterval else interval.value,
       needsReconnect := true)
  }

  function AfterError(f: ReconnectFlags): ReconnectFlags {
    f.(needsReconnect := true)
  }

  /** A call of `disconnect` or `reconnect`, or the `_on_error` callback. */
  datatype FlagEvent = DisconnectCall | ReconnectCall(interval: Option<int>) | ErrorCallback

  function Step(f: ReconnectFlags, e: FlagEvent): ReconnectFlags {
    match e
    case DisconnectCall => AfterDisconnect(f)
    case ReconnectCall(interval) => AfterReconnect(f, interval)
    case ErrorCallback => AfterError(f)
  }

  function Replay(f: ReconnectFlags, events: seq<FlagEvent>): ReconnectFlags
    decreases |events|
  {
    if events == [] then f else Replay(Step(f, events[0]), events[1..])
  }

  /** Nothing resets `disconnect_called`: once `disconnect` has run, the reconnect loop
      never runs again, whatever `reconnect` and `_on_error` do afterwards. */
  lemma {:induction false} DisconnectIsFinal(f: ReconnectFlags, events: seq<FlagEvent>)
    requires f.disconnectCalled
    ensures Replay(f, events).disconnectCalled
    ensures !ReconnectLoopRuns(Replay(f, events))
    decreases |events|
  {
    if events != [] {
      DisconnectIsFinal(Step(f, events[0]), events[1..]);
    }
  }

  /** Before any `disconnect`, a `reconnect` or an error arms the reconnect loop, and
      `reconnect` without an interval falls back to the default of 3 seconds. */
  lemma ReconnectArmsLoop(f: ReconnectFlags, e: FlagEvent)
    requires !f.disconnectCalled && !e.DisconnectCall?
    ensures ReconnectLoopRuns(Step(f, e))
    ensures e == ReconnectCall(None) ==> Step(f, e).reconnectInterval == DefaultReconnectInterval
  {
  }

  // ---------------------------------------------------------------------------
  // What one tick does

  /** A zero-size order tick removes its price from the side its flag names and touches
      nothing else: only zero padding can sit at that price afterwards. */
  lemma ZeroSizeOrderRemoves(v: BookView, t: Tick)
    requires t.Order? && IsRemoval(t)
    ensures var w := ApplyTick(v, t);
      var side := SideOf(t.sideFlag);
      (forall other :: other != side ==> w.Levels(other) == v.Levels(other)) &&
      w.ltp == v.ltp && w.lts == v.lts && w.tradeId == v.tradeId &&
      |w.Levels(side)| >= MaxSize &&
      forall i :: 0 <= i < |w.Levels(side)| && w.Levels(side)[i].price == t.price ==>
        w.Levels(side)[i] == ZeroLevel
  {
    RemovedDropsPrice(v.Levels(SideOf(t.sideFlag)), t.price);
  }

  /** Any other order tick adds its level to the side its flag names (flag 0: asks) and
      keeps that side ordered and at most `max_size` deep. */
  lemma NonZeroOrderUpserts(v: BookView, t: Tick)
    requires t.Order? && !IsRemoval(t)
    ensures var w := ApplyTick(v, t);
      var side := SideOf(t.sideFlag);
      var before := v.Levels(side);
      (forall other :: other != side ==> w.Levels(other) == v.Levels(other)) &&
      w.ltp == v.ltp && w.lts == v.lts && w.tradeId == v.tradeId &&
      Ordered(side, w.Levels(side)) && |w.Levels(side)| == Min(|before| + 1, MaxSize) &&
      (|before| < MaxSize ==> multiset(w.Levels(side)) == multiset(before) + multiset{Level(t.price, t.size)})
  {
    UpsertedSortsAndBounds(SideOf(t.sideFlag), v.Levels(SideOf(t.sideFlag)), Level(t.price, t.size));
  }

  class PlnxConnection {
    const symbols: seq<string>
    /** `CODE2SYMBOL`: channel code to symbol, given and never changed. */
    const codeToSymbol: map<int, string>
    const books: map<string, OrderBook>
    var needsReconnect: bool
    var disconnectCalled: bool
    var reconnectInterval: int

    /** Every book is valid and no two symbols share a book. */
    ghost predicate Valid()
      reads books.Values
    {
      (forall s :: s in books ==> books[s].Valid()) &&
      (forall s, t :: s in books && t in books && s != t ==> books[s] != books[t])
    }

    function Flags(): ReconnectFlags
      reads this
    {
      ReconnectFlags(needsReconnect, disconnectCalled, reconnectInterval)
    }

    constructor (symbols: seq<string>, codeToSymbol: map<int, string>)
      ensures Valid()
      ensures this.symbols == symbols && this.codeToSymbol == codeToSymbol
      ensures books.Keys == set s | s in symbols
      ensures forall s :: s in books ==>
        fresh(books[s]) && books[s].symbol == StripUnderscores(s) &&
        books[s].View() == BookView([], [], None, None, "")
      ensures Flags() == ReconnectFlags(false, false, DefaultReconnectInterval)
    {
      var m: map<string, OrderBook> := map[];
      var i := 0;
      while i < |symbols|
        invariant 0 <= i <= |symbols|
        invariant m.Keys == set k | 0 <= k < i :: symbols[k]
        invariant forall s :: s in m ==>
          fresh(m[s]) && m[s].Valid() && m[s].symbol == StripUnderscores(s) &&
          m[s].View() == BookView([], [], None, None, "")
        invariant forall s, t :: s in m && t in m && s != t ==> m[s] != m[t]
      {
        var book := new OrderBook(symbols[i]);
        m := m[symbols[i] := book];
        i := i + 1;
      }
      assert (set k | 0 <= k < |symbols| :: symbols[k]) == set s | s in symbols;
      this.symbols := symbols;
      this.codeToSymbol := codeToSymbol;
      books := m;
      needsReconnect, disconnectCalled := false, false;
      reconnectInterval := DefaultReconnectInterval;
    }

    /** The message reaches a book: not a heartbeat, a known code, a tracked symbol. */
    predicate Routes(msg: Message) {
      msg.Channel? && msg.code != HeartbeatCode &&
      msg.code in codeToSymbol && codeToSymbol[msg.code] in books
    }

    /** `_on_message`: a heartbeat returns at once; an unknown code or an untracked symbol
        raises `KeyError` (so does an error reply, which has no element 0) before any book
        changes; otherwise each tick is applied to the channel's book in list order and
        its notifications are handed on. */
    method OnMessage(msg: Message) returns (outcome: Outcome, notes: seq<Notification>)
      requires Valid()
      modifies books.Values
      ensures Valid()
      ensures !Routes(msg) ==>
        notes == [] &&
        outcome == (if msg.Channel? && msg.code == HeartbeatCode then Completed else Raised(KeyError)) &&
        forall s :: s in books ==> books[s].View() == old(books[s].View())
      ensures Routes(msg) ==>
        var symbol := codeToSymbol[msg.code];
        var book := books[symbol];
        outcome == Completed &&
        book.View() == ApplyTicks(old(book.View()), msg.ticks) &&
        notes == EmittedAll(book.symbol, old(book.View()), msg.ticks) &&
        forall s :: s in books && s != symbol ==> books[s].View() == old(books[s].View())
    {
      notes := [];
      if msg.ErrorReply? {
        return Raised(KeyError), [];
      }
      if msg.code == HeartbeatCode {
        return Completed, [];
      }
      if msg.code !in codeToSymbol || codeToSymbol[msg.code] !in books {
        return Raised(KeyError), [];
      }
      var book := books[codeToSymbol[msg.code]];
      notes := HandleTicks(book, msg.ticks);
      outcome := Completed;
    }

    /** The tick loop of `_on_message` on the channel's book. */
    static method HandleTicks(book: OrderBook, ticks: seq<Tick>) returns (notes: seq<Notification>)
      requires book.Valid()
      modifies book
      ensures book.Valid()
      ensures book.View() == ApplyTicks(old(book.View()), ticks)
      ensures notes == EmittedAll(book.symbol, old(book.View()), ticks)
    {
      notes := [];
      var i := 0;
      while i < |ticks|
        invariant 0 <= i <= |ticks|
        invariant book.Valid()
        invariant book.View() == ApplyTicks(old(book.View()), ticks[..i])
        invariant notes == EmittedAll(book.symbol, old(book.View()), ticks[..i])
      {
        assert ticks[..i + 1][..i] == ticks[..i];
        var emitted := HandleTick(book, ticks[i]);
        notes := notes + emitted;
        i := i + 1;
      }
      assert ticks[..i] == ticks;
    }

    /** The body of the tick loop of `_on_message` for one tick of `book`'s channel. */
    static method HandleTick(book: OrderBook, tick: Tick) returns (emitted: seq<Notification>)
      requires book.Valid()
      modifies book
      ensures book.Valid()
      ensures book.View() == ApplyTick(old(book.View()), tick)
      ensures emitted == Emitted(book.symbol, book.View(), tick)
    {
      match tick {
        case Snapshot(askData, bidData) =>
          var asks, askSizes := book.SnapAsks(askData);
          var bids, bidSizes := book.SnapBids(bidData);
          emitted := [BookUpdate("orderbook_" + book.symbol, Zip(bids, bidSizes), Zip(asks, askSizes))];
        case Order(flag, price, size, text) =>
          if text == RemovalSize {
            if flag == 0 {
              book.OrderRemoval(price, false);
            } else {
              book.OrderRemoval(price, true);
            }
          } else {
            if flag == 0 {
              book.UpdateBidAsk(price, size, true);
            } else {
              book.UpdateBidAsk(price, size, false);
            }
          }
          emitted := [BookUpdate("orderbook_" + book.symbol, Zip(book.bids, book.bidSizes), Zip(book.asks, book.askSizes))];
        case Trade(id, _, price, size, _) =>
          book.UpdateTrade(price, size, id);
          emitted := [TradeUpdate("tradebook_" + book.symbol, price, size, id)];
        case Other(_) =>
          emitted := [];
      }
    }

    /** `disconnect`: clears `needs_reconnect` and sets `disconnect_called`. */
    method Disconnect()
      modifies this
      ensures Flags() == AfterDisconnect(old(Flags()))
    {
      needsReconnect := false;
      disconnectCalled := true;
    }

    /** `reconnect`: stores the interval (3 when none is given) and sets `needs_reconnect`. */
    method Reconnect(interval: Option<int>)
      modifies this
      ensures Flags() == AfterReconnect(old(Flags()), interval)
    {
      var seconds := if interval.None? then DefaultReconnectInterval else interval.value;
      reconnectInterval := seconds;
      needsReconnect := true;
    }

    /** `_on_error`: sets `needs_reconnect`. */
    method OnError()
      modifies this
      ensures Flags() == AfterError(old(Flags()))
    {
      needsReconnect := true;
    }
  }
}
