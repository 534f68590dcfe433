/** Decoded feed messages. Each push message is `[channelCode, sequence, [tick, ...]]`;
    a heartbeat is `[1010]`; an error reply is the object `{"error": ...}`. The ticks are
    the tuples of the trailing array, already decoded from JSON: the price and size strings
    of a tuple are carried as values, and the size string of an order tuple is kept as text
    because the removal test compares it literally. */
module Feed {
  import opened Levels

  /** Channel code of a heartbeat message. */
  const HeartbeatCode: int := 1010

  /** The size string of an order tuple that removes the level. */
  const RemovalSize: string := "0.00000000"

  datatype Tick =
      /** `['i', sequenceId, {"orderBook": [asks, bids]}]`: each map price -> size, as levels. */
    | Snapshot(asks: seq<Level>, bids: seq<Level>)
      /** `['o', sideFlag, price, size]`: `size` is the value of the string `sizeText`. */
    | Order(sideFlag: int, price: real, size: real, sizeText: string)
      /** `['t', tradeId, sideFlag, price, size, timestamp]`. */
    | Trade(tradeId: string, sideFlag: int, price: real, size: real, timestamp: int)
      /** A tuple with any other tag. */
    | Other(tag: string)

  datatype Message =
    | ErrorReply(error: string)
    | Channel(code: int, ticks: seq<Tick>)

  /** The exceptions the dispatchers let escape. */
  datatype PyError = KeyError | IndexError

  datatype Outcome = Completed | Raised(error: PyError)

  /** Side flag 0 is the ask side; any other flag is the bid side. */
  function SideOf(flag: int): Side {
    if flag == 0 then Ask else Bid
  }

  predicate IsRemoval(t: Tick)
    requires t.Order?
  {
    t.sizeText == RemovalSize
  }
}
