/**
 The shared shapes of the portfolio tracker: the catalogue entry of a coin,
 a user's holding, the price information per coin and one point of the
 portfolio history. Amounts and money are exact `real`s; timestamps are
 millisecond epochs as `int`; identifiers are strings.
 */
module Types {

  /** A value that may be absent: `undefined`/`null` in the program, or a
      non-2xx upstream reply. */
  datatype Option<+T> = None | Some(value: T) {

    /** The value, or `default` when absent (the program's `?? default`). */
    function GetOr(default: T): T {
      match this
      case Some(v) => v
      case None => default
    }
  }

  /** A catalogue entry of the market-data provider. */
  datatype Coin = Coin(id: string, symbol: string, name: string, image: string)

  /** A recorded quantity of one asset. */
  datatype Holding = Holding(id: string, symbol: string, name: string, amount: real)

  /** Spot price in USD and its 24-hour change in percent (-2.5 means -2.5%). */
  datatype PriceInfo = PriceInfo(price: real, change24hPercentage: real)

  /** Prices keyed by coin id. */
  type PriceMap = map<string, PriceInfo>

  /** One point of the portfolio value history. */
  datatype Point = Point(timestamp: int, value: real)
}
