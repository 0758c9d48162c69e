/** The values the matching engine passes around.

    Decimals are integers at a fixed scale, and a price is a positive integer, so that
    price * amount is exact.  The two-valued strings of the original (`order_type`,
    `order_side`) are enumerations. */
module Types {
  datatype Option<+T> = None | Some(value: T) {
    function GetOr(default: T): T {
      match this
      case Some(v) => v
      case None => default
    }
  }

  type Price = p: int | 0 < p witness 1

  /** `order_type` */
  datatype Side = Buy | Sell {
    function Opposite(): Side {
      if this == Buy then Sell else Buy
    }
  }

  /** `order_side` */
  datatype Style = Limit | Market

  datatype Pair = Pair(base: string, quote: string)

  datatype Order = Order(
    id: nat, user: nat, side: Side, style: Style, pair: Pair, price: Option<Price>,
    amount: int, quoteAmount: Option<int>,
    filled: int, remaining: int, remainingQuote: Option<int>)
  {
    /** `price.unwrap_or(ZERO)` */
    function PriceOrZero(): int {
      match price
      case Some(p) => p
      case None => 0
    }
  }

  datatype MatchResult = MatchResult(
    buyOrder: nat, sellOrder: nat, buyer: nat, seller: nat,
    price: Price, amount: int, pair: Pair)

  /** One price level: the orders resting at a price, oldest first. */
  datatype Level = Level(price: Price, queue: seq<Order>)

  /** Both sides of a book, each with its best price first: the order in which the original
      visits its B-tree (backwards for the buy side). */
  datatype Book = Book(bids: seq<Level>, asks: seq<Level>) {
    function On(side: Side): seq<Level> {
      if side == Buy then bids else asks
    }

    function With(side: Side, levels: seq<Level>): Book {
      if side == Buy then this.(bids := levels) else this.(asks := levels)
    }
  }

  const EMPTY_BOOK := Book([], [])

  function Min(a: int, b: int): int {
    if a <= b then a else b
  }
}
