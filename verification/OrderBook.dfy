/** The resting orders of one trading pair. */
module OrderBooks {
  import opened Types

  /** Is price `p` served before price `q` on this side? */
  predicate Ahead(side: Side, p: Price, q: Price) {
    if side == Buy then p > q else p < q
  }

  ghost function Prices(levels: seq<Level>): set<Price> {
    if levels == [] then {} else {levels[0].price} + Prices(levels[1..])
  }

  /** The keys of an ordered map, best first and without repetition. */
  ghost predicate Sorted(side: Side, levels: seq<Level>) {
    levels == [] ||
    ((forall r :: r in Prices(levels[1..]) ==> Ahead(side, levels[0].price, r)) && Sorted(side, levels[1..]))
  }

  /** The orders resting at a price, none if there is no such level. */
  function QueueAt(levels: seq<Level>, p: Price): seq<Order> {
    if levels == [] then []
    else if levels[0].price == p then levels[0].queue
    else QueueAt(levels[1..], p)
  }

  function BestPrice(levels: seq<Level>): Option<Price> {
    if levels == [] then None else Some(levels[0].price)
  }

  /** Queue an order behind the others at its price, opening the level if needed. */
  function Insert(side: Side, levels: seq<Level>, o: Order, p: Price): seq<Level> {
    if levels == [] || Ahead(side, p, levels[0].price) then [Level(p, [o])] + levels
    else if levels[0].price == p then [Level(p, levels[0].queue + [o])] + levels[1..]
    else [levels[0]] + Insert(side, levels[1..], o, p)
  }

  /** What `Insert` means: one order more at the end of one queue, every other queue as it was,
      and the side still sorted. */
  lemma {:induction false} InsertAppends(side: Side, levels: seq<Level>, o: Order, p: Price)
    requires Sorted(side, levels)
    ensures var levels' := Insert(side, levels, o, p);
            && Sorted(side, levels')
            && Prices(levels') == Prices(levels) + {p}
            && QueueAt(levels', p) == QueueAt(levels, p) + [o]
            && forall r: Price :: r != p ==> QueueAt(levels', r) == QueueAt(levels, r)
  {
    var levels' := Insert(side, levels, o, p);
    if levels == [] || Ahead(side, p, levels[0].price) {
      assert levels'[1..] == levels;
      NoQueueElsewhere(levels, p);
    } else {
      InsertAppends(side, levels[1..], o, p);
    }
  }

  lemma {:induction false} NoQueueElsewhere(levels: seq<Level>, p: Price)
    requires p !in Prices(levels)
    ensures QueueAt(levels, p) == []
  {
    if levels != [] {
      NoQueueElsewhere(levels[1..], p);
    }
  }

  /** `OrderBook::add_order` on book values. */
  function AddTo(book: Book, o: Order, p: Price): Book {
    book.With(o.side, Insert(o.side, book.On(o.side), o, p))
  }

  class OrderBook {
    var bids: seq<Level>
    var asks: seq<Level>

    function View(): Book
      reads this
    {
      Book(bids, asks)
    }

    constructor ()
      ensures View() == EMPTY_BOOK
    {
      bids, asks := [], [];
    }

    method AddOrder(order: Order)
      requires order.price.Some?
      modifies this
      ensures View() == AddTo(old(View()), order, order.price.value)
    {
      if order.side == Buy {
        bids := Insert(Buy, bids, order, order.price.value);
      } else {
        asks := Insert(Sell, asks, order, order.price.value);
      }
    }

    method GetBestBid() returns (best: Option<Price>)
      ensures best == BestPrice(bids)
      ensures Sorted(Buy, bids) ==>
                match best
                case Some(p) => p in Prices(bids) && forall r :: r in Prices(bids) ==> r <= p
                case None => bids == []
    {
      best := BestPrice(bids);
    }

    method GetBestAsk() returns (best: Option<Price>)
      ensures best == BestPrice(asks)
      ensures Sorted(Sell, asks) ==>
                match best
                case Some(p) => p in Prices(asks) && forall r :: r in Prices(asks) ==> p <= r
                case None => asks == []
    {
      best := BestPrice(asks);
    }
  }
}
