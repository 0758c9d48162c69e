/** The engine's handlers as functions from state to state. */
module EngineSpec {
  import opened Types
  import opened OrderBooks
  import opened MatchingSpec
  import opened Obligations
  import opened Ledgers
  import D = DbCommands

  datatype State = State(books: map<Pair, Book>, ledger: Ledger)

  function BookOf(s: State, pair: Pair): Book {
    if pair in s.books then s.books[pair] else EMPTY_BOOK
  }

  // ---------------------------------------------------------------------------------------
  // Submitting an order
  // ---------------------------------------------------------------------------------------

  /** What a submission locks of the paying asset. */
  function LockAmount(o: Order): int {
    if o.side == Buy then
      if o.style == Market then o.quoteAmount.GetOr(0) else o.PriceOrZero() * o.amount
    else o.amount
  }

  /** The stages of an accepted submission, or the ledger after a refused lock. */
  datatype Submission =
    | Refused(touched: Ledger)
    | Accepted(locked: Ledger,               // after the lock
               outcome: Outcome,             // matching on the opposite side
               book: Book,                   // the book afterwards, the rest of a limit order added
               traded: Ledger,               // after all trades
               done: seq<MatchResult>,       // the trades that succeeded
               refund: int,                  // the leftover lock to release
               final: Ledger)                // after releasing it

  /** The book after matching: the opposite side swept, the rest of a limit order queued. */
  function Rest(o: Order, out: Outcome, book: Book): Book {
    var swept := book.With(o.side.Opposite(), out.levels);
    if o.style == Limit && HasRemaining(out.taker) && out.taker.price.Some?
    then AddTo(swept, out.taker, out.taker.price.value) else swept
  }

  /** The part of the lock to be released: what a market order did not use, or what a limit order
      that is filled at once paid less than it locked. */
  function Refund(o: Order, out: Outcome, done: seq<MatchResult>): int {
    if o.style == Market then LockAmount(o) - Paid(o.side, done)
    else if out.taker.remaining == 0 then LockAmount(o) - Paid(o.side, out.matches)
    else 0
  }

  function Release(l: Ledger, o: Order, refund: int): Ledger {
    if refund > 0 then Unlock(l, o.user, PayMint(o), refund).0 else l
  }

  function Process(s: State, o: Order): Submission {
    var (l1, ok) := Lock(s.ledger, o.user, PayMint(o), LockAmount(o));
    if !ok then Refused(l1)
    else
      var out := MatchSpec(o, BookOf(s, o.pair));
      var book := Rest(o, out, BookOf(s, o.pair));
      var (l2, done) := ExecuteAll(l1, out.matches);
      var refund := Refund(o, out, done);
      Accepted(l1, out, book, l2, done, refund, Release(l2, o, refund))
  }

  /** `process_submit_order`: the new state, and the matches reported to the caller. */
  function Submit(s: State, o: Order): (State, Option<seq<MatchResult>>) {
    match Process(s, o)
    case Refused(l) => (s.(ledger := l), None)
    case Accepted(_, out, book, _, done, _, l) =>
      (State(s.books[o.pair := book], l), Some(if o.style == Market then done else out.matches))
  }

  /** What a submission sends to the database writer: the lock, then for a limit order one trade per
      successful match and its new status. */
  function Emitted(s: State, o: Order): seq<D.DbCommand> {
    match Process(s, o)
    case Refused(_) => []
    case Accepted(_, out, _, _, done, _, _) =>
      var lock := D.UpdateBalance(o.user, PayMint(o), Some(-LockAmount(o)), Some(LockAmount(o)));
      if o.style == Market then [lock]
      else
        [lock] + Trades(done) + StatusUpdates(out)
  }

  function StatusUpdates(out: Outcome): seq<D.DbCommand> {
    var amount, quote := BaseTotal(out.matches), QuoteTotal(out.matches);
    (if out.matches != [] && out.taker.remaining > 0
     then [D.UpdateOrderStatus(out.taker.id, "partial", amount, quote)] else [])
    + (if out.taker.remaining == 0 then [D.UpdateOrderStatus(out.taker.id, "filled", amount, quote)] else [])
  }

  function Trades(ms: seq<MatchResult>): (r: seq<D.DbCommand>)
    ensures |r| == |ms| && forall i :: 0 <= i < |ms| ==> r[i] == D.InsertTrade(ms[i])
  {
    seq(|ms|, i requires 0 <= i < |ms| => D.InsertTrade(ms[i]))
  }

  /** The orders the API lets through. */
  predicate ValidOrder(o: Order) {
    && o.filled == 0
    && (o.style == Limit <==> o.price.Some?)
    && if o.side == Buy && o.style == Market
       then o.amount == 0 && o.remaining == 0 && o.quoteAmount.Some? && o.remainingQuote == o.quoteAmount
            && 0 < o.quoteAmount.value
       else o.remaining == o.amount && 0 < o.amount && o.quoteAmount == None && o.remainingQuote == None
  }

  // ---------------------------------------------------------------------------------------
  // Cancelling an order
  // ---------------------------------------------------------------------------------------

  /** First position of order `id` in a queue. */
  function PositionOf(q: seq<Order>, id: nat): (r: Option<nat>)
    ensures match r
            case Some(i) => i < |q| && q[i].id == id && forall j :: 0 <= j < i ==> q[j].id != id
            case None => forall j :: 0 <= j < |q| ==> q[j].id != id
  {
    if q == [] then None
    else if q[0].id == id then Some(0)
    else
      match PositionOf(q[1..], id)
      case Some(i) => Some(i + 1)
      case None => None
  }

  function FirstLevelOf(levels: seq<Level>, id: nat): (r: Option<nat>)
    ensures match r
            case Some(i) =>
              && i < |levels| && PositionOf(levels[i].queue, id).Some?
              && forall j :: 0 <= j < i ==> PositionOf(levels[j].queue, id).None?
            case None => forall j :: 0 <= j < |levels| ==> PositionOf(levels[j].queue, id).None?
  {
    if levels == [] then None
    else if PositionOf(levels[0].queue, id).Some? then Some(0)
    else
      match FirstLevelOf(levels[1..], id)
      case Some(i) => Some(i + 1)
      case None => None
  }

  function LastLevelOf(levels: seq<Level>, id: nat): (r: Option<nat>)
    ensures match r
            case Some(i) =>
              && i < |levels| && PositionOf(levels[i].queue, id).Some?
              && forall j :: i < j < |levels| ==> PositionOf(levels[j].queue, id).None?
            case None => forall j :: 0 <= j < |levels| ==> PositionOf(levels[j].queue, id).None?
  {
    if levels == [] then None
    else
      var n := |levels| - 1;
      if PositionOf(levels[n].queue, id).Some? then Some(n) else LastLevelOf(levels[..n], id)
  }

  /** The level a search in ascending price order finds: the lowest price holding `id`.  The best
      ask is the lowest price of its side, the best bid the highest. */
  function LevelOf(side: Side, levels: seq<Level>, id: nat): (r: Option<nat>)
    ensures match r
            case Some(i) => i < |levels| && PositionOf(levels[i].queue, id).Some?
            case None => forall j :: 0 <= j < |levels| ==> PositionOf(levels[j].queue, id).None?
  {
    if side == Sell then FirstLevelOf(levels, id) else LastLevelOf(levels, id)
  }

  /** Take one order out; an emptied level disappears. */
  function RemoveAt(levels: seq<Level>, i: nat, pos: nat): seq<Level>
    requires i < |levels| && pos < |levels[i].queue|
  {
    var q := levels[i].queue;
    levels[..i] + WithLevel(levels[i].price, q[..pos] + q[pos + 1..], levels[i + 1..])
  }

  datatype CancelResult = Cancelled(order: Order) | NoBook | Unauthorized | NotFound | UnlockFailed

  /** The side on which a cancel finds the order: the buy side is searched first. */
  function SideOf(book: Book, id: nat): Option<Side> {
    if LevelOf(Buy, book.bids, id).Some? then Some(Buy)
    else if LevelOf(Sell, book.asks, id).Some? then Some(Sell)
    else None
  }

  /** `handle_cancel_order`: note that the order is taken out before the unlock can fail. */
  function Cancel(s: State, id: nat, user: nat, pair: Pair): (State, CancelResult) {
    if pair !in s.books then (s, NoBook)
    else
      var book := s.books[pair];
      match SideOf(book, id)
      case None => (s, NotFound)
      case Some(side) =>
        var levels := book.On(side);
        var i := LevelOf(side, levels, id).value;
        var pos := PositionOf(levels[i].queue, id).value;
        var order := levels[i].queue[pos];
        if order.user != user then (s, Unauthorized)
        else
          var books := s.books[pair := book.With(side, RemoveAt(levels, i, pos))];
          var (l, ok) := Unlock(s.ledger, user, PayMint(order), UnitCost(order) * order.remaining);
          (State(books, l), if ok then Cancelled(order) else UnlockFailed)
  }

  // ---------------------------------------------------------------------------------------
  // Runs
  // ---------------------------------------------------------------------------------------

  datatype Command =
    | SubmitOrder(order: Order)
    | CancelOrder(id: nat, user: nat, pair: Pair)
    | UpdateBalance(user: nat, mint: string, delta: int)

  function Step(s: State, c: Command): State {
    match c
    case SubmitOrder(o) => Submit(s, o).0
    case CancelOrder(id, user, pair) => Cancel(s, id, user, pair).0
    case UpdateBalance(user, mint, delta) => s.(ledger := AddAvailable(s.ledger, user, mint, delta))
  }

  function Run(s: State, cs: seq<Command>): State
    decreases |cs|
  {
    if cs == [] then s else Run(Step(s, cs[0]), cs[1..])
  }

  ghost predicate ValidCommands(cs: seq<Command>) {
    forall c :: c in cs && c.SubmitOrder? ==> ValidOrder(c.order)
  }
}
