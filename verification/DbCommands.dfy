/** What the engine thread tells the database writer. */
module DbCommands {
  import opened Types

  datatype DbCommand =
    | InsertOrder(orderId: nat, user: nat, side: Side, style: Style, pair: Pair, price: Option<Price>,
                  amount: int, status: Option<string>, filled: Option<int>, filledQuote: Option<int>)
    | UpdateOrderStatus(orderId: nat, newStatus: string, newFilled: int, newFilledQuote: int)
    | InsertTrade(trade: MatchResult)
    | UpdateBalance(holder: nat, mint: string, availableDelta: Option<int>, lockedDelta: Option<int>)
}
