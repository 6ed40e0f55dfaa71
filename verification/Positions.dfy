/** Positions as every part of the runtime sees them. */
module Positions {
  import opened Prelude

  datatype Side = LONG | SHORT

  datatype PositionStatus = OPEN | CLOSED | STOPPED_OUT

  datatype Position = Position(
    positionId: string, symbol: string, side: Side, entryPrice: real, stopLoss: real, totalAmount: real,
    quantity: real, leverage: real, takeProfit: Option<real>, openedAt: int, status: PositionStatus,
    closedAt: Option<int>, exitPrice: Option<real>, realizedPnl: Option<real>, closeReason: Option<string>,
    evidence: Option<string>)
}
