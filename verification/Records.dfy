/** The records that the engine's components exchange. Prices are reals, quantities integers. */
module Records {

  datatype Side = BUY | SELL

  datatype OrderType = MARKET | LIMIT | SL | SLM

  datatype OrderRequest = OrderRequest(
    token: nat, side: Side, orderType: OrderType, quantity: int, limitPrice: real, strategy: string)

  datatype Fill = Fill(
    orderId: string, tradeId: string, strategy: string, token: nat,
    side: Side, quantity: int, price: real, ts: nat)
  {
    /** The change of the signed position: a sell counts negative. */
    function Delta(): int { if side.BUY? then quantity else -quantity }
  }

  /** The fields of a normalised tick that the pipeline looks at; times are in nanoseconds. */
  datatype Tick = Tick(
    token: nat, ltp: real, open: real, volume: nat, oi: nat, exchangeTs: nat, recvTs: nat, isStale: bool)

  function Abs(x: int): nat { if x >= 0 then x else -x }

  function AbsReal(x: real): real { if x >= 0.0 then x else -x }

  function Min(a: int, b: int): int { if a <= b then a else b }

  /** The signed sum of the fills of one instrument. */
  function NetQuantity(fs: seq<Fill>, token: nat): int {
    if fs == [] then 0
    else NetQuantity(fs[..|fs| - 1], token) +
         (if fs[|fs| - 1].token == token then fs[|fs| - 1].Delta() else 0)
  }
}
