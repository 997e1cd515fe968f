/** The canonical option-contract record and the aggregate's tagged row. */
module Records {

  /**
   * One option contract in the shape both adapters emit: the columns
   * contract_id, type, strike, expiration, volume, open_interest,
   * implied_volatility, bid, ask. Floats are kept as exact reals.
   */
  datatype Contract = Contract(
    contractId: string,
    kind: string,
    strike: real,
    expiration: string,
    volume: int,
    openInterest: int,
    impliedVolatility: real,
    bid: real,
    ask: real)

  /** The provider a row came from: the aggregate's `source` column. */
  datatype Source = YFinance | AlphaVantage
  {
    /** The text written to the `source` column. */
    function Name(): string
    {
      match this
      case YFinance => "yfinance"
      case AlphaVantage => "alphavantage"
    }
  }

  /** A row of the aggregate frame: a contract and its `source` column. */
  datatype Row = Row(contract: Contract, source: Source)
}
