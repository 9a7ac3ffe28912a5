/**
 * The data-transfer shapes that the upstream exchange API's JSON bodies are
 * read into. All of them live for one request only.
 */
module Dto {
  import opened Wrappers
  import LinkedMap

  /**
   * One market's quote snapshot. The six values are the upstream's decimal
   * strings, never parsed; internally `volume`, `price`, `ask` and `bid` are
   * the wire fields `vol`, `last`, `sell` and `buy`.
   */
  datatype Ticker = Ticker(
    low: string,
    high: string,
    volume: string,
    price: string,
    ask: string,
    bid: string)

  /** The per-market envelope around a ticker; its `ticker` may be null. */
  datatype MarketData = MarketData(ticker: Option<Ticker>)

  /**
   * The bulk body's `data`: a Java Map from market symbol to envelope, in the
   * order the JSON object listed them. Keys are distinct; a value may be null.
   */
  type MarketMap = m: seq<(string, Option<MarketData>)> | LinkedMap.DistinctKeys(m)

  /** The bulk endpoint's body: a status string and the market map, either possibly null. */
  datatype QuidaxResponse = QuidaxResponse(status: Option<string>, data: Option<MarketMap>)

  /** The single-market endpoint's body: status, message and one envelope, each possibly null. */
  datatype SingleTickerResponse = SingleTickerResponse(
    status: Option<string>,
    message: Option<string>,
    data: Option<MarketData>)
}
