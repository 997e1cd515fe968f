/** Failure-carrying result types shared by every part of the scanner model. */
module Common {

  /** A value that may be absent (a missing key, a coercion that raised). */
  datatype Option<+T> = None | Some(value: T)

  /**
   * The ways a scanner call ends without data. Each one stands for a
   * `ValueError` that options_scanner.py raises; the message text is not
   * modelled, only which failure it is.
   */
  datatype ScanError =
    | NoExpirations           // yfinance listed no expiration dates
    | NothingFetched          // yfinance: no expiration date could be fetched
    | RequestFailed           // Alpha Vantage: transport, HTTP status or JSON decoding failed
    | ApiError(message: Json) // Alpha Vantage body carries an "Error Message" entry
    | EmptyResponse           // Alpha Vantage body is an empty object
    | MalformedResponse       // Alpha Vantage body cannot be walked as expected
    | NoValidContracts        // Alpha Vantage: no contract survived normalisation
    | NoFutureContracts       // earliest filter: `min` over no expiration on or after today

  /** A JSON value as Python's `json` module decodes it. */
  datatype Json =
    | JNull
    | JBool(b: bool)
    | JInt(i: int)
    | JReal(r: real)
    | JStr(s: string)
    | JArray(items: seq<Json>)
    | JObject(fields: map<string, Json>)

  datatype Result<+T> = Success(value: T) | Failure(error: ScanError)
}
