/** The exceptions the price sources raise. `Provider` is
    `providers/base.py`'s `ProviderError`; the other variants are the
    built-in exceptions that escape un-wrapped from some sources. */
module Errors {
  import opened Wrappers

  datatype Error =
    | Transport                      // request failed, HTTP error status, undecodable body
    | Malformed                      // payload of the wrong shape (TypeError, AttributeError)
    | MissingKey(key: string)        // KeyError on a named key
    | NoPriceFields                  // KeyError("no price fields")
    | InvalidDecimal(text: string)   // decimal.InvalidOperation from Decimal(text)
    | DivisionByZero                 // decimal.DivisionByZero
    | CsvEmpty                       // ValueError("stooq csv empty")
    | CsvMalformed                   // ValueError("stooq csv malformed")
    | Provider(reason: Reason)       // ProviderError

  datatype Reason =
    | Wrapped(source: string, cause: Error)   // ProviderError(f"{source} failed: {cause}")
    | NothingMatched
    | NoAssetsReturned
    | ApiKeyMissing
    | NoManualPrices
    | StooqViaRouterOnly
    | KitcoOnlyXcu
    | KitcoNeedsUsdTry

  /** `except Exception as e: raise ProviderError(f"{source} failed: {e}")`. */
  function Wrap<T>(source: string, r: Result<T, Error>): (w: Result<T, Error>)
    ensures r.Success? ==> w == r
    ensures r.Failure? ==> w == Failure(Provider(Wrapped(source, r.error)))
  {
    match r
    case Success(_) => r
    case Failure(e) => Failure(Provider(Wrapped(source, e)))
  }
}
