/** What one `requests.get` call (followed by `raise_for_status()`) can come
    to, seen from the retry loops. The network itself is not modelled: a
    caller supplies the outcome of each attempt in order. */
module Net {

  /** The outcome of one HTTP attempt. `Success` carries what the caller
      reads from the response; `SSLErr` and `TimeoutErr` are the two
      exception classes the scraper retries; `OtherReqErr` is every other
      `requests.RequestException` (connection refused, DNS failure, and the
      `HTTPError` that `raise_for_status()` raises on a non-2xx status).
      `detail` stands for `str(e)`. */
  datatype Attempt<+T> =
    | Success(body: T)
    | SSLErr
    | TimeoutErr(detail: string)
    | OtherReqErr(detail: string)
  {
    /** The failures both retry loops answer with another attempt. */
    predicate Transient() {
      SSLErr? || TimeoutErr?
    }
  }

  /** Exceptions that escape a function of the scraper and end the run. */
  datatype Exception =
    | RequestError(detail: string)  // an uncaught requests.RequestException
    | IndexError                    // get_shop_name on a URL with fewer than four '/'-parts
    | TypeError                     // subscripting the None the resolver can return
    | KeyError                      // sorting a frame with no 'price' column
}
