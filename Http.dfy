/** The part of the `requests` library's behaviour that the backend's
    decisions depend on: when `raise_for_status()` raises, and its text. */
module Http {
  import opened Strings

  /** `Response.raise_for_status()` raises `HTTPError` exactly for 4xx and 5xx. */
  predicate RaisesForStatus(code: int) { 400 <= code < 600 }

  /** `str()` of the `HTTPError` that `raise_for_status()` raises. */
  function StatusErrorText(code: int, reason: string, url: string): string
    requires RaisesForStatus(code)
  {
    IntToString(code) + (if code < 500 then " Client Error: " else " Server Error: ") + reason + " for url: " + url
  }
}
