/**
 * The values a service worker sees on the wire: requests, responses and
 * the outcome of asking the network. Bodies and headers are opaque; a
 * request is identified by its method and its URL.
 */
module Web {

  type Url = string

  datatype Option<T> = None | Some(value: T) {

    /** JavaScript's `a || b` on "a value or nothing". */
    function Or(other: Option<T>): Option<T> {
      if Some? then this else other
    }

    function GetOr(default: T): T {
      if Some? then value else default
    }
  }

  datatype Request = Request(verb: string, url: Url)

  datatype Response =
    | Http(status: int, body: string)
      /** What `Response.error()` builds: a response of type "error", status 0. */
    | NetworkError
  {
    function Status(): int {
      if Http? then status else 0
    }
  }

  /**
   * A response `fetch` can resolve with: a network error makes `fetch`
   * reject instead, so it never resolves with an error response.
   */
  type FetchedResponse = r: Response | r.Http? witness Http(200, "")

  /** The network as an oracle: a `fetch` either rejects or resolves with a response. */
  datatype NetOutcome = Fail | Ok(response: FetchedResponse)

  /** An "ok status" in the Fetch standard: 200 to 299 inclusive. */
  predicate OkStatus(status: int) {
    200 <= status <= 299
  }

  /**
   * What `Cache.addAll` accepts from a fetch: it rejects when the fetch
   * rejects, when the status is not an ok status, and when it is 206 (a
   * partial response).
   */
  predicate Storable(outcome: NetOutcome) {
    outcome.Ok? && OkStatus(outcome.response.status) && outcome.response.status != 206
  }
}
