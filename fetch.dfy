/** Values the worker exchanges with the browser's Fetch layer: requests,
    responses, and the outcome of a network fetch. Responses are immutable
    values here, so `response.clone()` is the response itself. */
module Fetch {

  datatype Option<T> = None | Some(value: T)

  /** The request modes of the Fetch Standard. */
  datatype RequestMode = Navigate | SameOrigin | NoCors | Cors | WebSocket

  /** A request as the worker sees it; its URL is also its cache key. */
  datatype Request = Request(url: string, mode: RequestMode)

  /** A response snapshot. Header names are stored lower-case, as the
      `Headers` class normalises them. */
  datatype Response = Response(status: int, statusText: string, headers: map<string, string>, body: string)

  /** What a network attempt settles with: a response, or a rejection
      (network error, or the timer winning the race). */
  datatype NetOutcome = Ok(response: Response) | Fail

  const CONTENT_TYPE: string := "content-type"

  /** The type the Fetch Standard gives a body extracted from a string. */
  const TEXT_PLAIN: string := "text/plain;charset=UTF-8"

  /** `new Response(body, { status, statusText, headers })` with a string
      body: the body's own content type is added only when the init headers
      carry none. */
  function NewResponse(body: string, status: int, statusText: string, headers: map<string, string>): (r: Response)
    ensures r.body == body && r.status == status && r.statusText == statusText
    ensures CONTENT_TYPE in r.headers
    ensures CONTENT_TYPE in headers ==> r.headers == headers
    ensures CONTENT_TYPE !in headers ==> r.headers[CONTENT_TYPE] == TEXT_PLAIN
    ensures forall h :: h in headers ==> h in r.headers && r.headers[h] == headers[h]
  {
    var hs := if CONTENT_TYPE in headers then headers else headers[CONTENT_TYPE := TEXT_PLAIN];
    Response(status, statusText, hs, body)
  }

  /** The feed fallback: body `"No Data"` in quotes plus a newline, CSV type, default status 200. */
  const NO_DATA: Response := NewResponse("\"No Data\"\n", 200, "", map[CONTENT_TYPE := "text/csv"])

  /** The terminal offline answer of the cache-first strategy: empty body, 503 "Offline". */
  const OFFLINE: Response := NewResponse("", 503, "Offline", map[])

  /** `networkWithTimeout`: the fetch races a 5000 ms timer that rejects. Which side
      settles first is an input; when the timer does, the race rejects
      whatever the fetch would have produced. */
  function NetworkWithTimeout(fetched: NetOutcome, timedOut: bool): (o: NetOutcome)
    ensures o.Ok? <==> !timedOut && fetched.Ok?
    ensures o.Ok? ==> o == fetched
  {
    if timedOut then Fail else fetched
  }

  /** `Cache.put` rejects a partial (206) response and writes nothing. */
  predicate Cacheable(r: Response) {
    r.status != 206
  }

  /** `Cache.addAll` accepts a fetched response only when its status is ok
      (200-299) and not partial. */
  predicate Storable(o: NetOutcome) {
    o.Ok? && 200 <= o.response.status <= 299 && o.response.status != 206
  }
}
