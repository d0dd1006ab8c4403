/** The fetch handler's three strategies and its dispatch, as functions from
    the cache registry, the request and the network outcome to the response
    handed to `respondWith` and the registry afterwards. */
module Strategies {
  import opened Fetch
  import opened CacheApi
  import opened Config
  import opened Router

  /** What one intercepted request produced: the response (None when the
      handler resolves to `undefined`), the registry afterwards, and how many
      network fetches it started. */
  datatype Handled = Handled(response: Option<Response>, after: Registry, fetches: nat)

  /** Network first with timeout, for spreadsheet feeds. `outcome` is the
      already raced result of `networkWithTimeout`. */
  function NetworkFirstFeed(reg: Registry, dynamicStore: string, key: string, outcome: NetOutcome): Handled {
    match outcome
    case Ok(answer) => Handled(Some(answer), reg.Open(dynamicStore).Put(dynamicStore, key, answer), 1)
    case Fail =>
      var cached := FirstMatch(reg.names, reg.stores, key);
      Handled(if cached.Some? then cached else Some(NO_DATA), reg, 1)
  }

  /** Network first with the root document as fallback, for navigations. */
  function NavigateWithFallback(reg: Registry, staticStore: string, key: string, indexKey: string, outcome: NetOutcome): Handled {
    match outcome
    case Ok(answer) => Handled(Some(answer), reg.Open(staticStore).Put(staticStore, key, answer), 1)
    case Fail =>
      var cached := FirstMatch(reg.names, reg.stores, key);
      Handled(if cached.Some? then cached else FirstMatch(reg.names, reg.stores, indexKey), reg, 1)
  }

  /** Cache first with network refill, for every other request. */
  function CacheFirst(reg: Registry, staticStore: string, key: string, outcome: NetOutcome): Handled {
    var cached := FirstMatch(reg.names, reg.stores, key);
    if cached.Some? then Handled(cached, reg, 0)
    else match outcome
      case Ok(answer) => Handled(Some(answer), reg.Open(staticStore).Put(staticStore, key, answer), 1)
      case Fail => Handled(Some(OFFLINE), reg, 1)
  }

  /** The fetch handler: classify, then run the chosen strategy. `fetched` is
      what the network would settle with; `timedOut` says whether the feed
      strategy's timer wins the race against it. */
  function Dispatch(reg: Registry, version: string, scope: string, req: Request, fetched: NetOutcome, timedOut: bool): Handled {
    match Classify(req)
    case SpreadsheetFeed => NetworkFirstFeed(reg, DynamicName(version), req.url, NetworkWithTimeout(fetched, timedOut))
    case Navigation => NavigateWithFallback(reg, StaticName(version), req.url, Resolve(scope, INDEX_PATH), fetched)
    case Generic => CacheFirst(reg, StaticName(version), req.url, fetched)
  }

  /** Some store of `reg` holds `key` with exactly `resp`. */
  ghost predicate Stored(reg: Registry, key: string, resp: Response) {
    exists n :: n in reg.names && n in reg.stores && key in reg.stores[n] && reg.stores[n][key] == resp
  }

  /** A fresh network answer (written to `store` then returned) leaves every
      other store as it was and keeps the registry well formed. */
  ghost predicate FreshWrite(reg: Registry, store: string, key: string, answer: Response, h: Handled) {
    && h.response == Some(answer)
    && h.after.Valid()
    && store in h.after.stores
    && (Cacheable(answer) ==> h.after.stores[store] == reg.Open(store).stores[store][key := answer])
    && (!Cacheable(answer) ==> h.after == reg.Open(store))
    && (forall n :: n in reg.stores && n != store ==> n in h.after.stores && h.after.stores[n] == reg.stores[n])
    && (forall n :: n in h.after.stores ==> n in reg.stores || n == store)
  }

  /** Feed, network answered in time: the dynamic store maps the request to
      the fetched response, the same response is returned, and no other store
      changes. */
  lemma FeedFresh(reg: Registry, dynamicStore: string, key: string, answer: Response)
    requires reg.Valid()
    ensures FreshWrite(reg, dynamicStore, key, answer, NetworkFirstFeed(reg, dynamicStore, key, Ok(answer)))
    ensures Cacheable(answer) ==> NetworkFirstFeed(reg, dynamicStore, key, Ok(answer)).after.stores[dynamicStore][key] == answer
  {
  }

  /** Feed, network failed or timed out: a cached entry of any store is
      returned when one exists, otherwise the CSV `"No Data"` answer; the
      stores are unchanged either way. */
  lemma FeedOffline(reg: Registry, dynamicStore: string, key: string)
    ensures var h := NetworkFirstFeed(reg, dynamicStore, key, Fail);
      && h.after == reg
      && h.response.Some?
      && (HeldIn(reg.names, reg.stores, key) ==> Stored(reg, key, h.response.value))
      && (!HeldIn(reg.names, reg.stores, key) ==> h.response == Some(NO_DATA))
  {
    FirstMatchSpec(reg.names, reg.stores, key);
  }

  /** The feed fallback is bit-exact: quoted `No Data` plus a newline, typed
      `text/csv`, status 200. */
  lemma NoDataExact()
    ensures NO_DATA.body == ['"', 'N', 'o', ' ', 'D', 'a', 't', 'a', '"', '\n']
    ensures NO_DATA.headers == map["content-type" := "text/csv"] && NO_DATA.status == 200
  {
  }

  /** Navigation, network answered: the static store gets the response under
      the request key, and the response is returned. */
  lemma NavigateFresh(reg: Registry, staticStore: string, key: string, indexKey: string, answer: Response)
    requires reg.Valid()
    ensures FreshWrite(reg, staticStore, key, answer, NavigateWithFallback(reg, staticStore, key, indexKey, Ok(answer)))
  {
  }

  /** Navigation, network failed: the exact request's entry when some store
      has it, otherwise whatever is cached for the root document, which may
      be nothing; the stores are unchanged. */
  lemma NavigateOffline(reg: Registry, staticStore: string, key: string, indexKey: string)
    ensures var h := NavigateWithFallback(reg, staticStore, key, indexKey, Fail);
      && h.after == reg
      && (HeldIn(reg.names, reg.stores, key) ==> h.response.Some? && Stored(reg, key, h.response.value))
      && (!HeldIn(reg.names, reg.stores, key) ==> h.response == FirstMatch(reg.names, reg.stores, indexKey))
      && (h.response.Some? <==> HeldIn(reg.names, reg.stores, key) || HeldIn(reg.names, reg.stores, indexKey))
  {
    FirstMatchSpec(reg.names, reg.stores, key);
    FirstMatchSpec(reg.names, reg.stores, indexKey);
  }

  /** An uncached navigation while offline renders the cached root document,
      when that is the only copy of it. */
  lemma NavigateNeverBlank(reg: Registry, staticStore: string, key: string, indexKey: string, root: Response)
    requires !HeldIn(reg.names, reg.stores, key)
    requires staticStore in reg.stores && indexKey in reg.stores[staticStore] && reg.stores[staticStore][indexKey] == root
    requires staticStore in reg.names
    requires forall n :: n in reg.stores && indexKey in reg.stores[n] ==> reg.stores[n][indexKey] == root
    ensures NavigateWithFallback(reg, staticStore, key, indexKey, Fail).response == Some(root)
  {
    FirstMatchSpec(reg.names, reg.stores, key);
    FirstMatchAgreed(reg.names, reg.stores, indexKey, root);
  }

  /** Cache first, hit: the cached entry, no fetch, no change. */
  lemma CacheFirstHit(reg: Registry, staticStore: string, key: string, outcome: NetOutcome)
    requires HeldIn(reg.names, reg.stores, key)
    ensures var h := CacheFirst(reg, staticStore, key, outcome);
      h.fetches == 0 && h.after == reg && h.response.Some? && Stored(reg, key, h.response.value)
  {
    FirstMatchSpec(reg.names, reg.stores, key);
  }

  /** Cache first, miss and network answered: fetched once, stored in the
      static store, returned. */
  lemma CacheFirstRefill(reg: Registry, staticStore: string, key: string, answer: Response)
    requires reg.Valid()
    requires !HeldIn(reg.names, reg.stores, key)
    ensures FreshWrite(reg, staticStore, key, answer, CacheFirst(reg, staticStore, key, Ok(answer)))
    ensures CacheFirst(reg, staticStore, key, Ok(answer)).fetches == 1
  {
    FirstMatchSpec(reg.names, reg.stores, key);
  }

  /** Cache first, miss and network failed: an empty 503 "Offline" answer,
      stores unchanged. */
  lemma CacheFirstOffline(reg: Registry, staticStore: string, key: string)
    requires !HeldIn(reg.names, reg.stores, key)
    ensures var h := CacheFirst(reg, staticStore, key, Fail);
      && h.after == reg && h.fetches == 1
      && h.response == Some(OFFLINE)
      && OFFLINE.status == 503 && OFFLINE.statusText == "Offline" && OFFLINE.body == ""
  {
    FirstMatchSpec(reg.names, reg.stores, key);
  }

  /** Every request gets a response object except an offline navigation
      for which neither the page nor the root document is cached. */
  lemma TotalResponse(reg: Registry, version: string, scope: string, req: Request, fetched: NetOutcome, timedOut: bool)
    ensures var h := Dispatch(reg, version, scope, req, fetched, timedOut);
      h.response.None? <==>
        && Classify(req) == Navigation
        && fetched == Fail
        && !HeldIn(reg.names, reg.stores, req.url)
        && !HeldIn(reg.names, reg.stores, Resolve(scope, INDEX_PATH))
  {
    FirstMatchSpec(reg.names, reg.stores, req.url);
    FirstMatchSpec(reg.names, reg.stores, Resolve(scope, INDEX_PATH));
  }

  /** A request writes at most one store: the dynamic one for a feed, the
      static one otherwise. No other store is created, changed or moved, and
      the only possible new name is that store's, listed last. */
  lemma WritesGoToTheirStore(reg: Registry, version: string, scope: string, req: Request, fetched: NetOutcome, timedOut: bool)
    requires reg.Valid()
    ensures var h := Dispatch(reg, version, scope, req, fetched, timedOut);
      var target := if Classify(req) == SpreadsheetFeed then DynamicName(version) else StaticName(version);
      && h.after.Valid()
      && (forall n :: n in reg.stores && n != target ==> n in h.after.stores && h.after.stores[n] == reg.stores[n])
      && (forall n :: n in h.after.stores ==> n in reg.stores || n == target)
      && (h.after.names == reg.names || h.after.names == reg.names + [target])
  {
  }

  /** A timed-out feed request with a stale copy in the dynamic store is
      answered with the stale copy, even though the network would have
      answered later, and nothing is written. */
  lemma StaleFeedOnTimeout(version: string, key: string, stale: Response, late: Response)
    ensures var reg := Registry([DynamicName(version)], map[DynamicName(version) := map[key := stale]]);
      var h := NetworkFirstFeed(reg, DynamicName(version), key, NetworkWithTimeout(Ok(late), true));
      h.response == Some(stale) && h.after == reg
  {
  }
}
