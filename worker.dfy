/** The service worker itself: its three event handlers run against the
    global Cache Storage, which they change in place. The version tag and the
    scope directory are given at construction. */
module ServiceWorker {
  import opened Fetch
  import opened CacheApi
  import opened Config
  import opened Router
  import opened Strategies
  import opened Lifecycle

  class Worker {
    const version: string
    const scope: string
    const caches: CacheStorage

    constructor (version: string, scope: string, caches: CacheStorage)
      ensures this.version == version && this.scope == scope && this.caches == caches
    {
      this.version, this.scope, this.caches := version, scope, caches;
    }

    /** The `install` handler; `fetched[i]` is what the fetch of
        `CORE_ASSETS[i]` settles with. */
    method Install(fetched: seq<NetOutcome>) returns (ok: bool)
      requires caches.Valid() && |fetched| == |CORE_ASSETS|
      modifies caches
      ensures caches.Valid()
      ensures (ok, caches.Snapshot()) == Installed(old(caches.Snapshot()), version, scope, fetched)
    {
      caches.Open(StaticName(version));
      CoreKeysDistinct(scope);
      ok := caches.AddAll(StaticName(version), CoreKeys(scope), fetched);
    }

    /** The `activate` handler: delete, one by one, every listed store whose
        name is not this version's static or dynamic name. */
    method Activate()
      requires caches.Valid()
      modifies caches
      ensures caches.Valid()
      ensures caches.Snapshot() == Activated(old(caches.Snapshot()), version)
    {
      var allowed := Allowed(version);
      var keys := caches.Keys();
      ghost var start := caches.Snapshot();
      var i := 0;
      assert Stale(keys[..0], allowed) == {};
      DropNothing(start, {});
      while i < |keys|
        invariant 0 <= i <= |keys| && keys == start.names
        invariant caches.Valid()
        invariant caches.Snapshot() == start.Drop(Stale(keys[..i], allowed))
      {
        StaleStep(start, keys, i, allowed);
        if keys[i] !in allowed {
          ghost var before := caches.Snapshot();
          var _ := caches.Delete(keys[i]);
          assert caches.Snapshot() == before.Drop({keys[i]});
        }
        i := i + 1;
      }
      assert keys[..i] == keys;
      assert caches.Snapshot() == start.Drop(Stale(start.names, Allowed(version)));
    }

    /** Network first with timeout, for a spreadsheet feed. */
    method FetchFeed(req: Request, fetched: NetOutcome, timedOut: bool) returns (response: Option<Response>, fetches: nat)
      requires caches.Valid()
      modifies caches
      ensures caches.Valid()
      ensures Handled(response, caches.Snapshot(), fetches)
        == NetworkFirstFeed(old(caches.Snapshot()), DynamicName(version), req.url, NetworkWithTimeout(fetched, timedOut))
    {
      fetches := 1;
      match NetworkWithTimeout(fetched, timedOut)
      case Ok(answer) =>
        caches.Open(DynamicName(version));
        caches.Put(DynamicName(version), req.url, answer);
        response := Some(answer);
      case Fail =>
        var cached := caches.Match(req.url);
        response := if cached.Some? then cached else Some(NO_DATA);
    }

    /** Network first, falling back to the cached page or the root document,
        for a navigation. */
    method FetchNavigation(req: Request, fetched: NetOutcome) returns (response: Option<Response>, fetches: nat)
      requires caches.Valid()
      modifies caches
      ensures caches.Valid()
      ensures Handled(response, caches.Snapshot(), fetches)
        == NavigateWithFallback(old(caches.Snapshot()), StaticName(version), req.url, Resolve(scope, INDEX_PATH), fetched)
    {
      fetches := 1;
      match fetched
      case Ok(answer) =>
        caches.Open(StaticName(version));
        caches.Put(StaticName(version), req.url, answer);
        response := Some(answer);
      case Fail =>
        var cached := caches.Match(req.url);
        if cached.Some? {
          response := cached;
        } else {
          response := caches.Match(Resolve(scope, INDEX_PATH));
        }
    }

    /** Cache first, refilled from the network, for every other request. */
    method FetchGeneric(req: Request, fetched: NetOutcome) returns (response: Option<Response>, fetches: nat)
      requires caches.Valid()
      modifies caches
      ensures caches.Valid()
      ensures Handled(response, caches.Snapshot(), fetches)
        == CacheFirst(old(caches.Snapshot()), StaticName(version), req.url, fetched)
    {
      var cached := caches.Match(req.url);
      if cached.Some? {
        return cached, 0;
      }
      fetches := 1;
      match fetched
      case Ok(answer) =>
        caches.Open(StaticName(version));
        caches.Put(StaticName(version), req.url, answer);
        response := Some(answer);
      case Fail =>
        response := Some(OFFLINE);
    }

    /** The `fetch` handler: classify the request, then run its strategy. */
    method OnFetch(req: Request, fetched: NetOutcome, timedOut: bool) returns (response: Option<Response>, fetches: nat)
      requires caches.Valid()
      modifies caches
      ensures caches.Valid()
      ensures Handled(response, caches.Snapshot(), fetches)
        == Dispatch(old(caches.Snapshot()), version, scope, req, fetched, timedOut)
    {
      match Classify(req)
      case SpreadsheetFeed =>
        response, fetches := FetchFeed(req, fetched, timedOut);
      case Navigation =>
        response, fetches := FetchNavigation(req, fetched);
      case Generic =>
        response, fetches := FetchGeneric(req, fetched);
    }
  }
}
