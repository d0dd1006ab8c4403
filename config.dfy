/** The worker's configuration: the version tag, the two store names derived
    from it, the core asset list, and how the relative asset paths become
    cache keys. */
module Config {

  const VERSION: string := "v1.0.0"

  const STATIC_PREFIX: string := "startlist-static-"
  const DYNAMIC_PREFIX: string := "startlist-dynamic-"

  /** `startlist-static-${version}`. */
  function StaticName(version: string): string {
    STATIC_PREFIX + version
  }

  /** `startlist-dynamic-${version}`. */
  function DynamicName(version: string): string {
    DYNAMIC_PREFIX + version
  }

  const CACHE_STATIC: string := StaticName(VERSION)
  const CACHE_DYNAMIC: string := DynamicName(VERSION)

  /** The store names activation keeps. */
  function Allowed(version: string): set<string> {
    {StaticName(version), DynamicName(version)}
  }

  /** The shipped version's two store names are the ones activation keeps,
      and they differ. */
  lemma CurrentStoreNames()
    ensures CACHE_STATIC == "startlist-static-v1.0.0" && CACHE_DYNAMIC == "startlist-dynamic-v1.0.0"
    ensures CACHE_STATIC != CACHE_DYNAMIC && Allowed(VERSION) == {CACHE_STATIC, CACHE_DYNAMIC}
  {
    StoreNamesDiffer(VERSION, VERSION);
  }

  /** The application shell the install step pre-caches, in order. */
  const CORE_ASSETS: seq<string> := [
    "./",
    "./index.html",
    "./manifest.webmanifest",
    "./icons/icon-192.png",
    "./icons/icon-512.png"
  ]

  /** The root document the navigation fallback serves. */
  const INDEX_PATH: string := "./index.html"

  /** A `./`-relative path resolved against `scope`, the URL of the directory
      holding the worker script (ending in `/`); other strings are taken as
      they are. */
  function Resolve(scope: string, path: string): string {
    if |path| >= 2 && path[..2] == "./" then scope + path[2..] else path
  }

  /** The cache keys of the core assets. */
  function CoreKeys(scope: string): (keys: seq<string>)
    ensures |keys| == |CORE_ASSETS|
    ensures forall i :: 0 <= i < |keys| ==> keys[i] == Resolve(scope, CORE_ASSETS[i])
  {
    seq(|CORE_ASSETS|, i requires 0 <= i < |CORE_ASSETS| => Resolve(scope, CORE_ASSETS[i]))
  }

  /** The two store names never coincide, whatever the versions, and each
      one carries its version. */
  lemma StoreNamesDiffer(v: string, w: string)
    ensures StaticName(v) != DynamicName(w)
    ensures StaticName(v)[|STATIC_PREFIX|..] == v && DynamicName(v)[|DYNAMIC_PREFIX|..] == v
  {
    assert StaticName(v)[10] == 's' && DynamicName(w)[10] == 'd';
  }

  /** A store name determines its version: the names of two different
      versions are different. */
  lemma StoreNamesInjective(v: string, w: string)
    requires v != w
    ensures StaticName(v) != StaticName(w) && DynamicName(v) != DynamicName(w)
    ensures StaticName(v) !in Allowed(w) && DynamicName(v) !in Allowed(w)
  {
    StoreNamesDiffer(v, w);
    StoreNamesDiffer(w, v);
    assert StaticName(v)[|STATIC_PREFIX|..] == v;
    assert DynamicName(v)[|DYNAMIC_PREFIX|..] == v;
  }

  /** The five core asset paths resolve to five different keys, so the
      install batch never holds two requests for one key. */
  lemma CoreKeysDistinct(scope: string)
    ensures forall i, j :: 0 <= i < j < |CoreKeys(scope)| ==> CoreKeys(scope)[i] != CoreKeys(scope)[j]
  {
    forall i, j | 0 <= i < j < |CORE_ASSETS| ensures CoreKeys(scope)[i] != CoreKeys(scope)[j] {
      ResolveDistinct(scope, CORE_ASSETS[i], CORE_ASSETS[j]);
    }
  }

  /** Two different `./` paths resolve to different keys. */
  lemma ResolveDistinct(scope: string, a: string, b: string)
    requires a != b && |a| >= 2 && |b| >= 2 && a[..2] == "./" && b[..2] == "./"
    ensures Resolve(scope, a) != Resolve(scope, b)
  {
    assert a == a[..2] + a[2..] && b == b[..2] + b[2..];
    assert (scope + a[2..])[|scope|..] == a[2..] && (scope + b[2..])[|scope|..] == b[2..];
  }
}
