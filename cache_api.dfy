/** The browser's Cache Storage as the worker uses it: an ordered registry
    of named stores, each a map from request URL to response. Stores are
    listed in creation order, and `caches.match` searches them in that
    order. */
module CacheApi {
  import opened Fetch

  type Store = map<string, Response>

  /** Every name in `s` is different. */
  ghost predicate Distinct(s: seq<string>) {
    forall i, j :: 0 <= i < j < |s| ==> s[i] != s[j]
  }

  /** `s` with the names in `gone` taken out, order kept. */
  function Without(s: seq<string>, gone: set<string>): (r: seq<string>)
    ensures |r| <= |s|
  {
    if s == [] then []
    else (if s[0] in gone then [] else [s[0]]) + Without(s[1..], gone)
  }

  lemma {:induction false} WithoutMembers(s: seq<string>, gone: set<string>)
    ensures forall n :: n in Without(s, gone) <==> n in s && n !in gone
  {
    if s != [] {
      WithoutMembers(s[1..], gone);
      assert s == [s[0]] + s[1..];
    }
  }

  lemma {:induction false} WithoutDistinct(s: seq<string>, gone: set<string>)
    ensures Distinct(s) ==> Distinct(Without(s, gone))
  {
    if s != [] && Distinct(s) {
      WithoutDistinct(s[1..], gone);
      WithoutMembers(s[1..], gone);
      var head := if s[0] in gone then [] else [s[0]];
      var r := head + Without(s[1..], gone);
      forall i, j | 0 <= i < j < |r| ensures r[i] != r[j] {
        if i < |head| {
          assert r[j] in Without(s[1..], gone);
        }
      }
    }
  }

  /** Deleting from a concatenation deletes from each part. */
  lemma {:induction false} WithoutAppend(a: seq<string>, b: seq<string>, gone: set<string>)
    ensures Without(a + b, gone) == Without(a, gone) + Without(b, gone)
  {
    if a == [] {
      assert a + b == b;
    } else {
      assert (a + b)[0] == a[0] && (a + b)[1..] == a[1..] + b;
      WithoutAppend(a[1..], b, gone);
    }
  }

  lemma {:induction false} WithoutTwice(s: seq<string>, a: set<string>, b: set<string>)
    ensures Without(Without(s, a), b) == Without(s, a + b)
  {
    if s != [] {
      WithoutTwice(s[1..], a, b);
      if s[0] !in a {
        var once := Without(s, a);
        assert once == [s[0]] + Without(s[1..], a);
        assert once[0] == s[0] && once[1..] == Without(s[1..], a);
        calc {
          Without(once, b);
          (if s[0] in b then [] else [s[0]]) + Without(Without(s[1..], a), b);
          (if s[0] in a + b then [] else [s[0]]) + Without(s[1..], a + b);
          Without(s, a + b);
        }
      } else {
        assert Without(s, a) == Without(s[1..], a);
      }
    }
  }

  lemma {:induction false} WithoutNothing(s: seq<string>, gone: set<string>)
    requires forall n :: n in s ==> n !in gone
    ensures Without(s, gone) == s
  {
    if s != [] {
      WithoutNothing(s[1..], gone);
      assert s == [s[0]] + s[1..];
    }
  }

  /** The registry: store names in creation order, and each store's contents. */
  datatype Registry = Registry(names: seq<string>, stores: map<string, Store>) {

    /** Each name is listed once, and exactly the listed names have a store. */
    ghost predicate Valid() {
      && Distinct(names)
      && (forall n :: n in stores <==> n in names)
    }

    /** `caches.open(name)`: the store is created, empty and last in order,
        unless it exists. */
    function Open(name: string): (r: Registry)
      ensures Valid() ==> r.Valid()
      ensures name in r.stores
      ensures name in stores ==> r == this
      ensures name !in stores ==> r.names == names + [name] && r.stores[name] == map[]
      ensures forall n :: n in stores ==> n in r.stores && r.stores[n] == stores[n]
      ensures forall n :: n in r.stores ==> n in stores || n == name
    {
      if name in stores then this else Registry(names + [name], stores[name := map[]])
    }

    /** `cache.put(request, response)` on the store `name`: it overwrites the
        entry for `key`, unless the response is one `put` refuses. */
    function Put(name: string, key: string, resp: Response): (r: Registry)
      requires name in stores
      ensures Valid() ==> r.Valid()
      ensures r.names == names && r.stores.Keys == stores.Keys
      ensures Cacheable(resp) ==> r.stores[name] == stores[name][key := resp]
      ensures !Cacheable(resp) ==> r == this
      ensures forall n :: n in stores && n != name ==> r.stores[n] == stores[n]
    {
      if Cacheable(resp) then Registry(names, stores[name := stores[name][key := resp]]) else this
    }

    /** The stores named in `gone` deleted, the others kept in order. */
    function Drop(gone: set<string>): Registry {
      Registry(Without(names, gone), stores - gone)
    }

    /** `cache.addAll(requests)` on the store `name`: when every fetch gives
        a storable response, the whole batch is written at once; otherwise the
        call rejects and nothing is written. The platform rejects a batch
        holding two requests for one key, so the keys are required distinct. */
    function AddAll(name: string, keys: seq<string>, fetched: seq<NetOutcome>): (r: (bool, Registry))
      requires name in stores && |keys| == |fetched| && Distinct(keys)
    {
      if forall i :: 0 <= i < |fetched| ==> Storable(fetched[i]) then
        (true, Registry(names, stores[name := stores[name] + Batch(keys, fetched)]))
      else (false, this)
    }
  }

  /** Deleting stores removes exactly the named ones, keeps the others'
      contents and order, and keeps the registry well formed. */
  lemma DropSpec(reg: Registry, gone: set<string>)
    ensures reg.Valid() ==> reg.Drop(gone).Valid()
    ensures reg.Drop(gone).stores.Keys == reg.stores.Keys - gone
    ensures forall n :: n in reg.Drop(gone).stores ==> reg.Drop(gone).stores[n] == reg.stores[n]
    ensures forall n :: n in reg.Drop(gone).names <==> n in reg.names && n !in gone
    ensures reg.Drop(gone).names == Without(reg.names, gone)
  {
    WithoutMembers(reg.names, gone);
    WithoutDistinct(reg.names, gone);
  }

  lemma DropTwice(reg: Registry, a: set<string>, b: set<string>)
    ensures reg.Drop(a).Drop(b) == reg.Drop(a + b)
  {
    WithoutTwice(reg.names, a, b);
    assert reg.Drop(a).Drop(b).stores == reg.Drop(a + b).stores;
  }

  lemma DropNothing(reg: Registry, gone: set<string>)
    requires reg.Valid()
    requires forall n :: n in reg.stores ==> n !in gone
    ensures reg.Drop(gone) == reg
  {
    WithoutNothing(reg.names, gone);
    assert reg.stores - gone == reg.stores;
  }

  /** Some store listed in `names` holds `key`. */
  ghost predicate HeldIn(names: seq<string>, stores: map<string, Store>, key: string) {
    exists n :: n in names && n in stores && key in stores[n]
  }

  /** `caches.match(request)`: the entry of the first store, in creation
      order, that holds the key. */
  function FirstMatch(names: seq<string>, stores: map<string, Store>, key: string): Option<Response> {
    if names == [] then None
    else if names[0] in stores && key in stores[names[0]] then Some(stores[names[0]][key])
    else FirstMatch(names[1..], stores, key)
  }

  /** FirstMatch finds an entry exactly when some store holds the key, and
      the entry it finds is that of the earliest such store. */
  lemma {:induction false} FirstMatchSpec(names: seq<string>, stores: map<string, Store>, key: string)
    ensures FirstMatch(names, stores, key).Some? <==> HeldIn(names, stores, key)
    ensures FirstMatch(names, stores, key).Some? ==>
      exists k :: 0 <= k < |names| && names[k] in stores && key in stores[names[k]]
        && FirstMatch(names, stores, key).value == stores[names[k]][key]
        && forall m :: 0 <= m < k ==> !(names[m] in stores && key in stores[names[m]])
  {
    if names != [] {
      FirstMatchSpec(names[1..], stores, key);
      assert names == [names[0]] + names[1..];
      if !(names[0] in stores && key in stores[names[0]]) && FirstMatch(names, stores, key).Some? {
        var k :| 0 <= k < |names[1..]| && names[1..][k] in stores && key in stores[names[1..][k]]
          && FirstMatch(names[1..], stores, key).value == stores[names[1..][k]][key]
          && forall m :: 0 <= m < k ==> !(names[1..][m] in stores && key in stores[names[1..][m]]);
        assert names[k + 1] == names[1..][k];
        forall m | 0 <= m < k + 1 ensures !(names[m] in stores && key in stores[names[m]]) {
          if m > 0 {
            assert names[m] == names[1..][m - 1];
          }
        }
      }
    }
  }

  /** A hit, in whichever store: when every store holding the key holds the
      same response, the search returns that response. */
  lemma FirstMatchAgreed(names: seq<string>, stores: map<string, Store>, key: string, resp: Response)
    requires HeldIn(names, stores, key)
    requires forall n :: n in stores && key in stores[n] ==> stores[n][key] == resp
    ensures FirstMatch(names, stores, key) == Some(resp)
  {
    FirstMatchSpec(names, stores, key);
  }

  /** `keys[..]` paired with the fetched responses, as the batch `addAll` writes. */
  function Batch(keys: seq<string>, fetched: seq<NetOutcome>): (b: Store)
    requires |keys| == |fetched|
    requires forall i :: 0 <= i < |fetched| ==> fetched[i].Ok?
    ensures b.Keys == set k | k in keys
  {
    if keys == [] then map[]
    else
      var n := |keys| - 1;
      Batch(keys[..n], fetched[..n])[keys[n] := fetched[n].response]
  }

  lemma {:induction false} BatchAt(keys: seq<string>, fetched: seq<NetOutcome>, i: nat)
    requires |keys| == |fetched|
    requires forall i :: 0 <= i < |fetched| ==> fetched[i].Ok?
    requires Distinct(keys)
    requires i < |keys|
    ensures Batch(keys, fetched)[keys[i]] == fetched[i].response
    decreases |keys|
  {
    var n := |keys| - 1;
    if i < n {
      assert keys[..n][i] == keys[i] && fetched[..n][i] == fetched[i];
      assert keys[n] != keys[i];
      BatchAt(keys[..n], fetched[..n], i);
    }
  }

  /** `addAll` with distinct keys: it succeeds exactly when every fetch gives
      a storable response, and then each key maps to its own response in the
      named store while the store's other entries stay as they were; when it
      fails, nothing changes; other stores never change. */
  lemma AddAllSpec(reg: Registry, name: string, keys: seq<string>, fetched: seq<NetOutcome>)
    requires reg.Valid() && name in reg.stores && |keys| == |fetched| && Distinct(keys)
    ensures var (ok, after) := reg.AddAll(name, keys, fetched);
      && after.Valid()
      && after.names == reg.names
      && (ok <==> forall i :: 0 <= i < |fetched| ==> Storable(fetched[i]))
      && (ok ==> forall i :: 0 <= i < |keys| ==> keys[i] in after.stores[name] && after.stores[name][keys[i]] == fetched[i].response)
      && (ok ==> forall k :: k in after.stores[name] <==> k in reg.stores[name] || k in keys)
      && (ok ==> forall k :: k in reg.stores[name] && k !in keys ==> after.stores[name][k] == reg.stores[name][k])
      && (!ok ==> after == reg)
      && (forall n :: n in reg.stores && n != name ==> n in after.stores && after.stores[n] == reg.stores[n])
  {
    var (ok, after) := reg.AddAll(name, keys, fetched);
    if ok {
      forall i | 0 <= i < |keys|
        ensures keys[i] in after.stores[name] && after.stores[name][keys[i]] == fetched[i].response
      {
        BatchAt(keys, fetched, i);
      }
    }
  }

  /** The global `caches` object, updated in place by the worker. */
  class CacheStorage {
    var names: seq<string>
    var stores: map<string, Store>

    function Snapshot(): Registry
      reads this
    {
      Registry(names, stores)
    }

    ghost predicate Valid()
      reads this
    {
      Snapshot().Valid()
    }

    constructor ()
      ensures Valid() && names == [] && stores == map[]
    {
      names, stores := [], map[];
    }

    method Open(name: string)
      requires Valid()
      modifies this
      ensures Valid() && Snapshot() == old(Snapshot()).Open(name)
    {
      if name !in stores {
        names, stores := names + [name], stores[name := map[]];
      }
    }

    method Put(name: string, key: string, resp: Response)
      requires Valid() && name in stores
      modifies this
      ensures Valid() && Snapshot() == old(Snapshot()).Put(name, key, resp)
    {
      if Cacheable(resp) {
        stores := stores[name := stores[name][key := resp]];
      }
    }

    /** Searches the stores in creation order; reads only. */
    method Match(key: string) returns (r: Option<Response>)
      ensures r == FirstMatch(names, stores, key)
    {
      var i := 0;
      while i < |names|
        invariant 0 <= i <= |names|
        invariant FirstMatch(names, stores, key) == FirstMatch(names[i..], stores, key)
      {
        var n := names[i];
        assert names[i..][1..] == names[i + 1..];
        if n in stores && key in stores[n] {
          return Some(stores[n][key]);
        }
        i := i + 1;
      }
      return None;
    }

    /** `caches.keys()`: the store names in creation order. */
    method Keys() returns (ks: seq<string>)
      ensures ks == names
    {
      ks := names;
    }

    /** `caches.delete(name)`: reports whether the store existed. */
    method Delete(name: string) returns (existed: bool)
      requires Valid()
      modifies this
      ensures Valid() && existed == (name in old(stores))
      ensures Snapshot() == old(Snapshot()).Drop({name})
    {
      existed := name in stores;
      DropSpec(Snapshot(), {name});
      names, stores := Without(names, {name}), stores - {name};
    }

    /** `cache.addAll(keys)` on the store `name`, given what each fetch
        settles with: the batch is collected first and written only when
        every response is storable. The keys are distinct, as the platform
        demands. */
    method AddAll(name: string, keys: seq<string>, fetched: seq<NetOutcome>) returns (ok: bool)
      requires Valid() && name in stores && |keys| == |fetched| && Distinct(keys)
      modifies this
      ensures Valid() && (ok, Snapshot()) == old(Snapshot()).AddAll(name, keys, fetched)
    {
      var batch: Store := map[];
      var i := 0;
      while i < |fetched|
        invariant 0 <= i <= |fetched|
        invariant forall m :: 0 <= m < i ==> Storable(fetched[m])
        invariant batch == Batch(keys[..i], fetched[..i])
      {
        if !Storable(fetched[i]) {
          return false;
        }
        assert keys[..i + 1][..i] == keys[..i] && fetched[..i + 1][..i] == fetched[..i];
        batch := batch[keys[i] := fetched[i].response];
        i := i + 1;
      }
      assert keys[..i] == keys && fetched[..i] == fetched;
      stores := stores[name := stores[name] + batch];
      ok := true;
    }
  }
}
