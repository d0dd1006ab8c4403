/** The install and activate handlers as functions on the cache registry. */
module Lifecycle {
  import opened Fetch
  import opened CacheApi
  import opened Config

  /** Install: open the static store, then `addAll` the core assets;
      `fetched[i]` is what the fetch of `CORE_ASSETS[i]` settles with. The
      flag says whether the install succeeded. */
  function Installed(reg: Registry, version: string, scope: string, fetched: seq<NetOutcome>): (bool, Registry)
    requires |fetched| == |CORE_ASSETS|
  {
    var withStore := reg.Open(StaticName(version));
    CoreKeysDistinct(scope);
    withStore.AddAll(StaticName(version), CoreKeys(scope), fetched)
  }

  /** The names among `names` that activation deletes. */
  function Stale(names: seq<string>, allowed: set<string>): set<string> {
    set n | n in names && n !in allowed
  }

  /** One more listed name considered by the activation loop: a stale one is
      deleted on top of the earlier deletions, an allowed one changes nothing. */
  lemma StaleStep(reg: Registry, keys: seq<string>, i: nat, allowed: set<string>)
    requires i < |keys|
    ensures keys[i] !in allowed ==>
      reg.Drop(Stale(keys[..i], allowed)).Drop({keys[i]}) == reg.Drop(Stale(keys[..i + 1], allowed))
    ensures keys[i] in allowed ==> Stale(keys[..i + 1], allowed) == Stale(keys[..i], allowed)
  {
    assert keys[..i + 1] == keys[..i] + [keys[i]];
    if keys[i] !in allowed {
      DropTwice(reg, Stale(keys[..i], allowed), {keys[i]});
      assert Stale(keys[..i + 1], allowed) == Stale(keys[..i], allowed) + {keys[i]};
    }
  }

  /** Activate: delete every store whose name is not one of this version's two. */
  function Activated(reg: Registry, version: string): Registry {
    reg.Drop(Stale(reg.names, Allowed(version)))
  }

  /** A successful install leaves every core asset in the static store with
      the response fetched for it and keeps the store's other entries, such as
      pages cached at run time under the same version; a failed one writes
      none of them, though the static store has been opened. */
  lemma InstallAllOrNothing(reg: Registry, version: string, scope: string, fetched: seq<NetOutcome>)
    requires reg.Valid() && |fetched| == |CORE_ASSETS|
    ensures var (ok, after) := Installed(reg, version, scope, fetched);
      var keys := CoreKeys(scope);
      var withStore := reg.Open(StaticName(version));
      && after.Valid()
      && StaticName(version) in after.stores
      && after.names == withStore.names
      && (ok <==> forall i :: 0 <= i < |fetched| ==> Storable(fetched[i]))
      && (ok ==> forall i :: 0 <= i < |keys| ==>
            keys[i] in after.stores[StaticName(version)] && after.stores[StaticName(version)][keys[i]] == fetched[i].response)
      && (ok ==> forall k :: k in after.stores[StaticName(version)] <==> k in withStore.stores[StaticName(version)] || k in keys)
      && (ok ==> forall k :: k in withStore.stores[StaticName(version)] && k !in keys ==>
            after.stores[StaticName(version)][k] == withStore.stores[StaticName(version)][k])
      && (!ok ==> after == withStore)
      && (forall n :: n in reg.stores && n != StaticName(version) ==> n in after.stores && after.stores[n] == reg.stores[n])
  {
    var withStore := reg.Open(StaticName(version));
    CoreKeysDistinct(scope);
    AddAllSpec(withStore, StaticName(version), CoreKeys(scope), fetched);
  }

  /** After activation the stores are exactly the old ones with an allowed
      name, each with its entries, listed in the old order. */
  lemma ActivateKeepsAllowed(reg: Registry, version: string)
    requires reg.Valid()
    ensures var after := Activated(reg, version);
      && after.Valid()
      && after.stores.Keys == reg.stores.Keys * Allowed(version)
      && (forall n :: n in after.stores ==> after.stores[n] == reg.stores[n])
      && after.names == Without(reg.names, Stale(reg.names, Allowed(version)))
  {
    DropSpec(reg, Stale(reg.names, Allowed(version)));
    assert Stale(reg.names, Allowed(version)) == reg.stores.Keys - Allowed(version);
  }

  /** Activating twice is activating once. */
  lemma ActivateIdempotent(reg: Registry, version: string)
    requires reg.Valid()
    ensures Activated(Activated(reg, version), version) == Activated(reg, version)
  {
    var once := Activated(reg, version);
    DropSpec(reg, Stale(reg.names, Allowed(version)));
    assert Stale(once.names, Allowed(version)) == {};
    DropNothing(once, {});
  }

  /** Activation under a new version removes both stores of any other
      version, and keeps this version's stores. */
  lemma ActivateRetiresOtherVersions(reg: Registry, version: string, older: string)
    requires reg.Valid() && older != version
    ensures var after := Activated(reg, version);
      && StaticName(older) !in after.stores && DynamicName(older) !in after.stores
      && (StaticName(version) in reg.stores ==> StaticName(version) in after.stores)
      && (DynamicName(version) in reg.stores ==> DynamicName(version) in after.stores)
  {
    StoreNamesInjective(older, version);
    ActivateKeepsAllowed(reg, version);
  }

  /** A new version's install followed by its activation: the new static store
      exists, holds the shell when the install succeeded, and no store of
      the previous version survives. */
  lemma UpgradeRotation(reg: Registry, older: string, version: string, scope: string, fetched: seq<NetOutcome>)
    requires reg.Valid() && older != version && |fetched| == |CORE_ASSETS|
    ensures var (ok, installed) := Installed(reg, version, scope, fetched);
      var after := Activated(installed, version);
      && StaticName(version) in after.stores
      && StaticName(older) !in after.stores && DynamicName(older) !in after.stores
      && (ok ==> forall i :: 0 <= i < |CORE_ASSETS| ==> CoreKeys(scope)[i] in after.stores[StaticName(version)])
  {
    var (ok, installed) := Installed(reg, version, scope, fetched);
    InstallAllOrNothing(reg, version, scope, fetched);
    ActivateRetiresOtherVersions(installed, version, older);
    ActivateKeepsAllowed(installed, version);
  }
}
