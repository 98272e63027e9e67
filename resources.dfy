/**
 * CResourceManagerDispenser of ResourceManagerDispenser.cpp: the application's
 * registry of resource managers. Lookups return the first registered manager
 * that matches; providers are handed out to each manager by resource kind;
 * cached resources are released in full passes until a pass releases none.
 */
module Resources {
  import opened Wrappers
  import opened U32Arith

  /** A hashed interface or resource type ID. */
  type InterfaceId = nat

  /** The application a manager is owned by. */
  type AppId = nat

  /** A resource provider and the resource kinds it can create. */
  datatype Provider = Provider(name: string, kinds: set<InterfaceId>)

  /** A nonzero u32 count of released resources. */
  type Released = n: nat | 0 < n < U32_MODULUS witness 1

  /**
   * A resource manager as the dispenser sees it: the interfaces it is
   * (IsA), the resource types and file extensions it manages, the provider
   * kind it wants, its owner, its providers, and what its successive
   * ReleaseAllUnused calls release (nothing once `releases` is used up).
   */
  datatype Manager = Manager(
    interfaces: set<InterfaceId>,
    resourceTypes: set<InterfaceId>,
    extensions: set<string>,
    providerType: InterfaceId,
    owner: Option<AppId>,
    providers: seq<Provider>,
    releases: seq<Released>)

  predicate CanCreateResourceOfKind(p: Provider, kind: InterfaceId)
  {
    kind in p.kinds
  }

  /** One ReleaseAllUnused call: the manager afterwards and the number released. */
  function ReleaseAllUnused(m: Manager): (r: (Manager, U32))
    ensures r.0 == m.(releases := r.0.releases)
    ensures r.1 == 0 <==> m.releases == []
    ensures m.releases != [] ==> r.0.releases == m.releases[1..]
  {
    if m.releases == [] then (m, 0 as U32) else (m.(releases := m.releases[1..]), m.releases[0] as U32)
  }

  /** The index of the first manager from `i` on that `matches`. */
  function FirstMatch(ms: seq<Manager>, matches: Manager -> bool, i: nat): (r: Option<nat>)
    requires i <= |ms|
    ensures r.Some? ==> i <= r.value < |ms| && matches(ms[r.value])
    ensures r.Some? ==> forall j :: i <= j < r.value ==> !matches(ms[j])
    ensures r.None? ==> forall j :: i <= j < |ms| ==> !matches(ms[j])
    decreases |ms| - i
  {
    if i == |ms| then None
    else if matches(ms[i]) then Some(i)
    else FirstMatch(ms, matches, i + 1)
  }

  /** The providers of `ps` that can create `kind`, in their order. */
  function Useful(ps: seq<Provider>, kind: InterfaceId): (r: seq<Provider>)
    ensures forall k :: 0 <= k < |r| ==> r[k] in ps && CanCreateResourceOfKind(r[k], kind)
  {
    if ps == [] then []
    else
      var last := ps[|ps| - 1];
      Useful(ps[..|ps| - 1], kind) + (if CanCreateResourceOfKind(last, kind) then [last] else [])
  }

  /** One full pass of FreeResourceCaches: every manager released once, and the u32 total. */
  function Pass(ms: seq<Manager>): (r: (seq<Manager>, U32))
    ensures |r.0| == |ms|
    ensures forall k :: 0 <= k < |ms| ==> r.0[k] == ReleaseAllUnused(ms[k]).0
  {
    if ms == [] then ([], 0)
    else
      var n := |ms| - 1;
      var prefix := Pass(ms[..n]);
      var last := ReleaseAllUnused(ms[n]);
      (prefix.0 + [last.0], AddU32(prefix.1, last.1))
  }

  /** The releases still to come, over all managers. */
  function Pending(ms: seq<Manager>): nat
  {
    if ms == [] then 0 else Pending(ms[..|ms| - 1]) + |ms[|ms| - 1].releases|
  }

  /** A pass releases something, and shrinks what is still to come, unless nothing is left. */
  lemma {:induction false} PassShrinks(ms: seq<Manager>)
    ensures Pending(ms) == 0 ==> Pass(ms).1 == 0
    ensures Pending(ms) > 0 ==> Pending(Pass(ms).0) < Pending(ms)
    ensures Pending(Pass(ms).0) <= Pending(ms)
  {
    if ms != [] {
      var n := |ms| - 1;
      PassShrinks(ms[..n]);
      assert Pass(ms).0[..n] == Pass(ms[..n]).0;
    }
  }

  /** The managers after FreeResourceCaches: passes are repeated until one releases 0 in total. */
  function Free(ms: seq<Manager>): (r: seq<Manager>)
    ensures |r| == |ms|
    decreases Pending(ms)
  {
    var p := Pass(ms);
    PassShrinks(ms);
    if p.1 == 0 then p.0 else Free(p.0)
  }

  /** Every release still to come, summed over all managers. */
  function TotalReleases(ms: seq<Manager>): nat
  {
    if ms == [] then 0 else TotalReleases(ms[..|ms| - 1]) + SumReleases(ms[|ms| - 1].releases)
  }

  function SumReleases(rs: seq<Released>): nat
  {
    if rs == [] then 0 else rs[0] + SumReleases(rs[1..])
  }

  /** What one pass releases, summed without wrap-around. */
  function PassReleases(ms: seq<Manager>): nat
  {
    if ms == [] then 0 else PassReleases(ms[..|ms| - 1]) + ReleaseAllUnused(ms[|ms| - 1]).1
  }

  /** The u32 total of a pass is what it releases modulo 2^32; the releases left shrink by it. */
  lemma {:induction false} PassAccounts(ms: seq<Manager>)
    ensures Pass(ms).1 == PassReleases(ms) % U32_MODULUS
    ensures TotalReleases(Pass(ms).0) + PassReleases(ms) == TotalReleases(ms)
    ensures PassReleases(ms) == 0 <==> Pending(ms) == 0
  {
    if ms != [] {
      var n := |ms| - 1;
      PassAccounts(ms[..n]);
      assert Pass(ms).0[..n] == Pass(ms[..n]).0;
      AddU32IsMod(Pass(ms[..n]).1, ReleaseAllUnused(ms[n]).1);
      ModAddLeft(PassReleases(ms[..n]), ReleaseAllUnused(ms[n]).1);
    }
  }

  /**
   * Unless the u32 pass total wraps to 0, FreeResourceCaches releases
   * everything: each manager ends with no releases to come and is otherwise
   * unchanged.
   */
  lemma {:induction false} FreeDrainsCaches(ms: seq<Manager>)
    requires TotalReleases(ms) < U32_MODULUS
    ensures forall k :: 0 <= k < |ms| ==> Free(ms)[k] == ms[k].(releases := [])
    decreases Pending(ms)
  {
    var p := Pass(ms);
    PassShrinks(ms);
    PassAccounts(ms);
    if p.1 == 0 {
      assert Pending(ms) == 0;
      PendingZero(ms);
    } else {
      FreeDrainsCaches(p.0);
    }
  }

  lemma {:induction false} PendingZero(ms: seq<Manager>)
    requires Pending(ms) == 0
    ensures forall k :: 0 <= k < |ms| ==> ms[k].releases == []
  {
    if ms != [] {
      PendingZero(ms[..|ms| - 1]);
      assert forall k :: 0 <= k < |ms| - 1 ==> ms[k] == ms[..|ms| - 1][k];
    }
  }

  /**
   * The count is a u32: a pass whose releases add up to 2^32 ends
   * FreeResourceCaches although it released resources.
   */
  lemma WrappedPassStops()
    ensures var ms := [Manager({}, {}, {}, 0, None, [], [U32_MODULUS / 2]),
                       Manager({}, {}, {}, 0, None, [], [U32_MODULUS / 2])];
      Pass(ms).1 == 0 && PassReleases(ms) == U32_MODULUS
  {
    var ms := [Manager({}, {}, {}, 0, None, [], [U32_MODULUS / 2]),
               Manager({}, {}, {}, 0, None, [], [U32_MODULUS / 2])];
    assert ms[..1] == [ms[0]];
    assert ms[..1][..0] == [];
    assert Pass(ms[..1]).1 == U32_MODULUS / 2;
    assert PassReleases(ms[..1]) == U32_MODULUS / 2;
  }

  /** Registering a manager leaves every earlier lookup result alone; it can only answer lookups that found nothing. */
  lemma {:induction false} RegisterKeepsLookups(ms: seq<Manager>, m: Manager, matches: Manager -> bool, i: nat)
    requires i <= |ms|
    ensures FirstMatch(ms + [m], matches, i) ==
      if FirstMatch(ms, matches, i).Some? then FirstMatch(ms, matches, i)
      else if matches(m) then Some(|ms|) else None
    decreases |ms| - i
  {
    if i < |ms| {
      assert (ms + [m])[i] == ms[i];
      RegisterKeepsLookups(ms, m, matches, i + 1);
    }
  }

  /** Useful is the order-keeping filter: it distributes over concatenation and drops no capable provider. */
  lemma {:induction false} UsefulAppend(a: seq<Provider>, b: seq<Provider>, kind: InterfaceId)
    ensures Useful(a + b, kind) == Useful(a, kind) + Useful(b, kind)
    decreases |b|
  {
    if b == [] {
      assert a + b == a;
    } else {
      var n := |b| - 1;
      assert (a + b)[..|a + b| - 1] == a + b[..n];
      UsefulAppend(a, b[..n], kind);
    }
  }

  lemma {:induction false} UsefulKeepsCapable(ps: seq<Provider>, kind: InterfaceId)
    ensures forall p :: p in ps && CanCreateResourceOfKind(p, kind) ==> p in Useful(ps, kind)
  {
    if ps != [] {
      var n := |ps| - 1;
      UsefulKeepsCapable(ps[..n], kind);
      assert ps == ps[..n] + [ps[n]];
    }
  }

  class ResourceManagerDispenser {
    /** mpApp. */
    const app: AppId
    /** mResourceManagers. */
    var managers: seq<Manager>
    /** How many times the resource group manager's InvalidateCache was called. */
    var cacheInvalidations: nat

    constructor(app: AppId)
      ensures this.app == app && managers == [] && cacheInvalidations == 0
    {
      this.app := app;
      managers := [];
      cacheInvalidations := 0;
    }

    /** RegisterResourceManager: the manager, now owned by the application, goes last. */
    method RegisterResourceManager(m: Manager)
      modifies this
      ensures managers == old(managers) + [m.(owner := Some(app))]
      ensures cacheInvalidations == old(cacheInvalidations)
    {
      managers := managers + [m.(owner := Some(app))];
    }

    /** GetResourceManagerWithInterface: the index of the first manager that IsA `id`, or None. */
    function GetResourceManagerWithInterface(id: InterfaceId): (r: Option<nat>)
      reads this
      ensures r.Some? ==> r.value < |managers| && id in managers[r.value].interfaces
      ensures r.Some? ==> forall j :: 0 <= j < r.value ==> id !in managers[j].interfaces
      ensures r.None? ==> forall j :: 0 <= j < |managers| ==> id !in managers[j].interfaces
    {
      FirstMatch(managers, (m: Manager) => id in m.interfaces, 0)
    }

    /** GetResourceManagerForType: the index of the first manager of resources of type `id`, or None. */
    function GetResourceManagerForType(id: InterfaceId): (r: Option<nat>)
      reads this
      ensures r.Some? ==> r.value < |managers| && id in managers[r.value].resourceTypes
      ensures r.Some? ==> forall j :: 0 <= j < r.value ==> id !in managers[j].resourceTypes
      ensures r.None? ==> forall j :: 0 <= j < |managers| ==> id !in managers[j].resourceTypes
    {
      FirstMatch(managers, (m: Manager) => id in m.resourceTypes, 0)
    }

    /** GetResourceManagerForExtension: the index of the first manager of files with extension `ext`, or None. */
    function GetResourceManagerForExtension(ext: string): (r: Option<nat>)
      reads this
      ensures r.Some? ==> r.value < |managers| && ext in managers[r.value].extensions
      ensures r.Some? ==> forall j :: 0 <= j < r.value ==> ext !in managers[j].extensions
      ensures r.None? ==> forall j :: 0 <= j < |managers| ==> ext !in managers[j].extensions
    {
      FirstMatch(managers, (m: Manager) => ext in m.extensions, 0)
    }

    /** FreeResourceCaches: full passes until a pass releases 0, then one InvalidateCache. */
    method FreeResourceCaches()
      modifies this
      ensures managers == Free(old(managers))
      ensures cacheInvalidations == old(cacheInvalidations) + 1
    {
      var again := true;
      while again
        invariant again ==> Free(managers) == Free(old(managers))
        invariant !again ==> managers == Free(old(managers))
        invariant cacheInvalidations == old(cacheInvalidations)
        decreases if again then Pending(managers) + 1 else 0
      {
        ghost var before := managers;
        var released := ReleasePass();
        PassShrinks(before);
        again := released > 0;
      }
      cacheInvalidations := cacheInvalidations + 1;
    }

    /** One pass of FreeResourceCaches' do-while loop: ReleaseAllUnused on every manager, in order. */
    method ReleasePass() returns (released: U32)
      modifies this
      ensures (managers, released) == Pass(old(managers))
      ensures cacheInvalidations == old(cacheInvalidations)
    {
      released := 0;
      var i := 0;
      while i < |managers|
        invariant i <= |managers| == |old(managers)|
        invariant forall k :: 0 <= k < i ==> managers[k] == ReleaseAllUnused(old(managers)[k]).0
        invariant managers[i..] == old(managers)[i..]
        invariant released == Pass(old(managers)[..i]).1
        invariant cacheInvalidations == old(cacheInvalidations)
      {
        assert old(managers)[..i + 1][..i] == old(managers)[..i];
        var r := ReleaseAllUnused(managers[i]);
        managers := managers[i := r.0];
        released := AddU32(released, r.1);
        i := i + 1;
      }
      assert old(managers)[..i] == old(managers);
      assert managers == Pass(old(managers)).0;
    }

    /** SetResourceProviders: each manager gets exactly the providers of its kind, in input order. */
    method SetResourceProviders(providers: seq<Provider>)
      modifies this
      ensures |managers| == |old(managers)|
      ensures forall k :: 0 <= k < |managers| ==>
        managers[k] == old(managers)[k].(providers := Useful(providers, old(managers)[k].providerType))
      ensures cacheInvalidations == old(cacheInvalidations)
    {
      var i := 0;
      while i < |managers|
        invariant i <= |managers| == |old(managers)|
        invariant forall k :: 0 <= k < i ==>
          managers[k] == old(managers)[k].(providers := Useful(providers, old(managers)[k].providerType))
        invariant managers[i..] == old(managers)[i..]
        invariant cacheInvalidations == old(cacheInvalidations)
      {
        var kind := managers[i].providerType;
        var useful := [];
        var j := 0;
        while j < |providers|
          invariant j <= |providers|
          invariant useful == Useful(providers[..j], kind)
        {
          assert providers[..j + 1][..j] == providers[..j];
          if CanCreateResourceOfKind(providers[j], kind) {
            useful := useful + [providers[j]];
          }
          j := j + 1;
        }
        assert providers[..j] == providers;
        managers := managers[i := managers[i].(providers := useful)];
        i := i + 1;
      }
    }
  }
}
