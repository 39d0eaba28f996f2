/** The Packages a new User is seeded with: the explicit ones and all they depend on. */
module PackageClosure {
  import opened Sequences

  datatype Package = Package(
    id: string, dependencies: seq<string>, defaultEnabled: bool, connections: nat, capabilities: nat)

  predicate Seeded(p: Package) {
    p.defaultEnabled || p.connections > 0 || p.capabilities > 0
  }

  function Get(catalog: seq<Package>, id: string): (r: int)
    ensures -1 <= r < |catalog|
    ensures r >= 0 ==> catalog[r].id == id
    ensures r < 0 <==> forall p :: p in catalog ==> p.id != id
  {
    if catalog == [] then -1
    else if catalog[|catalog| - 1].id == id then |catalog| - 1
    else
      var r := Get(catalog[..|catalog| - 1], id);
      assert catalog == catalog[..|catalog| - 1] + [catalog[|catalog| - 1]];
      r
  }

  function DependenciesOf(catalog: seq<Package>, id: string): seq<string> {
    var at := Get(catalog, id);
    if at >= 0 then catalog[at].dependencies else []
  }

  predicate Has(catalog: seq<Package>, id: string) {
    Get(catalog, id) >= 0
  }

  ghost predicate HoldsSeeds(catalog: seq<Package>, s: set<string>) {
    forall p :: p in catalog && Seeded(p) ==> p.id in s
  }

  ghost predicate HoldsDependencies(catalog: seq<Package>, s: set<string>, id: string) {
    forall d :: d in DependenciesOf(catalog, id) && Has(catalog, d) ==> d in s
  }

  /** Whatever is in the set brings all it depends on that the catalog knows. */
  ghost predicate Closed(catalog: seq<Package>, s: set<string>) {
    HoldsSeeds(catalog, s) && forall id :: id in s ==> HoldsDependencies(catalog, s, id)
  }

  function Ids(catalog: seq<Package>): set<string> {
    set p | p in catalog :: p.id
  }

  /** The catalog's own entry for its id: the last of that id. */
  predicate Entered(catalog: seq<Package>, i: nat) {
    i < |catalog| && forall j :: i < j < |catalog| ==> catalog[j].id != catalog[i].id
  }

  lemma {:induction false} GetTold(catalog: seq<Package>, i: nat)
    requires Entered(catalog, i)
    ensures Get(catalog, catalog[i].id) == i
    decreases |catalog|
  {
    if i < |catalog| - 1 {
      GetTold(catalog[..|catalog| - 1], i);
    }
  }

  lemma {:induction false} GetEntered(catalog: seq<Package>, id: string)
    requires Get(catalog, id) >= 0
    ensures Entered(catalog, Get(catalog, id))
    decreases |catalog|
  {
    if catalog[|catalog| - 1].id != id {
      GetEntered(catalog[..|catalog| - 1], id);
    }
  }

  ghost predicate Listed(catalog: seq<Package>, id: string) {
    exists p :: p in catalog && p.id == id
  }

  /** The `i`th package is its id's own entry, and depends on `d`, which the catalog lists. */
  ghost predicate DependsOn(catalog: seq<Package>, i: nat, d: string) {
    Entered(catalog, i) && d in catalog[i].dependencies && Listed(catalog, d)
  }

  /** What being closed comes to, by the catalog alone: every Package enabled by default, with a
      connection or with a capability is in, and with a Package everything its entry depends on
      that is listed. */
  lemma ClosedTold(catalog: seq<Package>, s: set<string>)
    ensures Closed(catalog, s) <==>
      && (forall p :: p in catalog && (p.defaultEnabled || p.connections != 0 || p.capabilities != 0) ==> p.id in s)
      && (forall i: nat, d :: DependsOn(catalog, i, d) && catalog[i].id in s ==> d in s)
  {
    forall d ensures Has(catalog, d) <==> Listed(catalog, d) {
      if Has(catalog, d) {
        assert catalog[Get(catalog, d)] in catalog;
      }
    }
    if Closed(catalog, s) {
      forall i: nat, d | DependsOn(catalog, i, d) && catalog[i].id in s ensures d in s {
        GetTold(catalog, i);
        assert HoldsDependencies(catalog, s, catalog[i].id) && Has(catalog, d);
      }
    }
    if forall i: nat, d :: DependsOn(catalog, i, d) && catalog[i].id in s ==> d in s {
      forall id, d | id in s && d in DependenciesOf(catalog, id) && Has(catalog, d) ensures d in s {
        GetEntered(catalog, id);
        assert DependsOn(catalog, Get(catalog, id), d);
      }
    }
  }

  lemma {:induction false} DistinctFits(s: seq<string>, all: set<string>)
    requires Distinct(s) && forall x :: x in s ==> x in all
    ensures |s| <= |all|
  {
    if s != [] {
      var n := |s| - 1;
      assert forall x :: x in s[..n] ==> x in s;
      DistinctFits(s[..n], all - {s[n]});
    }
  }

  /** The list a set is, in insertion order: what is added while it is walked is walked too. */
  method FoundationDefaultPackageIds(catalog: seq<Package>) returns (packageIds: seq<string>)
    ensures Distinct(packageIds)
    ensures Closed(catalog, Elems(packageIds))
    ensures forall s :: Closed(catalog, s) ==> Elems(packageIds) <= s
    ensures forall id :: id in packageIds ==> Has(catalog, id)
  {
    packageIds := [];
    for i := 0 to |catalog|
      invariant Distinct(packageIds)
      invariant forall p :: p in catalog[..i] && Seeded(p) ==> p.id in packageIds
      invariant forall id :: id in packageIds ==> Has(catalog, id)
      invariant forall s, id :: Closed(catalog, s) && id in packageIds ==> id in s
    {
      assert catalog[..i + 1] == catalog[..i] + [catalog[i]];
      if Seeded(catalog[i]) && catalog[i].id !in packageIds {
        assert catalog[i] in catalog;
        packageIds := packageIds + [catalog[i].id];
      }
    }
    assert catalog[..|catalog|] == catalog;
    var at := 0;
    while at < |packageIds|
      invariant 0 <= at <= |packageIds| && Distinct(packageIds)
      invariant HoldsSeeds(catalog, Elems(packageIds))
      invariant forall i :: 0 <= i < at ==> HoldsDependencies(catalog, Elems(packageIds), packageIds[i])
      invariant forall id :: id in packageIds ==> Has(catalog, id)
      invariant forall s, id :: Closed(catalog, s) && id in packageIds ==> id in s
      decreases |Ids(catalog)| - at
    {
      Fits(catalog, packageIds);
      packageIds := AddDependencies(catalog, packageIds, at);
      at := at + 1;
    }
    assert forall id :: id in Elems(packageIds) ==> HoldsDependencies(catalog, Elems(packageIds), id);
  }

  lemma Fits(catalog: seq<Package>, packageIds: seq<string>)
    requires Distinct(packageIds) && forall id :: id in packageIds ==> Has(catalog, id)
    ensures |packageIds| <= |Ids(catalog)|
  {
    forall id | id in packageIds
      ensures id in Ids(catalog)
    {
      assert catalog[Get(catalog, id)] in catalog;
    }
    DistinctFits(packageIds, Ids(catalog));
  }

  method AddDependencies(catalog: seq<Package>, before: seq<string>, at: nat) returns (packageIds: seq<string>)
    requires at < |before| && Distinct(before) && HoldsSeeds(catalog, Elems(before))
    requires forall i :: 0 <= i < at ==> HoldsDependencies(catalog, Elems(before), before[i])
    requires forall id :: id in before ==> Has(catalog, id)
    requires forall s, id :: Closed(catalog, s) && id in before ==> id in s
    ensures before <= packageIds && Distinct(packageIds) && HoldsSeeds(catalog, Elems(packageIds))
    ensures forall i :: 0 <= i <= at ==> HoldsDependencies(catalog, Elems(packageIds), packageIds[i])
    ensures forall id :: id in packageIds ==> Has(catalog, id)
    ensures forall s, id :: Closed(catalog, s) && id in packageIds ==> id in s
  {
    packageIds := before;
    var dependencies := DependenciesOf(catalog, before[at]);
    for i := 0 to |dependencies|
      invariant before <= packageIds && Distinct(packageIds)
      invariant forall d :: d in dependencies[..i] && Has(catalog, d) ==> d in packageIds
      invariant forall id :: id in packageIds ==> Has(catalog, id)
      invariant forall s, id :: Closed(catalog, s) && id in packageIds ==> id in s
    {
      var d := dependencies[i];
      assert dependencies[..i + 1] == dependencies[..i] + [d];
      if Has(catalog, d) && d !in packageIds {
        forall s | Closed(catalog, s)
          ensures d in s
        {
          assert before[at] in s && HoldsDependencies(catalog, s, before[at]);
        }
        packageIds := packageIds + [d];
      }
    }
    assert dependencies[..|dependencies|] == dependencies;
    assert forall x :: x in before ==> x in packageIds;
  }
}
