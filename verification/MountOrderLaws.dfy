/** What the mount order promises over every list of members. */
module MountOrderLaws {
  import opened Sequences

  import opened MountGraph
  import opened Plugins
  import opened Resolution
  import opened MountOrder

  /** `c` holds every sound member whose providers it holds. */
  ghost predicate ClosedUnderProviders(live: seq<Member>, c: set<string>) {
    forall m :: m in live && Sound(live, m) &&
                (forall u :: u in Upstream(Providers(Claims(live)), m) ==> u in c)
                ==> m.packageId in c
  }

  /** The placed members are exactly the least set closed under "all its providers are in". */
  lemma {:induction false} PlacedAreLeast(live: seq<Member>, order: seq<Member>)
    requires Distinct(Ids(live)) && IsMountOrder(live, order)
    ensures ClosedUnderProviders(live, Elems(Ids(order)))
    ensures forall c :: ClosedUnderProviders(live, c) ==> Elems(Ids(order)) <= c
  {
    var g := LiveGraph(live);
    forall m | m in live && Sound(live, m)
        && (forall u :: u in Upstream(Providers(Claims(live)), m) ==> u in Elems(Ids(order)))
      ensures m.packageId in Elems(Ids(order))
    {
      SoundNeeds(live, m);
    }
    forall c | ClosedUnderProviders(live, c) ensures Elems(Ids(order)) <= c {
      assert Closed(g, c) by {
        forall n | n in g.needs && (forall u :: u in g.needs[n] ==> u in c) ensures n in c {
          var m := NeedsSound(live, n);
          SoundNeeds(live, m);
        }
      }
      LeastClosed(g, Ids(order), c);
    }
  }

  /** The member that provides the `k`th service `m` consumes. */
  function ProviderOf(live: seq<Member>, m: Member, k: nat): Member
    requires Sound(live, m) && k < |m.consumes|
  {
    Providers(Claims(live))[m.consumes[k].name].member
  }

  lemma ProviderListed(live: seq<Member>, m: Member, k: nat)
    requires Sound(live, m) && k < |m.consumes|
    ensures ProviderOf(live, m, k) in live
  {
    ProvidersHold(Claims(live));
    ClaimsWithin(live);
  }

  /** Every placed member is sound. */
  lemma PlacedAreSound(live: seq<Member>, order: seq<Member>, m: Member)
    requires Distinct(Ids(live)) && IsMountOrder(live, order) && m in order
    ensures m in live && Sound(live, m)
  {
    InIds(order, m);
    ProvidersFirst(LiveGraph(live), Ids(order));
    var m' := NeedsSound(live, m.packageId);
    SameMember(live, m, m');
  }

  /** `p` is one of the first `j` of `order`. */
  predicate Earlier(order: seq<Member>, j: nat, p: Member)
    requires j <= |order|
  {
    exists i :: 0 <= i < j && order[i] == p
  }

  /** Each provider of a placed member is placed before it. */
  lemma PlacedAfterProviders(live: seq<Member>, order: seq<Member>, j: nat, k: nat)
    requires Distinct(Ids(live)) && IsMountOrder(live, order) && j < |order| && k < |order[j].consumes|
    ensures Sound(live, order[j]) && Earlier(order, j, ProviderOf(live, order[j], k))
  {
    var m := order[j];
    PlacedAreSound(live, order, m);
    ProviderListed(live, m, k);
    var i := PlacedBefore(live, order, j, k);
    SameMember(live, order[i], ProviderOf(live, m, k));
  }

  /** The same, by id. */
  lemma PlacedBefore(live: seq<Member>, order: seq<Member>, j: nat, k: nat) returns (i: nat)
    requires Distinct(Ids(live)) && IsMountOrder(live, order) && j < |order| && k < |order[j].consumes|
    requires order[j] in live && Sound(live, order[j])
    ensures i < j && order[i] in live && order[i].packageId == ProviderOf(live, order[j], k).packageId
  {
    var g := LiveGraph(live);
    SoundNeeds(live, order[j]);
    ProvidersFirst(g, Ids(order));
    assert Ids(order)[j] == order[j].packageId;
    var u := g.needs[Ids(order)[j]][k];
    assert u in Ids(order)[..j];
    i :| 0 <= i < j && Ids(order)[..j][i] == u;
    assert order[i] in order;
  }

  lemma SameMember(live: seq<Member>, a: Member, b: Member)
    requires Distinct(Ids(live)) && a in live && b in live && a.packageId == b.packageId
    ensures a == b
  {
    var i :| 0 <= i < |live| && live[i] == a;
    var j :| 0 <= j < |live| && live[j] == b;
    assert Ids(live)[i] == Ids(live)[j];
  }

  lemma SameOrder(live: seq<Member>, a: seq<Member>, b: seq<Member>)
    requires Distinct(Ids(live)) && IsMountOrder(live, a) && IsMountOrder(live, b)
    ensures a == b
  {
    OrderUnique(LiveGraph(live), Ids(a), Ids(b));
    assert |a| == |Ids(a)| && |b| == |Ids(b)|;
    forall i | 0 <= i < |a| ensures a[i] == b[i] {
      assert Ids(a)[i] == Ids(b)[i];
      SameMember(live, a[i], b[i]);
    }
  }

  /** With members already refused, or with the list cut down to the others, the function
      answers the same order and names the same others as failed. */
  lemma RefusedChangeNoOrder(ms: seq<Member>, refused: set<string>,
                             a: seq<Member>, fa: seq<Failure>, b: seq<Member>, fb: seq<Failure>)
    requires Distinct(Ids(ms)) && Answers(ms, refused, a, fa) && Answers(Live(ms, refused), {}, b, fb)
    ensures a == b
    ensures Elems(Named(fa)) == Elems(Named(fb)) && Elems(Named(fa)) !! refused
  {
    LiveAgain(ms, refused);
    SameOrder(Live(ms, refused), a, b);
    forall n | n in Elems(Named(fa))
      ensures n !in refused
    {
      LiveNotRefused(ms, refused, n);
    }
  }

  lemma LiveNotRefused(ms: seq<Member>, refused: set<string>, n: string)
    requires n in Elems(Ids(Live(ms, refused)))
    ensures n !in refused
  {
    SelectWithin(ms, refused, false);
    var live := Live(ms, refused);
    var i :| 0 <= i < |live| && Ids(live)[i] == n;
    assert live[i] in live;
  }

  /** Already in dependency order, with every need met. */
  ghost predicate InOrder(live: seq<Member>) {
    forall j {:trigger live[j]} :: 0 <= j < |live| ==> InPlace(live, j)
  }

  ghost predicate InPlace(live: seq<Member>, j: nat)
    requires j < |live|
  {
    Sound(live, live[j]) && forall k :: 0 <= k < |live[j].consumes| ==> Earlier(live, j, ProviderOf(live, live[j], k))
  }

  lemma {:induction false} FirstRound(live: seq<Member>, g: Graph, round: map<string, nat>, j: nat)
    requires WellFormed(g) && g.nodes == Ids(live) && j < |live| && InPlace(live, j)
    requires live[j].packageId in g.needs && g.needs[live[j].packageId] == Upstream(Providers(Claims(live)), live[j])
    requires round == map n | n in Elems(Ids(live)) :: 0
    ensures live[j].packageId in round && RoundOk(g, round, live[j].packageId)
  {
    var ids, n := Ids(live), live[j].packageId;
    assert ids[j] in Elems(ids);
    forall u | u in g.needs[n] ensures u in round && Lag(g, u, n) == 0 {
      var k :| 0 <= k < |g.needs[n]| && g.needs[n][k] == u;
      assert Earlier(live, j, ProviderOf(live, live[j], k));
      var i :| 0 <= i < j && live[i] == ProviderOf(live, live[j], k);
      assert ids[i] == u && ids[i] in Elems(ids);
      assert Pos(ids, u) == i && Pos(ids, n) == j;
    }
  }

  lemma ListedIsSwept(g: Graph, round: map<string, nat>)
    requires WellFormed(g) && round == map n | n in Elems(g.nodes) :: 0
    requires forall n :: n in g.nodes ==> n in g.needs
    requires forall n {:trigger RoundOk(g, round, n)} :: n in g.nodes ==> RoundOk(g, round, n)
    ensures IsKahnOrder(g, g.nodes)
  {
    var ids := g.nodes;
    forall i, j | 0 <= i < j < |ids| ensures Before(g, round, ids[i], ids[j]) {
      assert ids[i] in Elems(ids) && ids[j] in Elems(ids);
      assert Pos(ids, ids[i]) == i && Pos(ids, ids[j]) == j;
    }
    assert Swept(g, ids, round);
  }

  /** A list already in dependency order with all needs met keeps its places. */
  lemma InOrderStays(live: seq<Member>)
    requires Distinct(Ids(live)) && InOrder(live)
    ensures IsMountOrder(live, live)
  {
    var g := LiveGraph(live);
    var round := map n | n in Elems(g.nodes) :: 0;
    forall n | n in g.nodes ensures n in g.needs && RoundOk(g, round, n) {
      var j :| 0 <= j < |live| && Ids(live)[j] == n;
      assert InPlace(live, j);
      SoundNeeds(live, live[j]);
      FirstRound(live, g, round, j);
    }
    ListedIsSwept(g, round);
  }

  /** A service a placed member claims is held by that claim. */
  lemma PlacedKeepService(live: seq<Member>, order: seq<Member>, m: Member, k: nat)
    requires Distinct(Ids(live)) && IsMountOrder(live, order)
    requires m in order && k < |m.offers|
    ensures m.offers[k].name in Providers(Claims(live))
    ensures Providers(Claims(live))[m.offers[k].name] == Claim(m, m.offers[k])
  {
    PlacedAreSound(live, order, m);
    ClaimsWithin(live);
    UndisplacedHolds(Claims(live), Claim(m, m.offers[k]));
  }

  lemma ClaimPlaced(live: seq<Member>, order: seq<Member>, c: Claim)
    requires Distinct(Ids(live)) && IsMountOrder(live, order) && c in Claims(order)
    ensures c.member in order
    ensures c.service.name in Providers(Claims(live)) && Providers(Claims(live))[c.service.name] == c
  {
    ClaimsWithin(order);
    var k :| 0 <= k < |c.member.offers| && c.member.offers[k] == c.service;
    PlacedKeepService(live, order, c.member, k);
  }

  ghost predicate Apart(cs: seq<Claim>) {
    forall i, j :: 0 <= i < j < |cs| ==> cs[i].service.name != cs[j].service.name
  }

  lemma ApartAppend(a: seq<Claim>, b: seq<Claim>)
    requires Apart(a) && Apart(b)
    requires forall x, y :: x in a && y in b ==> x.service.name != y.service.name
    ensures Apart(a + b)
  {
    forall i, j | 0 <= i < j < |a + b| ensures (a + b)[i].service.name != (a + b)[j].service.name {
      if i < |a| <= j {
        assert a[i] in a && b[j - |a|] in b;
      }
    }
  }

  /** No two placed members claim the same service. */
  lemma {:induction false} PlacedClaimsApart(live: seq<Member>, order: seq<Member>, k: nat)
    requires Distinct(Ids(live)) && IsMountOrder(live, order) && Distinct(Ids(order)) && k <= |order|
    ensures Apart(Claims(order[..k]))
  {
    if k > 0 {
      PlacedClaimsApart(live, order, k - 1);
      assert order[..k][..|order[..k]| - 1] == order[..k - 1];
      var m := order[k - 1];
      PlacedAreSound(live, order, m);
      OwnOffersApart(live, m);
      var front := Claims(order[..k - 1]);
      forall x, y | x in front && y in ClaimsOf(m) ensures x.service.name != y.service.name {
        DifferentClaimants(live, order, k - 1, x, y);
      }
      ApartAppend(front, ClaimsOf(m));
    }
  }

  /** Where a claim of the first `k` comes from. */
  lemma ClaimFrom(order: seq<Member>, k: nat, x: Claim) returns (p: nat, a: nat)
    requires k <= |order| && x in Claims(order[..k])
    ensures p < k && order[p] == x.member && a < |x.member.offers| && x.member.offers[a] == x.service
  {
    ClaimsWithin(order[..k]);
    p :| 0 <= p < k && order[..k][p] == x.member;
    a :| 0 <= a < |x.member.offers| && x.member.offers[a] == x.service;
  }

  lemma DifferentClaimants(live: seq<Member>, order: seq<Member>, k: nat, x: Claim, y: Claim)
    requires Distinct(Ids(live)) && IsMountOrder(live, order) && Distinct(Ids(order)) && k < |order|
    requires x in Claims(order[..k]) && y in ClaimsOf(order[k])
    ensures x.service.name != y.service.name
  {
    var p, a := ClaimFrom(order, k, x);
    var b :| 0 <= b < |order[k].offers| && ClaimsOf(order[k])[b] == y;
    PlacedKeepService(live, order, order[p], a);
    PlacedKeepService(live, order, order[k], b);
    assert Ids(order)[p] != Ids(order)[k];
  }

  /** An undisplaced member offers each service name once. */
  lemma OwnOffersApart(live: seq<Member>, m: Member)
    requires m in live && m.packageId !in Displaced(Claims(live))
    ensures Apart(ClaimsOf(m))
  {
    var i :| 0 <= i < |live| && live[i] == m;
    assert live == live[..i] + ([m] + live[i + 1..]);
    ClaimsAppend(live[..i], [m] + live[i + 1..]);
    ClaimsAppend([m], live[i + 1..]);
    assert [m][..0] == [];
    assert Claims([m]) == ClaimsOf(m);
    OwnClaims(Claims(live[..i]), m, Claims(live[i + 1..]));
  }

  lemma OwnClaims(before: seq<Claim>, m: Member, after: seq<Claim>)
    requires m.packageId !in Displaced(before + (ClaimsOf(m) + after))
    ensures Apart(ClaimsOf(m))
  {
    var cs, x := before + (ClaimsOf(m) + after), |before|;
    forall a, b | 0 <= a < b < |m.offers| ensures m.offers[a].name != m.offers[b].name {
      assert cs[x + a] == Claim(m, m.offers[a]) && cs[x + b] == Claim(m, m.offers[b]);
      if m.offers[a].name == m.offers[b].name {
        LateClaimDisplaced(cs, x + a, x + b);
      }
    }
  }

  lemma SameProvider(live: seq<Member>, order: seq<Member>, j: nat, k: nat)
    requires Distinct(Ids(live)) && IsMountOrder(live, order) && j < |order| && k < |order[j].consumes|
    ensures
      var s := order[j].consumes[k].name;
      && s in Providers(Claims(live)) && s in Providers(Claims(order))
      && Providers(Claims(order))[s] == Providers(Claims(live))[s]
  {
    var s := order[j].consumes[k].name;
    PlacedAfterProviders(live, order, j, k);
    var c := Providers(Claims(live))[s];
    assert c.member in order;
    ProvidersHold(Claims(live));
    ClaimsWithin(live);
    ClaimsWithin(order);
    var x :| 0 <= x < |c.member.offers| && c.member.offers[x] == c.service;
    assert Claim(c.member, c.member.offers[x]) in Claims(order);
    ProvidersHold(Claims(order));
    ClaimPlaced(live, order, Providers(Claims(order))[s]);
  }

  /** The placed members, listed as placed, are in dependency order with all needs met. */
  lemma OrderIsInOrder(live: seq<Member>, order: seq<Member>)
    requires Distinct(Ids(live)) && IsMountOrder(live, order)
    ensures Distinct(Ids(order)) && InOrder(order)
  {
    ProvidersFirst(LiveGraph(live), Ids(order));
    assert order[..|order|] == order;
    PlacedClaimsApart(live, order, |order|);
    NoneDisplaced(Claims(order));
    forall j | 0 <= j < |order| ensures InPlace(order, j) {
      PlacedAreSound(live, order, order[j]);
      forall k | 0 <= k < |order[j].consumes|
        ensures
          var s := order[j].consumes[k].name;
          && s in Providers(Claims(order))
          && Providers(Claims(order))[s].service.version == order[j].consumes[k].version
          && Earlier(order, j, Providers(Claims(order))[s].member)
      {
        SameProvider(live, order, j, k);
        PlacedAfterProviders(live, order, j, k);
      }
    }
  }

  /** Mount order is idempotent: run on its own order it returns that order, and nothing
      is left over to fail. */
  lemma {:induction false} OrderIdempotent(live: seq<Member>, order: seq<Member>, again: seq<Member>)
    requires Distinct(Ids(live)) && IsMountOrder(live, order)
    requires Distinct(Ids(Live(order, {}))) && IsMountOrder(Live(order, {}), again)
    ensures again == order
    ensures Elems(Ids(Live(order, {}))) - Elems(Ids(again)) == {}
  {
    OrderIsInOrder(live, order);
    LiveAll(order);
    InOrderStays(order);
    SameOrder(order, again, order);
  }

  /** When the sweeps stall, every stalled Plugin has a stalled provider. */
  lemma StalledOnStalled(g: Graph, order: seq<string>, n: string)
    requires WellFormed(g) && IsKahnOrder(g, order)
    requires n in g.needs && n !in order && !ReachesBarred(g, n)
    ensures exists u :: u in g.needs[n] && u in g.needs && u !in order && !ReachesBarred(g, u)
  {
    assert n !in Elems(order);
    var u :| u in g.needs[n] && u !in Elems(order);
    assert u in g.nodes;
    if u in g.barred {
      Edge(g, n, u);
    } else if ReachesBarred(g, u) {
      var b :| b in g.barred && Reaches(g, u, b);
      Prepend(g, n, u, b);
    }
  }
}
