/** `pluginMountOrderV1` from end to end: what order it returns, whom it names as failed and
    why, proved against the graph of live members. */
module MountOrder {
  import opened Sequences
  import opened Wrappers

  import opened MountGraph
  import opened Plugins
  import opened Resolution
  import opened MountReasons
  import opened CycleSearch
  import KahnPass

  // ---- what the order means, from the live members alone --------------------------

  /** `m` keeps every service it claims, and each service it consumes is provided at the
      version it names. */
  predicate Sound(live: seq<Member>, m: Member) {
    var held := Providers(Claims(live));
    && m.packageId !in Displaced(Claims(live))
    && forall k :: 0 <= k < |m.consumes| ==>
         m.consumes[k].name in held && held[m.consumes[k].name].service.version == m.consumes[k].version
  }

  ghost function LiveGraph(live: seq<Member>): (g: Graph)
    requires Distinct(Ids(live))
    ensures g.nodes == Ids(live)
    ensures WellFormed(g)
  {
    var ids := Ids(live);
    var held := Providers(Claims(live));
    var sound := set m | m in live && Sound(live, m) :: m.packageId;
    SoundIds(live, sound);
    var needs := map n | n in sound :: Upstream(held, live[Pos(ids, n)]);
    var g := Graph(ids, needs, Elems(ids) - sound);
    LiveGraphShape(live, g, sound);
    g
  }

  lemma SoundNeeds(live: seq<Member>, m: Member)
    requires Distinct(Ids(live)) && m in live && Sound(live, m)
    ensures m.packageId in LiveGraph(live).needs
    ensures LiveGraph(live).needs[m.packageId] == Upstream(Providers(Claims(live)), m)
  {
    SoundIds(live, set m | m in live && Sound(live, m) :: m.packageId);
  }

  lemma NeedsSound(live: seq<Member>, n: string) returns (m: Member)
    requires Distinct(Ids(live)) && n in LiveGraph(live).needs
    ensures m in live && m.packageId == n && Sound(live, m)
  {
    m :| m in live && Sound(live, m) && m.packageId == n;
  }

  lemma SoundIds(live: seq<Member>, sound: set<string>)
    requires Distinct(Ids(live)) && sound == set m | m in live && Sound(live, m) :: m.packageId
    ensures forall n :: n in sound ==> n in Ids(live) && Sound(live, live[Pos(Ids(live), n)])
    ensures forall m :: m in live && Sound(live, m) ==> m.packageId in sound && live[Pos(Ids(live), m.packageId)] == m
  {
    forall m | m in live && Sound(live, m)
      ensures m.packageId in Ids(live) && m.packageId in sound && live[Pos(Ids(live), m.packageId)] == m
    {
      var i :| 0 <= i < |live| && live[i] == m;
      assert Ids(live)[i] == m.packageId;
    }
  }

  lemma LiveGraphShape(live: seq<Member>, g: Graph, sound: set<string>)
    requires Distinct(Ids(live)) && sound == set m | m in live && Sound(live, m) :: m.packageId
    requires g.nodes == Ids(live) && g.barred == Elems(Ids(live)) - sound && g.needs.Keys == sound
    requires forall m :: m in live && Sound(live, m) ==>
      m.packageId in g.needs && g.needs[m.packageId] == Upstream(Providers(Claims(live)), m)
    ensures WellFormed(g)
  {
    SoundIds(live, sound);
    forall n, u | n in g.needs && u in g.needs[n] ensures u in g.nodes {
      var m :| m in live && Sound(live, m) && m.packageId == n;
      var k :| 0 <= k < |g.needs[n]| && g.needs[n][k] == u;
      NeedListed(live, m, k);
    }
  }

  lemma NeedListed(live: seq<Member>, m: Member, k: nat)
    requires Sound(live, m) && k < |m.consumes|
    ensures Upstream(Providers(Claims(live)), m)[k] in Ids(live)
  {
    ProvidersHold(Claims(live));
    ClaimsWithin(live);
    var p := Providers(Claims(live))[m.consumes[k].name].member;
    var j :| 0 <= j < |live| && live[j] == p;
    assert Ids(live)[j] == Upstream(Providers(Claims(live)), m)[k];
  }

  /** The mount order of the members not already refused. */
  ghost predicate IsMountOrder(live: seq<Member>, order: seq<Member>)
    requires Distinct(Ids(live))
  {
    && (forall m :: m in order ==> m in live)
    && IsKahnOrder(LiveGraph(live), Ids(order))
  }

  // ---- the resolved graph orders the same Plugins the same way ---------------------

  lemma ProviderIsLive(ms: seq<Member>, refused: set<string>, s: string)
    requires s in Providers(AllClaims(ms, refused))
    requires Providers(AllClaims(ms, refused))[s].member.packageId !in refused
    ensures s in Providers(Claims(Live(ms, refused)))
    ensures Providers(Claims(Live(ms, refused)))[s] == Providers(AllClaims(ms, refused))[s]
  {
    var a, b := Claims(Live(ms, refused)), Claims(Select(ms, refused, true));
    ProvidersAppend(a, b);
    ClaimsWithin(Select(ms, refused, true));
    SelectWithin(ms, refused, true);
  }

  /** A placed member resolved cleanly, from live providers alone. */
  lemma PlacedIsSound(ms: seq<Member>, refused: set<string>, order: seq<string>, m: Member)
    requires Distinct(Ids(ms)) && WellFormed(ResolvedGraph(ms, refused))
    requires IsKahnOrder(ResolvedGraph(ms, refused), order)
    requires m in ms && m.packageId in order
    ensures m in Live(ms, refused) && Sound(Live(ms, refused), m)
    ensures ResolvedGraph(ms, refused).needs[m.packageId] == Upstream(Providers(Claims(Live(ms, refused))), m)
  {
    var g := ResolvedGraph(ms, refused);
    var held := Providers(AllClaims(ms, refused));
    var live := Live(ms, refused);
    var start := refused + Displaced(Claims(live));
    ProvidersFirst(g, order);
    ResolveShape(ms, held, start);
    ResolveMember(ms, held, start, m);
    SelectWithin(ms, refused, false);
    var i :| 0 <= i < |order| && order[i] == m.packageId;
    forall k | 0 <= k < |m.consumes|
      ensures m.consumes[k].name in Providers(Claims(live))
      ensures Providers(Claims(live))[m.consumes[k].name] == held[m.consumes[k].name]
      ensures held[m.consumes[k].name].service.version == m.consumes[k].version
    {
      var u := g.needs[order[i]][k];
      assert u in order[..i];
      assert u in order && u in g.needs;
      ProviderIsLive(ms, refused, m.consumes[k].name);
    }
    assert g.needs[m.packageId] == Upstream(Providers(Claims(live)), m);
  }

  /** A sound member whose providers are all placed is placed. */
  lemma SoundIsPlaced(ms: seq<Member>, refused: set<string>, order: seq<string>, m: Member)
    requires Distinct(Ids(ms)) && WellFormed(ResolvedGraph(ms, refused))
    requires IsKahnOrder(ResolvedGraph(ms, refused), order)
    requires m in Live(ms, refused) && Sound(Live(ms, refused), m)
    requires forall u :: u in Upstream(Providers(Claims(Live(ms, refused))), m) ==> u in order
    ensures m.packageId in order
  {
    var g := ResolvedGraph(ms, refused);
    var held := Providers(AllClaims(ms, refused));
    var live := Live(ms, refused);
    SelectWithin(ms, refused, false);
    ProvidersAppend(Claims(live), Claims(Select(ms, refused, true)));
    ResolveMember(ms, held, refused + Displaced(Claims(live)), m);
    assert g.needs[m.packageId] == Upstream(Providers(Claims(live)), m);
    assert forall u :: u in g.needs[m.packageId] ==> u in Elems(order);
    assert m.packageId in Elems(order);
  }

  lemma SameLag(ms: seq<Member>, refused: set<string>, u: string, n: string)
    requires Distinct(Ids(ms)) && Distinct(Ids(Live(ms, refused)))
    requires u in Ids(Live(ms, refused)) && n in Ids(Live(ms, refused))
    requires WellFormed(ResolvedGraph(ms, refused))
    ensures u in Ids(ms) && n in Ids(ms)
    ensures Lag(ResolvedGraph(ms, refused), u, n) == Lag(LiveGraph(Live(ms, refused)), u, n)
  {
    SelectKeepsPlaces(ms, refused, false, u, n);
  }

  lemma MemberNamed(ms: seq<Member>, n: string) returns (m: Member)
    requires n in Ids(ms)
    ensures m in ms && m.packageId == n
  {
    var i :| 0 <= i < |ms| && Ids(ms)[i] == n;
    m := ms[i];
  }

  lemma InIds(ms: seq<Member>, m: Member)
    requires m in ms
    ensures m.packageId in Ids(ms)
  {
    var i :| 0 <= i < |ms| && ms[i] == m;
    assert Ids(ms)[i] == m.packageId;
  }

  lemma SameRoundOk(ms: seq<Member>, refused: set<string>, order: seq<string>, round: map<string, nat>, n: string)
    requires Distinct(Ids(ms)) && Distinct(Ids(Live(ms, refused))) && WellFormed(ResolvedGraph(ms, refused))
    requires IsKahnOrder(ResolvedGraph(ms, refused), order)
    requires Swept(ResolvedGraph(ms, refused), order, round) && n in order
    ensures n in LiveGraph(Live(ms, refused)).needs && n in round && RoundOk(LiveGraph(Live(ms, refused)), round, n)
  {
    var g, h := ResolvedGraph(ms, refused), LiveGraph(Live(ms, refused));
    var m := MemberNamed(ms, n);
    PlacedIsSound(ms, refused, order, m);
    SoundNeeds(Live(ms, refused), m);
    assert h.needs[n] == g.needs[n];
    assert n in Elems(order);
    assert RoundOk(g, round, n);
    forall u | u in g.needs[n] ensures u in h.nodes && Lag(g, u, n) == Lag(h, u, n) {
      SameLag(ms, refused, u, n);
    }
    if round[n] != 0 {
      var u :| u in g.needs[n] && u in round && round[u] + Lag(g, u, n) == round[n];
      assert u in h.needs[n] && round[u] + Lag(h, u, n) == round[n];
    }
  }

  lemma Transfer(ms: seq<Member>, refused: set<string>, order: seq<Member>)
    requires Distinct(Ids(ms)) && Distinct(Ids(Live(ms, refused))) && WellFormed(ResolvedGraph(ms, refused))
    requires IsKahnOrder(ResolvedGraph(ms, refused), Ids(order))
    requires forall m :: m in order ==> m in ms
    ensures IsMountOrder(Live(ms, refused), order)
  {
    var g, h := ResolvedGraph(ms, refused), LiveGraph(Live(ms, refused));
    var ids := Ids(order);
    forall m | m in order ensures m in Live(ms, refused) {
      InIds(order, m);
      PlacedIsSound(ms, refused, ids, m);
    }
    assert Closed(h, Elems(ids)) by {
      forall n | n in h.needs && (forall u :: u in h.needs[n] ==> u in Elems(ids)) ensures n in Elems(ids) {
        var m := NeedsSound(Live(ms, refused), n);
        SoundNeeds(Live(ms, refused), m);
        SoundIsPlaced(ms, refused, ids, m);
      }
    }
    var round :| Swept(g, ids, round);
    forall n | n in ids ensures n in h.needs && n in round && RoundOk(h, round, n) {
      SameRoundOk(ms, refused, ids, round, n);
    }
    forall a, b | a in ids && b in ids
      ensures Pos(h.nodes, a) < Pos(h.nodes, b) <==> Pos(g.nodes, a) < Pos(g.nodes, b)
    {
      assert a in h.nodes && b in h.nodes;
      SelectKeepsPlaces(ms, refused, false, a, b);
    }
    SweptTransfer(g, h, ids, round);
  }

  lemma SweptTransfer(g: Graph, h: Graph, ids: seq<string>, round: map<string, nat>)
    requires WellFormed(g) && WellFormed(h) && Swept(g, ids, round)
    requires forall n :: n in ids ==> n in h.needs && n in round && RoundOk(h, round, n)
    requires forall a, b :: a in ids && b in ids ==>
      (Pos(h.nodes, a) < Pos(h.nodes, b) <==> Pos(g.nodes, a) < Pos(g.nodes, b))
    ensures Swept(h, ids, round)
  {
    forall i, j | 0 <= i < j < |ids| ensures Before(h, round, ids[i], ids[j]) {
      assert Before(g, round, ids[i], ids[j]);
    }
  }

  // ---- the whole function -------------------------------------------------------------

  /** What a run of the function answers: the one mount order of the members not refused,
      and, named as failed, exactly the others of them. */
  ghost predicate Answers(ms: seq<Member>, refused: set<string>, order: seq<Member>, failures: seq<Failure>) {
    && Distinct(Ids(Live(ms, refused)))
    && IsMountOrder(Live(ms, refused), order)
    && Elems(Named(failures)) == Elems(Ids(Live(ms, refused))) - Elems(Ids(order))
  }

  method PluginMountOrder(members: seq<Member>, alreadyExcluded: set<string>)
    returns (order: seq<Member>, failures: seq<Failure>, ghost ordering: seq<Failure>)
    requires Distinct(Ids(members))
    ensures Answers(members, alreadyExcluded, order, failures)
    ensures WellFormed(ResolvedGraph(members, alreadyExcluded))
    ensures failures == Displacements(Claims(Live(members, alreadyExcluded)))
                        + ResolutionOf(members, alreadyExcluded).failures + ordering
    ensures StallsReported(ResolvedGraph(members, alreadyExcluded), Ids(order), ordering)
    ensures Distinct(Named(ordering))
    ensures Elems(Named(ordering)) == ResolvedGraph(members, alreadyExcluded).needs.Keys - Elems(Ids(order))
    ensures Explains(members, alreadyExcluded, ResolvedGraph(members, alreadyExcluded), Ids(order), failures)
  {
    var live, displaced := ClaimLive(members, alreadyExcluded);
    var providers := ClaimRefused(members, alreadyExcluded, live);
    var needs, excluded, unresolved := ResolveMembers(members, providers, alreadyExcluded + Elems(Named(displaced)));
    ghost var g := ResolvedGraph(members, alreadyExcluded);
    assert g == Graph(Ids(members), needs, excluded);
    ResolvedWellFormed(members, alreadyExcluded);
    SelectDistinct(members, alreadyExcluded, false);

    var dropped, lost;
    order, dropped, lost := KahnPass.Run(members, Graph(Ids(members), needs, excluded));
    Transfer(members, alreadyExcluded, order);
    var stalls := ReportStalled(members, Graph(Ids(members), needs, excluded), order, dropped, lost);
    ordering := lost + stalls;
    failures := displaced + unresolved + (lost + stalls);
    FailuresCover(members, alreadyExcluded, order, ordering);
    forall f | f in ordering ensures f.pluginId in ResolvedGraph(members, alreadyExcluded).needs {
      NamedHolds(ordering, f);
    }
    FailuresExplained(members, alreadyExcluded, Ids(order), ordering, failures);
  }

  /** Every member not excluded, judged in listed order. */
  method ResolveMembers(members: seq<Member>, providers: map<string, Claim>, start: set<string>)
    returns (needs: map<string, seq<string>>, excluded: set<string>, failures: seq<Failure>)
    ensures Resolved(excluded, needs, failures) == ResolveAll(members, providers, start)
  {
    needs, excluded, failures := map[], start, [];
    for i := 0 to |members|
      invariant Resolved(excluded, needs, failures) == ResolveAll(members[..i], providers, start)
    {
      var member := members[i];
      assert members[..i + 1][..|members[..i + 1]| - 1] == members[..i];
      if member.packageId in excluded { continue; }
      var failed, upstream := ResolveNeeds(providers, excluded, member);
      if failed.Some? {
        failures := failures + [Failure(member.packageId, Resolve, failed.value)];
        excluded := excluded + {member.packageId};
      } else {
        needs := needs[member.packageId := upstream];
      }
    }
    assert members[..|members|] == members;
  }

  /** Every Plugin not already refused is placed or named in a failure, never both; and
      no Plugin already refused is named again. */
  lemma {:induction false} FailuresCover(ms: seq<Member>, refused: set<string>, order: seq<Member>,
                                         ordering: seq<Failure>)
    requires Distinct(Ids(ms)) && Distinct(Ids(Live(ms, refused)))
    requires IsMountOrder(Live(ms, refused), order)
    requires WellFormed(ResolvedGraph(ms, refused)) && IsKahnOrder(ResolvedGraph(ms, refused), Ids(order))
    requires Elems(Named(ordering)) == ResolvedGraph(ms, refused).needs.Keys - Elems(Ids(order))
    ensures
      var fs := Displacements(Claims(Live(ms, refused))) + ResolutionOf(ms, refused).failures + ordering;
      Elems(Named(fs)) == Elems(Ids(Live(ms, refused))) - Elems(Ids(order))
  {
    var live := Live(ms, refused);
    var displaced, r := Displacements(Claims(live)), ResolutionOf(ms, refused);
    var g := ResolvedGraph(ms, refused);
    var start := refused + Displaced(Claims(live));
    ResolveShape(ms, Providers(AllClaims(ms, refused)), start);
    ProvidersFirst(g, Ids(order));
    NamedJoin(displaced, r.failures);
    NamedJoin(displaced + r.failures, ordering);
    DisplacedAreLive(live);
    SelectIds(ms, refused, false);
    forall n ensures n in Elems(Ids(live)) <==> n in Ids(ms) && n !in refused {
      assert n in Elems(Ids(live)) <==> n in Ids(live);
    }
    var placed := Elems(Ids(order));
    forall n | n in placed ensures n !in r.excluded && n in Elems(Ids(live)) {
      assert n in Ids(order) && n in g.needs;
    }
    assert Elems(Named(displaced)) + (r.excluded - start) + (r.needs.Keys - placed) == Elems(Ids(live)) - placed;
  }

  lemma NamedJoin(a: seq<Failure>, b: seq<Failure>)
    ensures Elems(Named(a + b)) == Elems(Named(a)) + Elems(Named(b))
  {
    assert Named(a + b) == Named(a) + Named(b);
  }

  lemma DisplacedAreLive(live: seq<Member>)
    ensures Displaced(Claims(live)) <= Elems(Ids(live))
  {
    ClaimsWithin(live);
    DisplacedClaim(Claims(live));
    forall n | n in Displaced(Claims(live)) ensures n in Elems(Ids(live)) {
      var c :| c in Claims(live) && c.member.packageId == n;
      InIds(live, c.member);
    }
  }

  lemma {:induction false} DisplacedClaim(cs: seq<Claim>)
    ensures forall n :: n in Displaced(cs) ==> exists c :: c in cs && c.member.packageId == n
    decreases |cs|
  {
    if cs != [] {
      DisplacedClaim(cs[..|cs| - 1]);
      DisplacedStep(cs);
      assert cs[|cs| - 1] in cs;
      assert forall c :: c in cs[..|cs| - 1] ==> c in cs;
    }
  }

  /** One member's claims, on top of those made before it. */
  method ClaimMember(ghost done: seq<Claim>, held: map<string, Claim>, member: Member)
    returns (providers: map<string, Claim>, displaced: seq<Failure>)
    requires held == Providers(done)
    ensures providers == Providers(done + ClaimsOf(member))
    ensures Displacements(done + ClaimsOf(member)) == Displacements(done) + displaced
  {
    providers, displaced := held, [];
    assert done + [] == done && Displacements(done) + [] == Displacements(done);
    for j := 0 to |member.offers|
      invariant providers == Providers(done + ClaimsOf(member)[..j])
      invariant Displacements(done + ClaimsOf(member)[..j]) == Displacements(done) + displaced
    {
      var service := member.offers[j];
      ghost var cs := done + ClaimsOf(member)[..j + 1];
      assert cs[..|cs| - 1] == done + ClaimsOf(member)[..j] && cs[|cs| - 1] == Claim(member, service);
      if service.name in providers {
        displaced := displaced + [Failure(member.packageId, Resolve,
                                          AlreadyProvided(service.name, providers[service.name].member.packageId))];
        continue;
      }
      providers := providers[service.name := Claim(member, service)];
    }
    assert ClaimsOf(member)[..|member.offers|] == ClaimsOf(member);
  }

  /** The first pass that fills `providers`: the members not yet failed. */
  method ClaimLive(members: seq<Member>, alreadyExcluded: set<string>)
    returns (providers: map<string, Claim>, displaced: seq<Failure>)
    ensures providers == Providers(Claims(Live(members, alreadyExcluded)))
    ensures displaced == Displacements(Claims(Live(members, alreadyExcluded)))
  {
    providers, displaced := map[], [];
    for i := 0 to |members|
      invariant providers == Providers(Claims(Live(members[..i], alreadyExcluded)))
      invariant displaced == Displacements(Claims(Live(members[..i], alreadyExcluded)))
    {
      ghost var done := Claims(Live(members[..i], alreadyExcluded));
      ClaimsPrefix(members, i, alreadyExcluded, false);
      assert done + [] == done;
      if members[i].packageId in alreadyExcluded { continue; }
      var more;
      providers, more := ClaimMember(done, providers, members[i]);
      displaced := displaced + more;
    }
    assert members[..|members|] == members;
  }

  lemma RefusedPrefix(first: seq<Claim>, ms: seq<Member>, i: nat, ids: set<string>)
    requires i < |ms|
    ensures first + Claims(Select(ms[..i + 1], ids, true)) ==
            if ms[i].packageId in ids then (first + Claims(Select(ms[..i], ids, true))) + ClaimsOf(ms[i])
            else first + Claims(Select(ms[..i], ids, true))
  {
    ClaimsPrefix(ms, i, ids, true);
    var rest := Claims(Select(ms[..i], ids, true));
    if ms[i].packageId in ids {
      assert (first + rest) + ClaimsOf(ms[i]) == first + (rest + ClaimsOf(ms[i]));
    } else {
      assert rest + [] == rest;
    }
  }

  /** The second pass: a member already failed takes only the services left over, and
      earns no failure. */
  method ClaimRefused(members: seq<Member>, alreadyExcluded: set<string>, live: map<string, Claim>)
    returns (providers: map<string, Claim>)
    requires live == Providers(Claims(Live(members, alreadyExcluded)))
    ensures providers == Providers(AllClaims(members, alreadyExcluded))
  {
    ghost var first := Claims(Live(members, alreadyExcluded));
    providers := live;
    assert first + [] == first;
    for i := 0 to |members|
      invariant providers == Providers(first + Claims(Select(members[..i], alreadyExcluded, true)))
    {
      RefusedPrefix(first, members, i, alreadyExcluded);
      if members[i].packageId !in alreadyExcluded { continue; }
      var ignored;
      providers, ignored :=
        ClaimMember(first + Claims(Select(members[..i], alreadyExcluded, true)), providers, members[i]);
    }
    assert members[..|members|] == members;
  }

  /** One member's consumed services, in the order it names them. */
  method ResolveNeeds(providers: map<string, Claim>, excluded: set<string>, member: Member)
    returns (failed: Option<Reason>, upstream: seq<string>)
    ensures failed == Verdict(providers, excluded, member, 0)
    ensures failed == None ==>
      && (forall k :: 0 <= k < |member.consumes| ==> member.consumes[k].name in providers)
      && upstream == Upstream(providers, member)
  {
    upstream := [];
    for j := 0 to |member.consumes|
      invariant Verdict(providers, excluded, member, 0) == Verdict(providers, excluded, member, j)
      invariant |upstream| == j
      invariant forall k :: 0 <= k < j ==>
        member.consumes[k].name in providers && upstream[k] == providers[member.consumes[k].name].member.packageId
    {
      var service := member.consumes[j];
      if service.name !in providers {
        return Some(NothingProvides(service.name)), [];
      }
      var provider := providers[service.name];
      if provider.member.packageId in excluded {
        upstream := upstream + [provider.member.packageId];
        continue;
      }
      if provider.service.version != service.version {
        return Some(WrongVersion(service.name, provider.member.packageId)), [];
      }
      upstream := upstream + [provider.member.packageId];
    }
    failed := None;
  }

  lemma StalledShape(g: Graph, order: seq<string>, dropped: set<string>)
    requires WellFormed(g) && PassDone(g, order, dropped)
    ensures Stalled(g, Elems(order), Elems(g.nodes) - Elems(order) - dropped)
  {
    ProvidersFirst(g, order);
    var placed, stalled := Elems(order), Elems(g.nodes) - Elems(order) - dropped;
    forall n, u | n in placed && n in g.needs && u in g.needs[n] ensures u in placed {
      var i :| 0 <= i < |order| && order[i] == n;
      assert u in order[..i];
    }
    forall n, u | n in stalled && n in g.needs && u in g.needs[n] ensures u in stalled || u in placed {
      assert u in g.nodes && u !in dropped;
    }
  }

  function StallOf(cyclic: set<string>, n: string): Failure {
    Failure(n, Resolve, if n in cyclic then ServiceCycle else UpstreamNotMounted)
  }

  /** One failure for each stalled node of `nodes`, by whether it is cyclic. */
  ghost predicate Stalls(cyclic: set<string>, stalled: set<string>, nodes: seq<string>, stalls: seq<Failure>) {
    && Distinct(Named(stalls))
    && Elems(Named(stalls)) == stalled * Elems(nodes)
    && (forall f :: f in stalls ==> f == StallOf(cyclic, f.pluginId))
  }

  lemma PushNamed(fs: seq<Failure>, f: Failure)
    requires Distinct(Named(fs)) && f.pluginId !in Elems(Named(fs))
    ensures Distinct(Named(fs + [f])) && Elems(Named(fs + [f])) == Elems(Named(fs)) + {f.pluginId}
  {
    assert Named(fs + [f]) == Named(fs) + [f.pluginId];
    PushElem(Named(fs), f.pluginId);
  }

  lemma PushElem(s: seq<string>, x: string)
    requires Distinct(s) && x !in Elems(s)
    ensures Distinct(s + [x]) && Elems(s + [x]) == Elems(s) + {x}
  {
    forall i | 0 <= i < |s| ensures s[i] != x { assert s[i] in Elems(s); }
  }

  lemma JoinNamed(a: seq<Failure>, b: seq<Failure>)
    requires Distinct(Named(a)) && Distinct(Named(b)) && Elems(Named(a)) !! Elems(Named(b))
    ensures Distinct(Named(a + b)) && Elems(Named(a + b)) == Elems(Named(a)) + Elems(Named(b))
  {
    assert Named(a + b) == Named(a) + Named(b);
    JoinElems(Named(a), Named(b));
  }

  lemma JoinElems(a: seq<string>, b: seq<string>)
    requires Distinct(a) && Distinct(b) && Elems(a) !! Elems(b)
    ensures Distinct(a + b) && Elems(a + b) == Elems(a) + Elems(b)
  {
    forall i, j | 0 <= i < |a| && 0 <= j < |b| ensures a[i] != b[j] {
      assert a[i] in Elems(a) && b[j] in Elems(b);
    }
  }

  lemma OneMoreStall(cyclic: set<string>, stalled: set<string>, nodes: seq<string>, stalls: seq<Failure>, id: string)
    requires Stalls(cyclic, stalled, nodes, stalls) && id !in nodes
    ensures Stalls(cyclic, stalled, nodes + [id], if id in stalled then stalls + [StallOf(cyclic, id)] else stalls)
  {
    assert Elems(nodes + [id]) == Elems(nodes) + {id};
    assert id !in Elems(nodes);
    if id in stalled {
      PushNamed(stalls, StallOf(cyclic, id));
    }
  }

  /** `cyclic` is the nodes that reach themselves. */
  ghost predicate CyclicNodes(g: Graph, cyclic: set<string>) {
    forall n :: n in cyclic <==> n in g.nodes && Reaches(g, n, n)
  }

  /** What the ordering pass leaves: an order, and everything that reaches a barred node dropped. */
  ghost predicate PassDone(g: Graph, order: seq<string>, dropped: set<string>)
    requires WellFormed(g)
  {
    && IsKahnOrder(g, order)
    && (forall n :: n in order ==> n !in dropped)
    && (forall n :: n in dropped <==> n in g.barred || ReachesBarred(g, n))
    && (forall n :: n in g.needs && n !in dropped ==> forall u :: u in g.needs[n] ==> u !in dropped)
  }

  /** Names what the ordering pass could place nowhere, and why. */
  method ReportStalled(members: seq<Member>, g: Graph, order: seq<Member>, dropped: set<string>,
                       ghost lost: seq<Failure>)
    returns (stalls: seq<Failure>)
    requires WellFormed(g) && g.nodes == Ids(members)
    requires PassDone(g, Ids(order), dropped) && KahnPass.Recorded(g, dropped, lost)
    ensures StallsReported(g, Ids(order), lost + stalls) && OfOrdering(lost + stalls)
    ensures Distinct(Named(lost + stalls))
    ensures Elems(Named(lost + stalls)) == g.needs.Keys - Elems(Ids(order))
  {
    var placed := Elems(Ids(order));
    var stalled := Elems(g.nodes) - placed - dropped;
    StalledShape(g, Ids(order), dropped);
    ghost var cyclic := set n | n in g.nodes && Reaches(g, n, n);
    assert CyclicNodes(g, cyclic);
    stalls := NameStalled(g, placed, stalled, cyclic);
    ProvidersFirst(g, Ids(order));
    StallsComplete(g, Ids(order), dropped, lost, stalls, cyclic);
  }

  method NameStalled(g: Graph, ghost placed: set<string>, stalled: set<string>, ghost cyclic: set<string>)
    returns (stalls: seq<Failure>)
    requires WellFormed(g) && Stalled(g, placed, stalled) && CyclicNodes(g, cyclic)
    ensures Stalls(cyclic, stalled, g.nodes, stalls)
  {
    stalls := [];
    for i := 0 to |g.nodes|
      invariant Stalls(cyclic, stalled, g.nodes[..i], stalls)
    {
      var id := g.nodes[i];
      assert g.nodes[..i + 1] == g.nodes[..i] + [id];
      OneMoreStall(cyclic, stalled, g.nodes[..i], stalls, id);
      if id !in stalled { continue; }
      var found := InCycle(g, placed, stalled, id);
      stalls := stalls + [Failure(id, Resolve, if found then ServiceCycle else UpstreamNotMounted)];
    }
    assert g.nodes[..|g.nodes|] == g.nodes;
  }

  lemma DroppedNodes(g: Graph, dropped: set<string>, lost: seq<Failure>)
    requires WellFormed(g) && KahnPass.Recorded(g, dropped, lost)
    ensures dropped - g.barred <= g.needs.Keys
  {
    forall n | n in dropped && n !in g.barred ensures n in g.needs {
      assert KahnPass.Justified(g, dropped, n);
    }
  }

  lemma StallsComplete(g: Graph, order: seq<string>, dropped: set<string>, lost: seq<Failure>, stalls: seq<Failure>,
                       cyclic: set<string>)
    requires WellFormed(g) && KahnPass.Recorded(g, dropped, lost)
    requires forall n :: n in order ==> n !in dropped && n in g.needs
    requires forall n :: n in dropped <==> n in g.barred || ReachesBarred(g, n)
    requires CyclicNodes(g, cyclic)
    requires Stalls(cyclic, Elems(g.nodes) - Elems(order) - dropped, g.nodes, stalls)
    ensures StallsReported(g, order, lost + stalls)
    ensures Distinct(Named(lost + stalls))
    ensures Elems(Named(lost + stalls)) == g.needs.Keys - Elems(order)
  {
    DroppedNodes(g, dropped, lost);
    var a, b := Elems(Named(lost)), Elems(Named(stalls));
    assert a == dropped - g.barred;
    assert g.needs.Keys == Elems(g.nodes) - g.barred;
    JoinNamed(lost, stalls);
    assert a + b == g.needs.Keys - Elems(order);
    forall n | n in g.needs
      ensures Failure(n, Resolve, ServiceCycle) in lost + stalls <==>
              n !in order && !ReachesBarred(g, n) && Reaches(g, n, n)
      ensures Failure(n, Resolve, UpstreamNotMounted) in lost + stalls <==>
              n !in order && (ReachesBarred(g, n) || !Reaches(g, n, n))
    {
      NamedIn(lost, n);
      NamedIn(stalls, n);
      assert n in Elems(Named(lost)) <==> n in dropped;
      assert n in Elems(Named(stalls)) <==> n !in order && n !in dropped;
    }
  }

  lemma NamedIn(fs: seq<Failure>, n: string)
    ensures n in Elems(Named(fs)) <==> exists f :: f in fs && f.pluginId == n
  {
    if n in Named(fs) {
      var i :| 0 <= i < |fs| && Named(fs)[i] == n;
      assert fs[i] in fs;
    }
    if f :| f in fs && f.pluginId == n {
      var i :| 0 <= i < |fs| && fs[i] == f;
      assert Named(fs)[i] == n;
    }
  }
}
