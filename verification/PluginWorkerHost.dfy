/** `PluginWorkerHost.mount`: which of a generation's Plugins come up, and which are named
    as failed, whatever the artifact store and the worker's health report answer. */
module PluginWorkerHost {
  import opened Sequences
  import opened Wrappers

  import opened MountGraph
  import opened Plugins
  import opened Resolution
  import opened MountOrder
  import opened MountOrderLaws
  import opened MountReasons

  /** The deployment's own claim: `provider` is served only by this Plugin at this artifact. */
  datatype ModelClaim = ModelClaim(provider: string, pluginId: string, contentHash: string)

  /** One Plugin's line of the health report. `matches` stands for the field by field
      comparison with the Plugin's own descriptor. */
  datatype Report = Report(pluginId: string, matches: bool)

  datatype Health = WorkerFailed | WrongContract | Reported(plugins: seq<Report>)

  datatype Outcome =
    | Prepared(mounted: seq<string>, failures: seq<Failure>)
    | Thrown(phase: Phase)

  predicate LastClaimAt(claims: seq<ModelClaim>, p: string, c: ModelClaim, i: int) {
    && 0 <= i < |claims| && claims[i] == c && c.provider == p
    && forall j :: i < j < |claims| ==> claims[j].provider != p
  }

  /** `c` is the last of the deployment's claims on `p`. */
  ghost predicate LastClaim(claims: seq<ModelClaim>, p: string, c: ModelClaim) {
    exists i :: LastClaimAt(claims, p, c, i)
  }

  /** The last claim on a provider is the one kept. */
  function OpenMap(claims: seq<ModelClaim>): map<string, ModelClaim> {
    if claims == [] then map[]
    else OpenMap(claims[..|claims| - 1])[claims[|claims| - 1].provider := claims[|claims| - 1]]
  }

  lemma {:induction false} OpenMapIs(claims: seq<ModelClaim>, p: string)
    ensures p in OpenMap(claims) ==> LastClaim(claims, p, OpenMap(claims)[p])
    decreases |claims|
  {
    if p in OpenMap(claims) {
      var front, last := claims[..|claims| - 1], claims[|claims| - 1];
      if p == last.provider {
        assert LastClaimAt(claims, p, last, |claims| - 1);
      } else {
        OpenMapIs(front, p);
        var i :| LastClaimAt(front, p, OpenMap(front)[p], i);
        assert LastClaimAt(claims, p, OpenMap(front)[p], i);
      }
    }
  }

  lemma {:induction false} OpenedAre(claims: seq<ModelClaim>, i: nat)
    requires i < |claims|
    ensures claims[i].provider in OpenMap(claims)
    decreases |claims|
  {
    if i < |claims| - 1 {
      OpenedAre(claims[..|claims| - 1], i);
    }
  }

  // ---- what a mounted Plugin is ---------------------------------------------------

  /** Nothing about another member bears on whether `m` is refused. */
  predicate Admitted(open: map<string, ModelClaim>, m: Member) {
    && m.sound
    && forall p :: p in m.modelProviders ==>
         p in open && open[p].pluginId == m.packageId && open[p].contentHash == m.contentHash
  }

  /** The first line of the report about `id`. */
  predicate FirstLine(reports: seq<Report>, id: string, r: Report) {
    exists i :: 0 <= i < |reports| && reports[i] == r && r.pluginId == id &&
                forall j :: 0 <= j < i ==> reports[j].pluginId != id
  }

  function FirstReport(reports: seq<Report>, id: string): (r: Option<Report>)
    ensures r.Some? ==> FirstLine(reports, id, r.value)
    ensures r == None ==> forall i :: 0 <= i < |reports| ==> reports[i].pluginId != id
  {
    if reports == [] then None
    else if reports[0].pluginId == id then Some(reports[0])
    else FirstReport(reports[1..], id)
  }

  /** The report vouches for a member by the first line about it. */
  predicate Vouched(reports: seq<Report>, id: string) {
    var r := FirstReport(reports, id);
    r.Some? && r.value.matches
  }

  predicate Verified(available: set<string>, reports: seq<Report>, id: string) {
    id in available && Vouched(reports, id)
  }

  /** `n` and every Plugin it reaches through the services it consumes were verified. */
  ghost predicate WhollyVerified(g: Graph, available: set<string>, reports: seq<Report>, n: string) {
    && Verified(available, reports, n)
    && forall u :: Reaches(g, n, u) ==> Verified(available, reports, u)
  }

  /** The members that may mount: those wholly verified. */
  ghost function Survivors(g: Graph, available: set<string>, reports: seq<Report>, order: seq<string>): set<string> {
    set n | n in order && WhollyVerified(g, available, reports, n)
  }

  /** The elements of `s` that are in `keep`, in the order of `s`. */
  ghost function Filtered(s: seq<string>, keep: set<string>): seq<string> {
    if s == [] then []
    else Filtered(s[..|s| - 1], keep) + if s[|s| - 1] in keep then [s[|s| - 1]] else []
  }

  lemma FilteredSnoc(s: seq<string>, x: string, keep: set<string>)
    ensures Filtered(s + [x], keep) == Filtered(s, keep) + if x in keep then [x] else []
  {
    assert (s + [x])[..|s + [x]| - 1] == s;
  }

  lemma {:induction false} FilteredIn(s: seq<string>, keep: set<string>)
    ensures Elems(Filtered(s, keep)) == Elems(s) * keep
    decreases |s|
  {
    if s != [] {
      FilteredIn(s[..|s| - 1], keep);
      var last := s[|s| - 1];
      assert s == s[..|s| - 1] + [last];
      assert Elems(s) == Elems(s[..|s| - 1]) + {last};
      var f := Filtered(s[..|s| - 1], keep);
      assert Elems(f + [last]) == Elems(f) + {last} && f + [] == f;
    }
  }

  lemma {:induction false} FilteredTwice(s: seq<string>, a: set<string>, b: set<string>)
    ensures Filtered(Filtered(s, a), b) == Filtered(s, a * b)
    decreases |s|
  {
    if s != [] {
      var front, last := s[..|s| - 1], s[|s| - 1];
      FilteredTwice(front, a, b);
      if last in a {
        FilteredSnoc(Filtered(front, a), last, b);
      } else {
        assert Filtered(front, a) + [] == Filtered(front, a);
      }
    }
  }

  /** What comes earlier in `s` and is kept comes earlier among the kept. */
  lemma {:induction false} FilteredBefore(s: seq<string>, keep: set<string>, q: nat, j: nat, i: nat)
    requires Distinct(s) && q < j < |s| && s[q] in keep
    requires i < |Filtered(s, keep)| && Filtered(s, keep)[i] == s[j]
    ensures s[q] in Filtered(s, keep)[..i]
    decreases |s|
  {
    var front, last := s[..|s| - 1], s[|s| - 1];
    var f, h := Filtered(s, keep), Filtered(front, keep);
    FilteredIn(front, keep);
    assert forall k :: 0 <= k < |h| ==> h[k] in Elems(h);
    if j < |front| {
      assert i < |h|;
      assert f[..i] == h[..i];
      FilteredBefore(front, keep, q, j, i);
    } else {
      forall k | 0 <= k < |h| ensures h[k] != last {
        assert h[k] in Elems(front);
      }
      assert i == |h|;
      assert front[q] in Elems(front);
      assert s[q] in Elems(h);
      assert f[..i] == h;
    }
  }

  /** Wholly verified means verified, with every direct provider wholly verified. */
  lemma WhollyVerifiedStep(g: Graph, available: set<string>, reports: seq<Report>, n: string)
    requires n in g.needs
    ensures WhollyVerified(g, available, reports, n) <==>
      Verified(available, reports, n) &&
      forall u :: u in g.needs[n] ==> WhollyVerified(g, available, reports, u)
  {
    if WhollyVerified(g, available, reports, n) {
      forall u | u in g.needs[n] ensures WhollyVerified(g, available, reports, u) {
        Edge(g, n, u);
        forall v | Reaches(g, u, v) ensures Verified(available, reports, v) {
          Prepend(g, n, u, v);
        }
      }
    }
    if Verified(available, reports, n) && forall u :: u in g.needs[n] ==> WhollyVerified(g, available, reports, u) {
      forall v | Reaches(g, n, v) ensures Verified(available, reports, v) {
        FirstStep(g, n, v);
      }
    }
  }

  lemma FirstStep(g: Graph, n: string, v: string)
    requires Reaches(g, n, v)
    ensures n in g.needs && (v in g.needs[n] || exists u :: u in g.needs[n] && Reaches(g, u, v))
  {
    var p :| |p| >= 2 && Path(g, p) && p[0] == n && p[|p| - 1] == v;
    assert p[0] in g.needs && p[0 + 1] in g.needs[p[0]];
    if |p| > 2 {
      var q := p[1..];
      assert Path(g, q) by {
        forall i | 0 <= i < |q| - 1 ensures q[i] in g.needs && q[i + 1] in g.needs[q[i]] {
          assert p[i + 1] in g.needs && p[(i + 1) + 1] in g.needs[p[i + 1]];
        }
      }
      assert |q| >= 2 && q[0] == p[1] && q[|q| - 1] == v;
      assert Reaches(g, p[1], v);
    }
  }

  // ---- what a failure's reason means ----------------------------------------------

  /** The deployment's claim on the `k`th provider `m` serves, if it has one, is on `m` itself
      at its own artifact. */
  predicate TrustedAt(open: map<string, ModelClaim>, m: Member, k: nat)
    requires k < |m.modelProviders|
  {
    var p := m.modelProviders[k];
    p in open ==> open[p].pluginId == m.packageId && open[p].contentHash == m.contentHash
  }

  predicate Trusted(open: map<string, ModelClaim>, m: Member, n: nat)
    requires n <= |m.modelProviders|
  {
    forall k :: 0 <= k < n ==> TrustedAt(open, m, k)
  }

  /** The `n`th provider is the first that is claimed for another Plugin or another artifact. */
  predicate UntrustedAt(open: map<string, ModelClaim>, m: Member, n: nat, p: string, servedBy: string) {
    && n < |m.modelProviders| && m.modelProviders[n] == p && p in open && open[p].pluginId == servedBy
    && (servedBy != m.packageId || open[p].contentHash != m.contentHash)
    && Trusted(open, m, n)
  }

  ghost predicate RefusalMeans(open: map<string, ModelClaim>, m: Member, why: Reason) {
    match why
    case UntrustedProvider(p, servedBy) => exists n :: UntrustedAt(open, m, n, p, servedBy)
    case DescriptorRefused => !m.sound && Trusted(open, m, |m.modelProviders|)
    case ProviderNotOpened =>
      m.sound && Trusted(open, m, |m.modelProviders|) && exists p :: p in m.modelProviders && p !in open
    case _ => false
  }

  ghost predicate RefusedFor(open: map<string, ModelClaim>, members: seq<Member>, f: Failure) {
    f.phase == Resolve && exists m :: m in members && m.packageId == f.pluginId && RefusalMeans(open, m, f.reason)
  }

  ghost predicate HealthMeans(reports: seq<Report>, f: Failure) {
    && f.phase == Phase.Health
    && match f.reason
       case Unreported => forall i :: 0 <= i < |reports| ==> reports[i].pluginId != f.pluginId
       case HealthMismatch => FirstLine(reports, f.pluginId, Report(f.pluginId, false))
       case _ => false
  }

  /** The `k`th service the member consumes is the first whose provider was not kept. */
  ghost predicate LostAt(g: Graph, m: Member, keep: set<string>, k: nat, why: Reason) {
    && m.packageId in g.needs && k < |m.consumes| && |g.needs[m.packageId]| == |m.consumes|
    && why == ProviderLost(m.consumes[k].name, g.needs[m.packageId][k])
    && g.needs[m.packageId][k] !in keep
    && forall l :: 0 <= l < k ==> g.needs[m.packageId][l] in keep
  }

  ghost predicate LostMeans(g: Graph, order: seq<Member>, keep: set<string>, f: Failure) {
    f.phase == Phase.Health && exists j, k :: 0 <= j < |order| && order[j].packageId == f.pluginId &&
                                              LostAt(g, order[j], keep, k, f.reason)
  }

  /** Why a placed member failed: its artifact could not be read, the report says nothing of it
      or does not match it, or a provider of its own was lost. */
  ghost predicate LaterMeans(g: Graph, order: seq<Member>, available: set<string>, reports: seq<Report>,
                             keep: set<string>, f: Failure)
  {
    || (f.phase == Resolve && f.reason == ArtifactUnavailable && f.pluginId !in available)
    || (f.pluginId in available && HealthMeans(reports, f))
    || (Verified(available, reports, f.pluginId) && LostMeans(g, order, keep, f))
  }

  ghost predicate AllExplained(g: Graph, order: seq<Member>, available: set<string>, reports: seq<Report>,
                               keep: set<string>, fs: seq<Failure>)
  {
    forall f :: f in fs ==> LaterMeans(g, order, available, reports, keep, f)
  }

  function Lines(health: Health): seq<Report> {
    if health.Reported? then health.plugins else []
  }

  /** The failures of a mount as they came: refused, not placed, and lost later. */
  datatype Whys = Whys(refusals: seq<Failure>, unplaced: seq<Failure>, later: seq<Failure>)

  // ---- the host -------------------------------------------------------------------

  class PluginWorkerHost {
    const openModelProviders: seq<ModelClaim>

    constructor (openModelProviders: seq<ModelClaim>)
      ensures this.openModelProviders == openModelProviders
    {
      this.openModelProviders := openModelProviders;
    }

    /** Why one member is refused before anything is ordered, and what it then reserves. */
    method Refusal(open: map<string, ModelClaim>, claimed: set<string>, member: Member) returns (why: Option<Reason>)
      requires forall p :: p in claimed ==> p in open && open[p].pluginId != member.packageId
      ensures why == None <==> Admitted(open, member)
      ensures why.Some? ==> RefusalMeans(open, member, why.value)
    {
      for i := 0 to |member.modelProviders|
        invariant Trusted(open, member, i)
      {
        var provider := member.modelProviders[i];
        if provider in open &&
           (member.packageId != open[provider].pluginId || member.contentHash != open[provider].contentHash) {
          assert UntrustedAt(open, member, i, provider, open[provider].pluginId);
          return Some(UntrustedProvider(provider, open[provider].pluginId));
        }
      }
      for i := 0 to |member.modelProviders|
        invariant forall k :: 0 <= k < i ==> member.modelProviders[k] !in claimed
      {
        var provider := member.modelProviders[i];
        assert TrustedAt(open, member, i);
        if provider in claimed { return Some(ProviderTaken(provider)); }
      }
      if !member.sound { return Some(DescriptorRefused); }
      if exists p :: p in member.modelProviders && p !in open { return Some(ProviderNotOpened); }
      forall p | p in member.modelProviders
        ensures open[p].pluginId == member.packageId && open[p].contentHash == member.contentHash
      {
        var k :| 0 <= k < |member.modelProviders| && member.modelProviders[k] == p;
        assert TrustedAt(open, member, k);
      }
      why := None;
    }

    method Refuse(members: seq<Member>) returns (refused: set<string>, failures: seq<Failure>)
      requires Distinct(Ids(members))
      ensures refused == set m | m in members && !Admitted(OpenMap(openModelProviders), m) :: m.packageId
      ensures Elems(Named(failures)) == refused && Distinct(Named(failures))
      ensures forall f :: f in failures ==> RefusedFor(OpenMap(openModelProviders), members, f)
    {
      var open := OpenMap(openModelProviders);
      var claimed: set<string> := {};
      refused, failures := {}, [];
      for i := 0 to |members|
        invariant refused == set k | 0 <= k < i && !Admitted(open, members[k]) :: members[k].packageId
        invariant Elems(Named(failures)) == refused && Distinct(Named(failures))
        invariant forall f :: f in failures ==> RefusedFor(open, members, f)
        invariant forall p :: p in claimed ==>
          exists k :: 0 <= k < i && p in open && open[p].pluginId == members[k].packageId
      {
        var member := members[i];
        forall p | p in claimed ensures p in open && open[p].pluginId != member.packageId {
          var k :| 0 <= k < i && p in open && open[p].pluginId == members[k].packageId;
          assert Ids(members)[k] != Ids(members)[i];
        }
        var why := Refusal(open, claimed, member);
        if why == None {
          claimed := claimed + Elems(member.modelProviders);
          continue;
        }
        assert forall k :: 0 <= k < i ==> Ids(members)[k] != Ids(members)[i];
        NamedOnce(failures, Failure(member.packageId, Resolve, why.value));
        PushName(failures, Failure(member.packageId, Resolve, why.value));
        failures := failures + [Failure(member.packageId, Resolve, why.value)];
        refused := refused + {member.packageId};
      }
    }

    /** The members whose artifact could be read, in mount order. */
    method LoadArtifacts(order: seq<Member>, available: set<string>)
      returns (resolved: seq<Member>, failures: seq<Failure>)
      ensures Ids(resolved) == Filtered(Ids(order), available)
      ensures forall m :: m in resolved ==> m in order
      ensures Elems(Named(failures)) == Elems(Ids(order)) - available
      ensures forall f :: f in failures ==> f.phase == Resolve && f.reason == ArtifactUnavailable
    {
      ghost var ids := Ids(order);
      ghost var seen: set<string> := {};
      resolved, failures := [], [];
      for i := 0 to |order|
        invariant seen == Elems(ids[..i])
        invariant Ids(resolved) == Filtered(ids[..i], available)
        invariant forall m :: m in resolved ==> m in order
        invariant Elems(Named(failures)) == seen - available
        invariant forall f :: f in failures ==> f.phase == Resolve && f.reason == ArtifactUnavailable
      {
        var member := order[i];
        OneMore(ids, i);
        FilteredSnoc(ids[..i], ids[i], available);
        seen := seen + {ids[i]};
        if member.packageId !in available {
          var f := Failure(member.packageId, Resolve, ArtifactUnavailable);
          PushName(failures, f);
          failures := failures + [f];
          continue;
        }
        PushId(resolved, member);
        resolved := resolved + [member];
      }
      assert ids[..|order|] == ids;
    }

    /** The members the worker's report vouches for, in mount order. */
    method CheckHealth(resolved: seq<Member>, reports: seq<Report>)
      returns (verified: seq<Member>, failures: seq<Failure>)
      ensures Ids(verified) == Filtered(Ids(resolved), Vouches(reports, Ids(resolved)))
      ensures forall m :: m in verified ==> m in resolved
      ensures Elems(Named(failures)) == Elems(Ids(resolved)) - Vouches(reports, Ids(resolved))
      ensures forall f :: f in failures ==> HealthMeans(reports, f)
    {
      ghost var good := Vouches(reports, Ids(resolved));
      verified, failures := [], [];
      for i := 0 to |resolved|
        invariant Ids(verified) == Filtered(Ids(resolved)[..i], good)
        invariant forall m :: m in verified ==> m in resolved
        invariant Elems(Named(failures)) == Elems(Ids(resolved)[..i]) - good
        invariant forall f :: f in failures ==> HealthMeans(reports, f)
      {
        var id := resolved[i].packageId;
        OneMore(Ids(resolved), i);
        FilteredSnoc(Ids(resolved)[..i], id, good);
        var reported := FirstReport(reports, id);
        if reported == None || !reported.value.matches {
          var f := Failure(id, Phase.Health, if reported == None then Unreported else HealthMismatch);
          PushName(failures, f);
          failures := failures + [f];
          continue;
        }
        PushId(verified, resolved[i]);
        verified := verified + [resolved[i]];
      }
      assert Ids(resolved)[..|resolved|] == Ids(resolved);
    }

    /** Mounts a generation. `available` names the members whose artifact the store hands
        back and `health` is whatever the worker answers; both are arbitrary. */
    method Mount(members: seq<Member>, available: set<string>, health: Health)
      returns (outcome: Outcome, ghost order: seq<Member>, ghost whys: Whys)
      requires Distinct(Ids(members))
      ensures ComesUp(OpenMap(openModelProviders), members, available, health, order, outcome)
      ensures TellsWhy(OpenMap(openModelProviders), members, available, health, order, whys, outcome)
    {
      var refused, refusals := Refuse(members);
      var placed, unplaced := PlaceLive(members, refused);
      ReadyToLoad(members, refused, refusals, placed, unplaced);
      ghost var later;
      outcome, later := MountPlaced(Live(members, refused), placed, available, health, refusals + unplaced);
      order, whys := placed, Whys(refusals, unplaced, later);
    }

    /** The mount order, as far as mounting goes by it. */
    method PlaceLive(members: seq<Member>, refused: set<string>) returns (placed: seq<Member>, unplaced: seq<Failure>)
      requires Distinct(Ids(members))
      ensures Answers(members, refused, placed, unplaced)
      ensures Explains(members, refused, ResolvedGraph(members, refused), Ids(placed), unplaced)
    {
      ghost var ordering;
      placed, unplaced, ordering := PluginMountOrder(members, refused);
    }

    /** Loads, checks and keeps what it can of the placed members. */
    method MountPlaced(ghost all: seq<Member>, placed: seq<Member>, available: set<string>, health: Health,
                       earlier: seq<Failure>)
      returns (outcome: Outcome, ghost later: seq<Failure>)
      requires Distinct(Ids(all)) && IsMountOrder(all, placed) && Distinct(Ids(placed))
      requires Elems(Named(earlier)) !! Elems(Ids(placed))
      ensures outcome.Prepared? ==> outcome.failures == earlier + later
      ensures AllExplained(LiveGraph(all), placed, available, Lines(health),
                           MountSet(all, available, health, placed), later)
      ensures outcome.Thrown? ==> outcome.phase == if health.WorkerFailed? then Phase.Mount else Phase.Health
      ensures outcome.Prepared? ==>
        && Elems(outcome.mounted) !! Elems(Named(outcome.failures))
        && Elems(outcome.mounted) + Elems(Named(outcome.failures)) == Elems(Named(earlier)) + Elems(Ids(placed))
        && outcome.mounted == Filtered(Ids(placed), MountSet(all, available, health, placed))
      ensures outcome.Thrown? <==> !health.Reported? && Elems(Ids(placed)) * available != {}
    {
      var resolved, unloaded := LoadArtifacts(placed, available);
      ghost var keep := MountSet(all, available, health, placed);
      later := unloaded;
      UnloadedExplained(LiveGraph(all), placed, available, Lines(health), keep, unloaded);
      if |resolved| == 0 {
        NothingLoaded(all, placed, available, health, earlier, unloaded);
        return Prepared([], earlier + unloaded), later;
      }
      SomeLoaded(Ids(placed), available, Ids(resolved));
      if health.WorkerFailed? { return Thrown(Phase.Mount), later; }
      if health.WrongContract? { return Thrown(Phase.Health), later; }
      var mounted, unhealthy := KeepReported(all, placed, resolved, available, health);
      LostAccounting(earlier, unloaded, unhealthy, Elems(Ids(placed)), available, Elems(mounted));
      outcome, later := Prepared(mounted, earlier + unloaded + unhealthy), unloaded + unhealthy;
      BothExplained(LiveGraph(all), placed, available, Lines(health), keep, earlier, unloaded, unhealthy);
    }

    method KeepReported(ghost all: seq<Member>, placed: seq<Member>, resolved: seq<Member>,
                        ghost available: set<string>, health: Health)
      returns (mounted: seq<string>, failures: seq<Failure>)
      requires Distinct(Ids(all)) && IsMountOrder(all, placed) && Distinct(Ids(placed)) && health.Reported?
      requires Ids(resolved) == Filtered(Ids(placed), available)
      requires forall m :: m in resolved ==> m in placed
      ensures mounted == Filtered(Ids(placed), MountSet(all, available, health, placed))
      ensures Elems(mounted) <= Elems(Ids(placed)) * available
      ensures Elems(Named(failures)) == Elems(Ids(placed)) * available - Elems(mounted)
      ensures AllExplained(LiveGraph(all), placed, available, health.plugins,
                           MountSet(all, available, health, placed), failures)
    {
      OwnersMatch(all, placed);
      mounted, failures := KeepHealthy(LiveGraph(all), placed, resolved, available, health.plugins);
    }

    /** The worker has reported: keeps what it vouches for and drops what lost a provider. */
    method KeepHealthy(ghost g: Graph, placed: seq<Member>, resolved: seq<Member>, ghost available: set<string>,
                       reports: seq<Report>)
      returns (mounted: seq<string>, failures: seq<Failure>)
      requires Distinct(Ids(placed)) && OwnersServe(g, placed, Owners(Claims(placed)))
      requires Ids(resolved) == Filtered(Ids(placed), available)
      requires forall m :: m in resolved ==> m in placed
      ensures mounted == Filtered(Ids(placed), Survivors(g, available, reports, Ids(placed)))
      ensures Elems(mounted) <= Elems(Ids(placed)) * available
      ensures Elems(Named(failures)) == Elems(Ids(placed)) * available - Elems(mounted)
      ensures AllExplained(g, placed, available, reports, Survivors(g, available, reports, Ids(placed)), failures)
    {
      var verified, unhealthy := CheckHealth(resolved, reports);
      FilteredIn(Ids(placed), available);
      FilteredIn(Ids(resolved), Vouches(reports, Ids(resolved)));
      FilteredTwice(Ids(placed), available, Vouches(reports, Ids(resolved)));
      SameVouches(Ids(placed), available, reports, Ids(resolved));
      var surviving, orphans := DropOrphans(g, placed, verified, available, reports);
      FilteredIn(Ids(verified), Survivors(g, available, reports, Ids(placed)));
      MountedExactly(g, available, reports, Ids(placed));
      NamedJoin(unhealthy, orphans);
      UnhealthyExplained(g, placed, available, reports, Ids(resolved), Ids(verified), unhealthy, orphans);
      mounted, failures := Ids(surviving), unhealthy + orphans;
    }
  }

  /** The members not yet named as failed are those placed. */
  lemma ReadyToLoad(members: seq<Member>, refused: set<string>, refusals: seq<Failure>, placed: seq<Member>,
                    unplaced: seq<Failure>)
    requires refused <= Elems(Ids(members)) && Elems(Named(refusals)) == refused
    requires Answers(members, refused, placed, unplaced)
    ensures Distinct(Ids(placed)) && Elems(Named(refusals + unplaced)) !! Elems(Ids(placed))
    ensures Elems(Ids(members)) == Elems(Named(refusals + unplaced)) + Elems(Ids(placed))
  {
    OrderWithin(Live(members, refused), placed);
    SplitByRefusal(members, refused);
    NamedJoin(refusals, unplaced);
  }

  lemma InNamed(fs: seq<Failure>, f: Failure)
    requires f in fs
    ensures f.pluginId in Elems(Named(fs))
  {
    var i :| 0 <= i < |fs| && fs[i] == f;
    assert Named(fs)[i] == f.pluginId;
  }

  lemma UnloadedExplained(g: Graph, placed: seq<Member>, available: set<string>, reports: seq<Report>,
                          keep: set<string>, unloaded: seq<Failure>)
    requires Elems(Named(unloaded)) == Elems(Ids(placed)) - available
    requires forall f :: f in unloaded ==> f.phase == Resolve && f.reason == ArtifactUnavailable
    ensures AllExplained(g, placed, available, reports, keep, unloaded)
  {
    forall f | f in unloaded ensures LaterMeans(g, placed, available, reports, keep, f) {
      InNamed(unloaded, f);
    }
  }

  lemma UnhealthyExplained(g: Graph, placed: seq<Member>, available: set<string>, reports: seq<Report>,
                           resolved: seq<string>, verified: seq<string>, unhealthy: seq<Failure>, orphans: seq<Failure>)
    requires Elems(resolved) == Elems(Ids(placed)) * available
    requires Elems(Named(unhealthy)) <= Elems(resolved) && forall f :: f in unhealthy ==> HealthMeans(reports, f)
    requires verified == Filtered(Ids(placed), available * Vouches(reports, Ids(placed)))
    requires Elems(Named(orphans)) <= Elems(verified)
    requires forall f :: f in orphans ==> LostMeans(g, placed, Survivors(g, available, reports, Ids(placed)), f)
    ensures AllExplained(g, placed, available, reports, Survivors(g, available, reports, Ids(placed)),
                         unhealthy + orphans)
  {
    var keep := Survivors(g, available, reports, Ids(placed));
    FilteredIn(Ids(placed), available * Vouches(reports, Ids(placed)));
    forall f | f in unhealthy ensures LaterMeans(g, placed, available, reports, keep, f) {
      InNamed(unhealthy, f);
    }
    forall f | f in orphans ensures LaterMeans(g, placed, available, reports, keep, f) {
      InNamed(orphans, f);
      assert f.pluginId in Elems(verified);
    }
  }

  lemma BothExplained(g: Graph, placed: seq<Member>, available: set<string>, reports: seq<Report>, keep: set<string>,
                      earlier: seq<Failure>, unloaded: seq<Failure>, unhealthy: seq<Failure>)
    requires AllExplained(g, placed, available, reports, keep, unloaded)
    requires AllExplained(g, placed, available, reports, keep, unhealthy)
    ensures AllExplained(g, placed, available, reports, keep, unloaded + unhealthy)
    ensures earlier + unloaded + unhealthy == earlier + (unloaded + unhealthy)
  {
  }

  lemma Disjoint(a: set<string>, b: set<string>)
    requires a * b == {}
    ensures a - b == a
  {
    assert forall x :: x in a && x in b ==> x in a * b;
  }

  lemma NothingLoaded(all: seq<Member>, placed: seq<Member>, available: set<string>, health: Health,
                      earlier: seq<Failure>, unloaded: seq<Failure>)
    requires Distinct(Ids(all)) && Filtered(Ids(placed), available) == []
    requires Elems(Named(unloaded)) == Elems(Ids(placed)) - available
    ensures Elems(Ids(placed)) * available == {}
    ensures Elems(Named(earlier + unloaded)) == Elems(Named(earlier)) + Elems(Ids(placed))
    ensures Filtered(Ids(placed), MountSet(all, available, health, placed)) == []
  {
    FilteredIn(Ids(placed), available);
    var none: seq<string> := [];
    assert Elems(none) == {};
    Disjoint(Elems(Ids(placed)), available);
    NamedJoin(earlier, unloaded);
    NothingMounts(all, available, health, placed);
  }

  lemma SomeLoaded(order: seq<string>, available: set<string>, loaded: seq<string>)
    requires loaded == Filtered(order, available) && loaded != []
    ensures Elems(order) * available != {}
  {
    FilteredIn(order, available);
    assert loaded[0] in Elems(loaded);
  }

  lemma LostAccounting(earlier: seq<Failure>, unloaded: seq<Failure>, unhealthy: seq<Failure>,
                       placed: set<string>, available: set<string>, mounted: set<string>)
    requires Elems(Named(earlier)) !! placed
    requires Elems(Named(unloaded)) == placed - available
    requires mounted <= placed * available && Elems(Named(unhealthy)) == placed * available - mounted
    ensures
      var fs := earlier + unloaded + unhealthy;
      mounted !! Elems(Named(fs)) && mounted + Elems(Named(fs)) == Elems(Named(earlier)) + placed
  {
    NamedJoin(earlier, unloaded);
    NamedJoin(earlier + unloaded, unhealthy);
  }

  lemma MountedExactly(g: Graph, available: set<string>, reports: seq<Report>, order: seq<string>)
    ensures
      var keep := Survivors(g, available, reports, order);
      Filtered(Filtered(order, available * Vouches(reports, order)), keep) == Filtered(order, keep)
  {
    var both, keep := available * Vouches(reports, order), Survivors(g, available, reports, order);
    FilteredTwice(order, both, keep);
    assert both * keep == keep;
  }

  lemma SplitByRefusal(members: seq<Member>, refused: set<string>)
    requires refused <= Elems(Ids(members))
    ensures Elems(Ids(members)) == refused + Elems(Ids(Live(members, refused)))
    ensures refused !! Elems(Ids(Live(members, refused)))
  {
    SelectIds(members, refused, false);
    var live := Ids(Live(members, refused));
    assert forall n :: n in Elems(live) <==> n in live;
  }

  /** The members nothing refuses. */
  function Admissible(open: map<string, ModelClaim>, members: seq<Member>): seq<Member> {
    Live(members, set m | m in members && !Admitted(open, m) :: m.packageId)
  }

  /** What comes up: the members in the mount order that were verified, and all of whose
      transitive providers were. */
  ghost function MountSet(all: seq<Member>, available: set<string>, health: Health, order: seq<Member>): set<string>
    requires Distinct(Ids(all))
  {
    if health.Reported? then Survivors(LiveGraph(all), available, health.plugins, Ids(order)) else {}
  }

  lemma NothingMounts(all: seq<Member>, available: set<string>, health: Health, order: seq<Member>)
    requires Distinct(Ids(all)) && Elems(Ids(order)) * available == {}
    ensures Filtered(Ids(order), MountSet(all, available, health, order)) == []
  {
    var keep := MountSet(all, available, health, order);
    FilteredIn(Ids(order), keep);
    var f := Filtered(Ids(order), keep);
    assert Elems(Ids(order)) * keep <= Elems(Ids(order)) * available;
    NoElems(f);
  }

  /** What a mount comes to, by the one mount order of the members nothing refuses. */
  ghost predicate ComesUp(open: map<string, ModelClaim>, members: seq<Member>, available: set<string>, health: Health,
                          order: seq<Member>, outcome: Outcome)
  {
    && Distinct(Ids(Admissible(open, members)))
    && IsMountOrder(Admissible(open, members), order)
    && (outcome.Prepared? ==>
          && Elems(outcome.mounted) !! Elems(Named(outcome.failures))
          && Elems(outcome.mounted) + Elems(Named(outcome.failures)) == Elems(Ids(members))
          && outcome.mounted == Filtered(Ids(order), MountSet(Admissible(open, members), available, health, order)))
    && (outcome.Thrown? <==> !health.Reported? && Elems(Ids(order)) * available != {})
    && (outcome.Thrown? ==> outcome.phase == if health.WorkerFailed? then Phase.Mount else Phase.Health)
  }

  /** What each reason given means: of the members refused, of those the order left out, and of
      those placed that did not come up. */
  ghost predicate TellsWhy(open: map<string, ModelClaim>, members: seq<Member>, available: set<string>,
                           health: Health, order: seq<Member>, whys: Whys, outcome: Outcome)
    requires Distinct(Ids(Admissible(open, members)))
  {
    var refused := Elems(Named(whys.refusals));
    && (outcome.Prepared? ==> outcome.failures == whys.refusals + whys.unplaced + whys.later)
    && refused == (set m | m in members && !Admitted(open, m) :: m.packageId)
    && (forall f :: f in whys.refusals ==> RefusedFor(open, members, f))
    && Explains(members, refused, ResolvedGraph(members, refused), Ids(order), whys.unplaced)
    && AllExplained(LiveGraph(Admissible(open, members)), order, available, Lines(health),
                    MountSet(Admissible(open, members), available, health, order), whys.later)
  }

  lemma PlacedAdmitted(open: map<string, ModelClaim>, members: seq<Member>, order: seq<Member>, m: Member)
    requires Distinct(Ids(Admissible(open, members))) && IsMountOrder(Admissible(open, members), order)
    requires m in members && m.packageId in Elems(Ids(order))
    ensures Admitted(open, m)
  {
    OrderWithin(Admissible(open, members), order);
    SplitByRefusal(members, set x | x in members && !Admitted(open, x) :: x.packageId);
  }

  lemma MountedArePlaced(order: seq<Member>, keep: set<string>, mounted: seq<string>, n: string)
    requires mounted == Filtered(Ids(order), keep) && n in mounted
    ensures n in Elems(Ids(order))
  {
    FilteredIn(Ids(order), keep);
    assert n in Elems(mounted);
  }

  /** Every mounted member is sound, and serves a provider only where the deployment's last claim
      on it names that very member at that very artifact. */
  lemma MountedServesItsOwn(claims: seq<ModelClaim>, members: seq<Member>, available: set<string>, health: Health,
                            order: seq<Member>, outcome: Outcome, m: Member)
    requires ComesUp(OpenMap(claims), members, available, health, order, outcome)
    requires outcome.Prepared? && m in members && m.packageId in outcome.mounted
    ensures m.sound
    ensures forall p :: p in m.modelProviders ==> LastClaim(claims, p, ModelClaim(p, m.packageId, m.contentHash))
  {
    MountedArePlaced(order, MountSet(Admissible(OpenMap(claims), members), available, health, order),
                     outcome.mounted, m.packageId);
    PlacedAdmitted(OpenMap(claims), members, order, m);
    forall p | p in m.modelProviders ensures LastClaim(claims, p, ModelClaim(p, m.packageId, m.contentHash)) {
      OpenMapIs(claims, p);
    }
  }

  lemma FirstIn(s: seq<string>)
    requires s != []
    ensures s[0] in Elems(s)
  {
  }

  lemma NoElems(s: seq<string>)
    requires Elems(s) == {}
    ensures s == []
  {
    if s != [] {
      FirstIn(s);
    }
  }

  lemma SameVouches(ids: seq<string>, available: set<string>, reports: seq<Report>, resolved: seq<string>)
    requires resolved == Filtered(ids, available)
    ensures Filtered(ids, available * Vouches(reports, resolved)) == Filtered(ids, available * Vouches(reports, ids))
  {
    FilteredIn(ids, available);
    forall n | n in ids
      ensures n in available * Vouches(reports, resolved) <==> n in available * Vouches(reports, ids)
    {
      assert n in Elems(ids);
      assert n in Elems(resolved) <==> n in resolved;
    }
    SameFiltered(ids, available * Vouches(reports, resolved), available * Vouches(reports, ids));
  }

  lemma {:induction false} SameFiltered(s: seq<string>, a: set<string>, b: set<string>)
    requires forall n :: n in s ==> (n in a <==> n in b)
    ensures Filtered(s, a) == Filtered(s, b)
    decreases |s|
  {
    if s != [] {
      SameFiltered(s[..|s| - 1], a, b);
    }
  }

  lemma OrderWithin(live: seq<Member>, order: seq<Member>)
    requires Distinct(Ids(live)) && IsMountOrder(live, order)
    ensures Distinct(Ids(order)) && Elems(Ids(order)) <= Elems(Ids(live))
  {
    ProvidersFirst(LiveGraph(live), Ids(order));
    forall n | n in Elems(Ids(order)) ensures n in Elems(Ids(live)) {
      var m := MemberNamed(order, n);
      InIds(live, m);
    }
  }

  ghost function Vouches(reports: seq<Report>, ids: seq<string>): set<string> {
    set n | n in ids && Vouched(reports, n)
  }

  lemma OneMore(ids: seq<string>, i: nat)
    requires i < |ids|
    ensures ids[..i + 1] == ids[..i] + [ids[i]]
    ensures Elems(ids[..i + 1]) == Elems(ids[..i]) + {ids[i]}
  {
    assert ids[..i + 1] == ids[..i] + [ids[i]];
  }

  lemma PushId(ms: seq<Member>, m: Member)
    ensures Ids(ms + [m]) == Ids(ms) + [m.packageId]
  {
  }

  lemma NamedOnce(fs: seq<Failure>, f: Failure)
    requires Distinct(Named(fs)) && f.pluginId !in Elems(Named(fs))
    ensures Distinct(Named(fs + [f]))
  {
    var named := Named(fs + [f]);
    forall i, j | 0 <= i < j < |named|
      ensures named[i] != named[j]
    {
      assert named[i] == Named(fs)[i] && named[i] in Elems(Named(fs));
      assert j < |fs| ==> named[j] == Named(fs)[j];
    }
  }

  lemma PushName(fs: seq<Failure>, f: Failure)
    ensures Named(fs + [f]) == Named(fs) + [f.pluginId]
    ensures Elems(Named(fs + [f])) == Elems(Named(fs)) + {f.pluginId}
  {
    assert Named(fs + [f]) == Named(fs) + [f.pluginId];
  }

  /** Who provides each service: the last of the ordered members to claim it. */
  function Owners(cs: seq<Claim>): map<string, string> {
    if cs == [] then map[]
    else Owners(cs[..|cs| - 1])[cs[|cs| - 1].service.name := cs[|cs| - 1].member.packageId]
  }

  /** Where no two claims share a service, the last claim is the first. */
  lemma {:induction false} OwnersAreProviders(cs: seq<Claim>)
    requires Apart(cs)
    ensures Owners(cs).Keys == Providers(cs).Keys
    ensures forall s :: s in Providers(cs) ==> Owners(cs)[s] == Providers(cs)[s].member.packageId
    decreases |cs|
  {
    if cs != [] {
      var front, last := cs[..|cs| - 1], cs[|cs| - 1];
      OwnersAreProviders(front);
      ProvidersHold(front);
      forall c | c in front ensures c.service.name != last.service.name {
        var i :| 0 <= i < |front| && front[i] == c;
        assert cs[i].service.name != cs[|cs| - 1].service.name;
      }
    }
  }

  method OwnMember(ghost done: seq<Claim>, owned: map<string, string>, member: Member)
    returns (providerOf: map<string, string>)
    requires owned == Owners(done)
    ensures providerOf == Owners(done + ClaimsOf(member))
  {
    providerOf := owned;
    assert done + [] == done;
    for j := 0 to |member.offers|
      invariant providerOf == Owners(done + ClaimsOf(member)[..j])
    {
      ghost var cs := done + ClaimsOf(member)[..j + 1];
      assert cs[..|cs| - 1] == done + ClaimsOf(member)[..j] && cs[|cs| - 1] == Claim(member, member.offers[j]);
      providerOf := providerOf[member.offers[j].name := member.packageId];
    }
    assert ClaimsOf(member)[..|member.offers|] == ClaimsOf(member);
  }

  method OwnServices(order: seq<Member>) returns (providerOf: map<string, string>)
    ensures providerOf == Owners(Claims(order))
  {
    providerOf := map[];
    for i := 0 to |order|
      invariant providerOf == Owners(Claims(order[..i]))
    {
      assert order[..i + 1][..|order[..i + 1]| - 1] == order[..i];
      providerOf := OwnMember(Claims(order[..i]), providerOf, order[i]);
    }
    assert order[..|order|] == order;
  }

  /** Each service a placed member consumes is owned by its own provider, placed earlier. */
  ghost predicate OwnersServe(g: Graph, order: seq<Member>, own: map<string, string>) {
    forall j {:trigger order[j]} :: 0 <= j < |order| ==> OwnersServeOne(g, order, own, j)
  }

  ghost predicate OwnersServeOne(g: Graph, order: seq<Member>, own: map<string, string>, j: nat)
    requires j < |order|
  {
    var m := order[j];
    && m.packageId in g.needs
    && |g.needs[m.packageId]| == |m.consumes|
    && forall k :: 0 <= k < |m.consumes| ==>
         && m.consumes[k].name in own
         && own[m.consumes[k].name] == g.needs[m.packageId][k]
         && Early(order, j, g.needs[m.packageId][k])
  }

  ghost predicate Early(order: seq<Member>, j: nat, n: string)
    requires j <= |order|
  {
    exists q :: 0 <= q < j && order[q].packageId == n
  }

  lemma OwnersMatch(live: seq<Member>, order: seq<Member>)
    requires Distinct(Ids(live)) && IsMountOrder(live, order)
    ensures OwnersServe(LiveGraph(live), order, Owners(Claims(order)))
  {
    var g := LiveGraph(live);
    OrderIsInOrder(live, order);
    assert order[..|order|] == order;
    PlacedClaimsApart(live, order, |order|);
    OwnersAreProviders(Claims(order));
    forall j | 0 <= j < |order| ensures OwnersServeOne(g, order, Owners(Claims(order)), j) {
      OwnerIsProvider(live, order, j, g.needs, Owners(Claims(order)));
    }
  }

  lemma OwnerIsProvider(live: seq<Member>, order: seq<Member>, j: nat, needs: map<string, seq<string>>,
                        own: map<string, string>)
    requires Distinct(Ids(live)) && IsMountOrder(live, order) && j < |order|
    requires needs == LiveGraph(live).needs
    requires own.Keys == Providers(Claims(order)).Keys
    requires forall s :: s in own ==> own[s] == Providers(Claims(order))[s].member.packageId
    ensures order[j].packageId in needs && |needs[order[j].packageId]| == |order[j].consumes|
    ensures forall k :: 0 <= k < |order[j].consumes| ==>
      && order[j].consumes[k].name in own
      && own[order[j].consumes[k].name] == needs[order[j].packageId][k]
      && Early(order, j, needs[order[j].packageId][k])
  {
    var m := order[j];
    PlacedAreSound(live, order, m);
    SoundNeeds(live, m);
    forall k | 0 <= k < |m.consumes|
      ensures
        && m.consumes[k].name in own
        && own[m.consumes[k].name] == needs[m.packageId][k]
        && Early(order, j, needs[m.packageId][k])
    {
      PlacedAfterProviders(live, order, j, k);
      SameProvider(live, order, j, k);
    }
  }

  /** Drops the verified members whose provider did not survive. */
  method DropOrphans(ghost g: Graph, order: seq<Member>, verified: seq<Member>,
                     ghost available: set<string>, ghost reports: seq<Report>)
    returns (surviving: seq<Member>, failures: seq<Failure>)
    requires Distinct(Ids(order)) && OwnersServe(g, order, Owners(Claims(order)))
    requires forall m :: m in verified ==> m in order
    requires Ids(verified) == Filtered(Ids(order), available * Vouches(reports, Ids(order)))
    ensures Ids(surviving) == Filtered(Ids(verified), Survivors(g, available, reports, Ids(order)))
    ensures Elems(Named(failures)) == Elems(Ids(verified)) - Elems(Ids(surviving))
    ensures forall f :: f in failures ==> LostMeans(g, order, Survivors(g, available, reports, Ids(order)), f)
  {
    ghost var keep := Survivors(g, available, reports, Ids(order));
    var providerOf := OwnServices(order);
    var live: set<string> := {};
    surviving, failures := [], [];
    for i := 0 to |verified|
      invariant Dropping(Ids(verified), keep, i, surviving, live, failures)
      invariant forall f :: f in failures ==> LostMeans(g, order, keep, f)
    {
      var member := verified[i];
      var broken := BrokenNeed(providerOf, live, member);
      BrokenExactly(g, order, verified, available, reports, i, live, providerOf, broken);
      if broken.Some? {
        DropLost(Ids(verified), keep, i, surviving, live, failures, broken.value);
        failures := failures + [Failure(member.packageId, Phase.Health, broken.value)];
        continue;
      }
      DropKept(Ids(verified), keep, i, surviving, live, failures, member);
      live := live + {member.packageId};
      surviving := surviving + [member];
    }
    assert Ids(verified)[..|verified|] == Ids(verified);
    FilteredIn(Ids(verified), keep);
  }

  /** Of the first `i` verified, what is kept, live and named as failed. */
  ghost predicate Dropping(ids: seq<string>, keep: set<string>, i: nat, surviving: seq<Member>, live: set<string>,
                           failures: seq<Failure>)
    requires i <= |ids|
  {
    && Ids(surviving) == Filtered(ids[..i], keep)
    && live == Elems(ids[..i]) * keep
    && Elems(Named(failures)) == Elems(ids[..i]) - keep
  }

  lemma DropLost(ids: seq<string>, keep: set<string>, i: nat, surviving: seq<Member>, live: set<string>,
                 failures: seq<Failure>, why: Reason)
    requires i < |ids| && Dropping(ids, keep, i, surviving, live, failures) && ids[i] !in keep
    ensures Dropping(ids, keep, i + 1, surviving, live, failures + [Failure(ids[i], Phase.Health, why)])
  {
    OneMore(ids, i);
    FilteredSnoc(ids[..i], ids[i], keep);
    PushName(failures, Failure(ids[i], Phase.Health, why));
  }

  lemma DropKept(ids: seq<string>, keep: set<string>, i: nat, surviving: seq<Member>, live: set<string>,
                 failures: seq<Failure>, m: Member)
    requires i < |ids| && Dropping(ids, keep, i, surviving, live, failures) && ids[i] == m.packageId
      && m.packageId in keep
    ensures Dropping(ids, keep, i + 1, surviving + [m], live + {m.packageId}, failures)
  {
    OneMore(ids, i);
    FilteredSnoc(ids[..i], ids[i], keep);
    PushId(surviving, m);
  }

  /** A kept owner placed earlier is already live; a lost one never is. */
  lemma OwnerLive(g: Graph, order: seq<Member>, ids: seq<string>, available: set<string>, reports: seq<Report>,
                  j: nat, i: nat, live: set<string>, n: string)
    requires Distinct(Ids(order)) && j < |order| && Early(order, j, n)
    requires ids == Filtered(Ids(order), available * Vouches(reports, Ids(order)))
    requires i < |ids| && ids[i] == Ids(order)[j]
    requires live == Elems(ids[..i]) * Survivors(g, available, reports, Ids(order))
    ensures n in live <==> WhollyVerified(g, available, reports, n)
  {
    var both := available * Vouches(reports, Ids(order));
    var q :| 0 <= q < j && order[q].packageId == n;
    assert Ids(order)[q] == n && n in Ids(order);
    if WhollyVerified(g, available, reports, n) {
      FilteredBefore(Ids(order), both, q, j, i);
      assert n in Elems(ids[..i]);
    }
  }

  /** Each owner of what a verified member consumes is its provider, live already exactly when
      it is wholly verified. */
  lemma OwnersLive(g: Graph, order: seq<Member>, verified: seq<Member>, available: set<string>,
                   reports: seq<Report>, i: nat, live: set<string>, own: map<string, string>)
    returns (j: nat)
    requires Distinct(Ids(order)) && OwnersServe(g, order, own)
    requires forall m :: m in verified ==> m in order
    requires Ids(verified) == Filtered(Ids(order), available * Vouches(reports, Ids(order)))
    requires i < |verified|
    requires live == Elems(Ids(verified)[..i]) * Survivors(g, available, reports, Ids(order))
    ensures j < |order| && order[j] == verified[i] && OwnersServeOne(g, order, own, j)
    ensures
      var m, keep := verified[i], Survivors(g, available, reports, Ids(order));
      && Verified(available, reports, m.packageId)
      && forall k :: 0 <= k < |m.consumes| ==>
           var n := g.needs[m.packageId][k];
           n in Ids(order) && (n in live <==> WhollyVerified(g, available, reports, n)) && (n in live <==> n in keep)
  {
    var m, ids := verified[i], Ids(verified);
    assert m in verified && m in order;
    j :| 0 <= j < |order| && order[j] == m;
    assert Ids(order)[j] == m.packageId && ids[i] == m.packageId;
    assert OwnersServeOne(g, order, own, j);
    FilteredIn(Ids(order), available * Vouches(reports, Ids(order)));
    assert m.packageId in Elems(ids);
    forall k | 0 <= k < |m.consumes|
      ensures
        var n := g.needs[m.packageId][k];
        n in Ids(order) && (n in live <==> WhollyVerified(g, available, reports, n))
    {
      var n := g.needs[m.packageId][k];
      OwnerLive(g, order, ids, available, reports, j, i, live, n);
      var q :| 0 <= q < j && order[q].packageId == n;
      assert Ids(order)[q] == n;
    }
  }

  /** Each service a verified member consumes is served exactly when its provider is kept. */
  lemma ServedIsKept(g: Graph, order: seq<Member>, verified: seq<Member>, available: set<string>,
                     reports: seq<Report>, i: nat, live: set<string>, own: map<string, string>)
    returns (j: nat)
    requires Distinct(Ids(order)) && OwnersServe(g, order, own)
    requires forall m :: m in verified ==> m in order
    requires Ids(verified) == Filtered(Ids(order), available * Vouches(reports, Ids(order)))
    requires i < |verified|
    requires live == Elems(Ids(verified)[..i]) * Survivors(g, available, reports, Ids(order))
    ensures j < |order| && order[j] == verified[i] && OwnersServeOne(g, order, own, j)
    ensures
      var m, keep := verified[i], Survivors(g, available, reports, Ids(order));
      && (forall k :: 0 <= k < |m.consumes| ==> (ServedAt(own, live, m, k) <==> g.needs[m.packageId][k] in keep))
      && (m.packageId in keep <==> forall k :: 0 <= k < |m.consumes| ==> ServedAt(own, live, m, k))
  {
    var m := verified[i];
    j := OwnersLive(g, order, verified, available, reports, i, live, own);
    assert Ids(order)[j] == m.packageId;
    WhollyVerifiedStep(g, available, reports, m.packageId);
    var needs := g.needs[m.packageId];
    assert (forall u :: u in needs ==> WhollyVerified(g, available, reports, u)) <==>
           (forall k :: 0 <= k < |needs| ==> WhollyVerified(g, available, reports, needs[k]));
    assert forall k :: 0 <= k < |needs| ==> own[m.consumes[k].name] == needs[k];
  }

  /** What stops a verified member is that it does not survive, and is the first provider lost. */
  lemma BrokenExactly(g: Graph, order: seq<Member>, verified: seq<Member>, available: set<string>,
                      reports: seq<Report>, i: nat, live: set<string>, own: map<string, string>,
                      broken: Option<Reason>)
    requires Distinct(Ids(order)) && OwnersServe(g, order, own)
    requires forall m :: m in verified ==> m in order
    requires Ids(verified) == Filtered(Ids(order), available * Vouches(reports, Ids(order)))
    requires i < |verified|
    requires live == Elems(Ids(verified)[..i]) * Survivors(g, available, reports, Ids(order))
    requires BrokenBy(own, live, verified[i], broken)
    ensures
      var keep := Survivors(g, available, reports, Ids(order));
      && (broken == None <==> verified[i].packageId in keep)
      && (broken.Some? ==> LostMeans(g, order, keep, Failure(verified[i].packageId, Phase.Health, broken.value)))
  {
    var m, keep := verified[i], Survivors(g, available, reports, Ids(order));
    var j := ServedIsKept(g, order, verified, available, reports, i, live, own);
    if broken.Some? {
      var k: nat :| BrokenAt(own, live, m, k, broken.value);
      LostIs(g, order, own, live, keep, j, k, broken.value);
    }
  }

  lemma LostIs(g: Graph, order: seq<Member>, own: map<string, string>, live: set<string>, keep: set<string>, j: nat,
               k: nat, why: Reason)
    requires j < |order| && OwnersServeOne(g, order, own, j) && BrokenAt(own, live, order[j], k, why)
    requires forall l :: 0 <= l < |order[j].consumes| ==>
      (ServedAt(own, live, order[j], l) <==> g.needs[order[j].packageId][l] in keep)
    ensures LostMeans(g, order, keep, Failure(order[j].packageId, Phase.Health, why))
  {
    assert forall l :: 0 <= l < k ==> ServedAt(own, live, order[j], l);
    assert LostAt(g, order[j], keep, k, why);
  }

  predicate ServedAt(own: map<string, string>, live: set<string>, m: Member, k: nat)
    requires k < |m.consumes|
  {
    m.consumes[k].name in own && own[m.consumes[k].name] in live
  }

  /** The `k`th service consumed is the first whose owner is not live. */
  predicate BrokenAt(own: map<string, string>, live: set<string>, m: Member, k: nat, why: Reason) {
    && k < |m.consumes| && !ServedAt(own, live, m, k)
    && (forall l :: 0 <= l < k ==> ServedAt(own, live, m, l))
    && why == ProviderLost(m.consumes[k].name, if m.consumes[k].name in own then own[m.consumes[k].name] else "")
  }

  /** Nothing is broken, or the first thing that is. */
  ghost predicate BrokenBy(own: map<string, string>, live: set<string>, m: Member, broken: Option<Reason>) {
    && (broken == None <==> forall k :: 0 <= k < |m.consumes| ==> ServedAt(own, live, m, k))
    && (broken.Some? ==> exists k: nat :: BrokenAt(own, live, m, k, broken.value))
  }

  /** The first service `member` consumes whose owner is not live. */
  method BrokenNeed(providerOf: map<string, string>, live: set<string>, member: Member) returns (broken: Option<Reason>)
    ensures BrokenBy(providerOf, live, member, broken)
  {
    for k := 0 to |member.consumes|
      invariant forall l :: 0 <= l < k ==> ServedAt(providerOf, live, member, l)
    {
      var s := member.consumes[k].name;
      if s !in providerOf || providerOf[s] !in live {
        broken := Some(ProviderLost(s, if s in providerOf then providerOf[s] else ""));
        assert BrokenAt(providerOf, live, member, k, broken.value);
        return;
      }
    }
    broken := None;
  }
}
