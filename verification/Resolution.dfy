/** Which Plugin provides each service, and which Plugins resolution excludes. */
module Resolution {
  import opened Sequences
  import opened Wrappers

  import opened MountGraph
  import opened Plugins

  datatype Claim = Claim(member: Member, service: Service)

  function ClaimsOf(m: Member): (r: seq<Claim>)
    ensures |r| == |m.offers| && forall i :: 0 <= i < |r| ==> r[i] == Claim(m, m.offers[i])
  {
    seq(|m.offers|, i requires 0 <= i < |m.offers| => Claim(m, m.offers[i]))
  }

  /** Every service the members offer, in the order the claims are made. */
  function Claims(ms: seq<Member>): seq<Claim> {
    if ms == [] then [] else Claims(ms[..|ms| - 1]) + ClaimsOf(ms[|ms| - 1])
  }

  /** The first claim on a service holds it. */
  function Providers(cs: seq<Claim>): map<string, Claim> {
    if cs == [] then map[]
    else
      var held := Providers(cs[..|cs| - 1]);
      var c := cs[|cs| - 1];
      if c.service.name in held then held else held[c.service.name := c]
  }

  /** A later claim on a held service fails its claimant. */
  function Displacements(cs: seq<Claim>): seq<Failure> {
    if cs == [] then []
    else
      var held := Providers(cs[..|cs| - 1]);
      var c := cs[|cs| - 1];
      Displacements(cs[..|cs| - 1]) +
      if c.service.name in held
      then [Failure(c.member.packageId, Resolve,
                    AlreadyProvided(c.service.name, held[c.service.name].member.packageId))]
      else []
  }

  function Displaced(cs: seq<Claim>): set<string> {
    Elems(Named(Displacements(cs)))
  }

  /** The members the caller has not already failed, or those it has. */
  function Select(ms: seq<Member>, ids: set<string>, inside: bool): seq<Member> {
    if ms == [] then []
    else
      var m := ms[|ms| - 1];
      Select(ms[..|ms| - 1], ids, inside) + if (m.packageId in ids) == inside then [m] else []
  }

  function Live(ms: seq<Member>, refused: set<string>): seq<Member> {
    Select(ms, refused, false)
  }

  function AllClaims(ms: seq<Member>, refused: set<string>): seq<Claim> {
    Claims(Live(ms, refused)) + Claims(Select(ms, refused, true))
  }

  /** The first consumed service, from the `j`th on, that fails its consumer. A provider
      already excluded is left to the ordering pass. */
  function Verdict(held: map<string, Claim>, excluded: set<string>, m: Member, j: nat): Option<Reason>
    requires j <= |m.consumes|
    decreases |m.consumes| - j
  {
    if j == |m.consumes| then None
    else
      var s := m.consumes[j];
      if s.name !in held then Some(NothingProvides(s.name))
      else if held[s.name].member.packageId in excluded then Verdict(held, excluded, m, j + 1)
      else if held[s.name].service.version != s.version
      then Some(WrongVersion(s.name, held[s.name].member.packageId))
      else Verdict(held, excluded, m, j + 1)
  }

  function Upstream(held: map<string, Claim>, m: Member): (r: seq<string>)
    requires forall k :: 0 <= k < |m.consumes| ==> m.consumes[k].name in held
    ensures |r| == |m.consumes|
    ensures forall k :: 0 <= k < |r| ==> r[k] == held[m.consumes[k].name].member.packageId
  {
    seq(|m.consumes|, k requires 0 <= k < |m.consumes| => held[m.consumes[k].name].member.packageId)
  }

  datatype Resolved = Resolved(excluded: set<string>, needs: map<string, seq<string>>, failures: seq<Failure>)

  lemma {:induction false} VerdictCovers(held: map<string, Claim>, excluded: set<string>, m: Member, j: nat)
    requires j <= |m.consumes| && Verdict(held, excluded, m, j) == None
    ensures forall k :: j <= k < |m.consumes| ==>
      var s := m.consumes[k];
      s.name in held && (held[s.name].member.packageId in excluded || held[s.name].service.version == s.version)
    decreases |m.consumes| - j
  {
    if j < |m.consumes| {
      VerdictCovers(held, excluded, m, j + 1);
    }
  }

  lemma {:induction false} VerdictPasses(held: map<string, Claim>, excluded: set<string>, m: Member, j: nat)
    requires j <= |m.consumes|
    requires forall k :: 0 <= k < |m.consumes| ==>
      m.consumes[k].name in held && held[m.consumes[k].name].service.version == m.consumes[k].version
    ensures Verdict(held, excluded, m, j) == None
    decreases |m.consumes| - j
  {
    if j < |m.consumes| {
      VerdictPasses(held, excluded, m, j + 1);
    }
  }

  /** Resolution of the members in listed order, each judged by what was excluded before it. */
  function ResolveAll(ms: seq<Member>, held: map<string, Claim>, start: set<string>): Resolved {
    if ms == [] then Resolved(start, map[], [])
    else
      var r := ResolveAll(ms[..|ms| - 1], held, start);
      var m := ms[|ms| - 1];
      if m.packageId in r.excluded then r
      else
        match Verdict(held, r.excluded, m, 0)
        case Some(why) =>
          Resolved(r.excluded + {m.packageId}, r.needs, r.failures + [Failure(m.packageId, Resolve, why)])
        case None =>
          VerdictCovers(held, r.excluded, m, 0);
          Resolved(r.excluded, r.needs[m.packageId := Upstream(held, m)], r.failures)
  }

  function ResolutionOf(ms: seq<Member>, refused: set<string>): Resolved {
    ResolveAll(ms, Providers(AllClaims(ms, refused)), refused + Displaced(Claims(Live(ms, refused))))
  }

  /** The graph the ordering pass runs on. */
  function ResolvedGraph(ms: seq<Member>, refused: set<string>): Graph {
    var r := ResolutionOf(ms, refused);
    Graph(Ids(ms), r.needs, r.excluded)
  }

  // ---- claims -------------------------------------------------------------------

  lemma {:induction false} ClaimsAppend(a: seq<Member>, b: seq<Member>)
    ensures Claims(a + b) == Claims(a) + Claims(b)
    decreases |b|
  {
    if b == [] {
      assert a + b == a;
    } else {
      var front, last := b[..|b| - 1], b[|b| - 1];
      ClaimsAppend(a, front);
      assert (a + b)[..|a + b| - 1] == a + front && (a + b)[|a + b| - 1] == last;
      Joined(Claims(a), Claims(front), ClaimsOf(last));
    }
  }

  lemma Joined(a: seq<Claim>, b: seq<Claim>, c: seq<Claim>)
    ensures a + b + c == a + (b + c)
  {
  }

  lemma {:induction false} ClaimsWithin(ms: seq<Member>)
    ensures forall c :: c in Claims(ms) ==> c.member in ms && c.service in c.member.offers
    ensures forall m, j :: m in ms && 0 <= j < |m.offers| ==> Claim(m, m.offers[j]) in Claims(ms)
    decreases |ms|
  {
    if ms != [] {
      var last := ms[|ms| - 1];
      ClaimsWithin(ms[..|ms| - 1]);
      forall m, j | m in ms && 0 <= j < |m.offers| ensures Claim(m, m.offers[j]) in Claims(ms) {
        if m == last { assert ClaimsOf(last)[j] == Claim(m, m.offers[j]); }
      }
    }
  }

  lemma {:induction false} ProvidersHold(cs: seq<Claim>)
    ensures forall s :: s in Providers(cs) ==> Providers(cs)[s] in cs && Providers(cs)[s].service.name == s
    ensures forall c :: c in cs ==> c.service.name in Providers(cs)
    decreases |cs|
  {
    if cs != [] {
      ProvidersHold(cs[..|cs| - 1]);
      assert cs == cs[..|cs| - 1] + [cs[|cs| - 1]];
    }
  }

  lemma {:induction false} ProvidersAppend(a: seq<Claim>, b: seq<Claim>)
    ensures forall s :: s in Providers(a) ==> s in Providers(a + b) && Providers(a + b)[s] == Providers(a)[s]
    ensures forall s :: s in Providers(a + b) && s !in Providers(a) ==> Providers(a + b)[s] in b
    decreases |b|
  {
    if b == [] {
      assert a + b == a;
    } else {
      ProvidersAppend(a, b[..|b| - 1]);
      assert (a + b)[..|a + b| - 1] == a + b[..|b| - 1];
    }
  }

  /** A claimant keeps every service it claims exactly when none of its claims is late. */
  lemma {:induction false} UndisplacedHolds(cs: seq<Claim>, c: Claim)
    requires c in cs && c.member.packageId !in Displaced(cs)
    ensures c.service.name in Providers(cs) && Providers(cs)[c.service.name] == c
    decreases |cs|
  {
    var front, last := cs[..|cs| - 1], cs[|cs| - 1];
    assert cs == front + [last];
    DisplacedStep(cs);
    if c in front {
      UndisplacedHolds(front, c);
    } else {
      assert c == last;
    }
  }

  lemma DisplacedStep(cs: seq<Claim>)
    requires cs != []
    ensures
      var front, last := cs[..|cs| - 1], cs[|cs| - 1];
      Displaced(cs) ==
      Displaced(front) + (if last.service.name in Providers(front) then {last.member.packageId} else {})
  {
    var front, last := cs[..|cs| - 1], cs[|cs| - 1];
    var held := Providers(front);
    if last.service.name in held {
      var f := Failure(last.member.packageId, Resolve,
                       AlreadyProvided(last.service.name, held[last.service.name].member.packageId));
      assert Named(Displacements(cs)) == Named(Displacements(front)) + [f.pluginId];
    } else {
      assert Displacements(cs) == Displacements(front);
    }
  }

  /** Claims that all hold their service, at distinct places, displace nobody. */
  lemma {:induction false} NoneDisplaced(cs: seq<Claim>)
    requires forall i, j :: 0 <= i < j < |cs| ==> cs[i].service.name != cs[j].service.name
    ensures Displaced(cs) == {}
    decreases |cs|
  {
    if cs != [] {
      var front, last := cs[..|cs| - 1], cs[|cs| - 1];
      NoneDisplaced(front);
      DisplacedStep(cs);
      ProvidersHold(front);
    }
  }

  /** Two claims on one service displace the later claimant. */
  lemma {:induction false} LateClaimDisplaced(cs: seq<Claim>, i: nat, j: nat)
    requires i < j < |cs| && cs[i].service.name == cs[j].service.name
    ensures cs[j].member.packageId in Displaced(cs)
    decreases |cs|
  {
    var front := cs[..|cs| - 1];
    DisplacedStep(cs);
    if j < |front| {
      LateClaimDisplaced(front, i, j);
    } else {
      ProvidersHold(front);
      assert front[i] in front;
    }
  }

  // ---- selection ----------------------------------------------------------------

  lemma {:induction false} SelectWithin(ms: seq<Member>, ids: set<string>, inside: bool)
    ensures forall m :: m in Select(ms, ids, inside) <==> m in ms && (m.packageId in ids) == inside
    decreases |ms|
  {
    if ms != [] {
      SelectWithin(ms[..|ms| - 1], ids, inside);
      assert ms == ms[..|ms| - 1] + [ms[|ms| - 1]];
    }
  }

  lemma {:induction false} SelectDistinct(ms: seq<Member>, ids: set<string>, inside: bool)
    requires Distinct(Ids(ms))
    ensures Distinct(Ids(Select(ms, ids, inside)))
    decreases |ms|
  {
    if ms != [] {
      var front, last := ms[..|ms| - 1], ms[|ms| - 1];
      assert Ids(front) == Ids(ms)[..|ms| - 1];
      SelectDistinct(front, ids, inside);
      var s := Select(front, ids, inside);
      SelectWithin(front, ids, inside);
      forall i | 0 <= i < |s| ensures Ids(s)[i] != last.packageId {
        assert s[i] in s && s[i] in front;
        var k :| 0 <= k < |front| && front[k] == s[i];
        assert Ids(ms)[k] != Ids(ms)[|ms| - 1];
      }
    }
  }

  /** Selecting again what was selected changes nothing. */
  lemma {:induction false} LiveAgain(ms: seq<Member>, refused: set<string>)
    ensures Live(Live(ms, refused), {}) == Live(ms, refused)
    decreases |ms|
  {
    LiveAll(Live(ms, refused));
  }

  lemma {:induction false} LiveAll(ms: seq<Member>)
    ensures Live(ms, {}) == ms
    decreases |ms|
  {
    if ms != [] {
      LiveAll(ms[..|ms| - 1]);
    }
  }

  /** Dropping members leaves the rest in their listed order. */
  lemma {:induction false} SelectKeepsPlaces(ms: seq<Member>, ids: set<string>, inside: bool, a: string, b: string)
    requires Distinct(Ids(ms)) && Distinct(Ids(Select(ms, ids, inside)))
    requires a in Ids(Select(ms, ids, inside)) && b in Ids(Select(ms, ids, inside))
    ensures a in Ids(ms) && b in Ids(ms)
    ensures Pos(Ids(Select(ms, ids, inside)), a) < Pos(Ids(Select(ms, ids, inside)), b) <==>
      Pos(Ids(ms), a) < Pos(Ids(ms), b)
    decreases |ms|
  {
    var s := Select(ms, ids, inside);
    SelectIds(ms, ids, inside);
    var front, last := ms[..|ms| - 1], ms[|ms| - 1];
    assert Ids(front) == Ids(ms)[..|ms| - 1];
    var t := Select(front, ids, inside);
    SelectDistinct(front, ids, inside);
    if (last.packageId in ids) != inside {
      assert s == t;
      SelectKeepsPlaces(front, ids, inside, a, b);
      PosPrefix(Ids(ms), |front|, a);
      PosPrefix(Ids(ms), |front|, b);
    } else {
      assert Ids(t) == Ids(s)[..|s| - 1];
      assert Ids(s)[|s| - 1] == last.packageId && Ids(ms)[|ms| - 1] == last.packageId;
      if a != last.packageId && b != last.packageId {
        assert a in Ids(t) && b in Ids(t);
        SelectKeepsPlaces(front, ids, inside, a, b);
        PosPrefix(Ids(ms), |front|, a);
        PosPrefix(Ids(ms), |front|, b);
        PosPrefix(Ids(s), |t|, a);
        PosPrefix(Ids(s), |t|, b);
      }
    }
  }

  lemma PosPrefix(s: seq<string>, k: nat, x: string)
    requires Distinct(s) && k <= |s| && x in s[..k]
    ensures Pos(s[..k], x) == Pos(s, x)
  {
    assert s[Pos(s[..k], x)] == x;
  }

  lemma IdAt(ms: seq<Member>, m: Member)
    requires m in ms
    ensures m.packageId in Ids(ms)
  {
    var k :| 0 <= k < |ms| && ms[k] == m;
    assert Ids(ms)[k] == m.packageId;
  }

  lemma SelectIds(ms: seq<Member>, ids: set<string>, inside: bool)
    ensures forall x :: x in Ids(Select(ms, ids, inside)) <==> x in Ids(ms) && (x in ids) == inside
  {
    SelectWithin(ms, ids, inside);
    var s := Select(ms, ids, inside);
    forall x | x in Ids(s) ensures x in Ids(ms) && (x in ids) == inside {
      var i :| 0 <= i < |s| && Ids(s)[i] == x;
      assert s[i] in s;
      IdAt(ms, s[i]);
    }
    forall x | x in Ids(ms) && (x in ids) == inside ensures x in Ids(s) {
      var k :| 0 <= k < |ms| && Ids(ms)[k] == x;
      assert ms[k] in ms;
      IdAt(s, ms[k]);
    }
  }

  lemma ClaimsPrefix(ms: seq<Member>, i: nat, ids: set<string>, inside: bool)
    requires i < |ms|
    ensures Claims(Select(ms[..i + 1], ids, inside)) ==
            Claims(Select(ms[..i], ids, inside)) + (if (ms[i].packageId in ids) == inside then ClaimsOf(ms[i]) else [])
  {
    assert ms[..i + 1][..|ms[..i + 1]| - 1] == ms[..i];
    var s := Select(ms[..i], ids, inside);
    if (ms[i].packageId in ids) == inside {
      assert (s + [ms[i]])[..|s + [ms[i]]| - 1] == s;
    } else {
      assert s + [] == s && Claims(s) + [] == Claims(s);
    }
  }

  // ---- the resolved graph -------------------------------------------------------

  lemma {:induction false} ResolveShape(ms: seq<Member>, held: map<string, Claim>, start: set<string>)
    requires Distinct(Ids(ms))
    ensures
      var r := ResolveAll(ms, held, start);
      && start <= r.excluded
      && r.excluded <= start + Elems(Ids(ms))
      && (forall n :: n in r.needs ==> n in Ids(ms) && n !in r.excluded)
      && (forall n :: n in Ids(ms) ==> n in r.excluded || n in r.needs)
      && Distinct(Named(r.failures)) && Elems(Named(r.failures)) == r.excluded - start
    decreases |ms|
  {
    if ms != [] {
      var front, m := ms[..|ms| - 1], ms[|ms| - 1];
      assert Ids(front) == Ids(ms)[..|ms| - 1];
      assert Ids(ms) == Ids(front) + [m.packageId];
      assert m.packageId !in Ids(front);
      ResolveShape(front, held, start);
      var r0, r := ResolveAll(front, held, start), ResolveAll(ms, held, start);
      if m.packageId !in r0.excluded && Verdict(held, r0.excluded, m, 0).Some? {
        assert Named(r.failures) == Named(r0.failures) + [m.packageId];
        assert m.packageId !in Elems(Named(r0.failures));
        forall x ensures x in Elems(Named(r.failures)) <==> x in r.excluded - start {
          assert x in Elems(Named(r0.failures)) <==> x in Named(r0.failures);
        }
      }
    }
  }

  /** Every service consumed is held, at the right version unless its provider is excluded. */
  predicate Served(held: map<string, Claim>, excluded: set<string>, m: Member) {
    forall k :: 0 <= k < |m.consumes| ==>
      var s := m.consumes[k];
      s.name in held && (held[s.name].member.packageId in excluded || held[s.name].service.version == s.version)
  }

  /** Every service consumed is held at the right version. */
  predicate WellServed(held: map<string, Claim>, m: Member) {
    forall k :: 0 <= k < |m.consumes| ==>
      m.consumes[k].name in held && held[m.consumes[k].name].service.version == m.consumes[k].version
  }

  ghost predicate ResolvedRight(r: Resolved, held: map<string, Claim>, start: set<string>, m: Member) {
    && (m.packageId in r.needs ==> Served(held, r.excluded, m) && r.needs[m.packageId] == Upstream(held, m))
    && (m.packageId !in start && WellServed(held, m) ==> m.packageId in r.needs)
  }

  lemma ResolveLast(front: seq<Member>, held: map<string, Claim>, start: set<string>, m: Member)
    requires m.packageId !in ResolveAll(front, held, start).needs
    requires m.packageId in ResolveAll(front, held, start).excluded ==> m.packageId in start
    ensures ResolvedRight(ResolveAll(front + [m], held, start), held, start, m)
  {
    assert (front + [m])[..|front|] == front;
    var r0 := ResolveAll(front, held, start);
    if Verdict(held, r0.excluded, m, 0) == None {
      VerdictCovers(held, r0.excluded, m, 0);
    }
    if WellServed(held, m) {
      VerdictPasses(held, r0.excluded, m, 0);
    }
  }

  lemma ResolveOther(front: seq<Member>, held: map<string, Claim>, start: set<string>, last: Member, m: Member)
    requires last.packageId != m.packageId
    requires ResolvedRight(ResolveAll(front, held, start), held, start, m)
    ensures ResolvedRight(ResolveAll(front + [last], held, start), held, start, m)
  {
    assert (front + [last])[..|front|] == front;
  }

  /** A member that resolved consumes only held services, at the right version unless the
      provider was excluded before it; one whose services are all held at the right
      version resolves. */
  lemma {:induction false} ResolveMember(ms: seq<Member>, held: map<string, Claim>, start: set<string>, m: Member)
    requires Distinct(Ids(ms)) && m in ms
    ensures ResolvedRight(ResolveAll(ms, held, start), held, start, m)
    decreases |ms|
  {
    var front, last := ms[..|ms| - 1], ms[|ms| - 1];
    assert Ids(front) == Ids(ms)[..|ms| - 1];
    assert Ids(ms) == Ids(front) + [last.packageId];
    assert front + [last] == ms;
    var i :| 0 <= i < |ms| && ms[i] == m;
    assert Ids(ms)[i] == m.packageId;
    if i < |front| {
      assert front[i] == m && Ids(front)[i] != last.packageId;
      ResolveMember(front, held, start, m);
      ResolveOther(front, held, start, last, m);
    } else {
      ResolveShape(front, held, start);
      assert m.packageId !in Ids(front);
      ResolveLast(front, held, start, m);
    }
  }

  lemma ResolvedWellFormed(ms: seq<Member>, refused: set<string>)
    requires Distinct(Ids(ms))
    ensures WellFormed(ResolvedGraph(ms, refused))
  {
    var held := Providers(AllClaims(ms, refused));
    var start := refused + Displaced(Claims(Live(ms, refused)));
    var g := ResolvedGraph(ms, refused);
    ResolveShape(ms, held, start);
    ProvidersHold(AllClaims(ms, refused));
    ClaimsWithin(Live(ms, refused));
    ClaimsWithin(Select(ms, refused, true));
    SelectWithin(ms, refused, false);
    SelectWithin(ms, refused, true);
    forall n, u | n in g.needs && u in g.needs[n] ensures u in g.nodes {
      var i :| 0 <= i < |ms| && Ids(ms)[i] == n;
      ResolveMember(ms, held, start, ms[i]);
      var k :| 0 <= k < |g.needs[n]| && g.needs[n][k] == u;
      var p := held[ms[i].consumes[k].name].member;
      assert p in ms;
      var j :| 0 <= j < |ms| && ms[j] == p;
      assert Ids(ms)[j] == u;
    }
  }
}
