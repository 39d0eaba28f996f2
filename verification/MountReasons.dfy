/** Why the mount order fails each Plugin, told from the listing and the Plugins already
    refused alone. */
module MountReasons {
  import opened Sequences
  import opened Wrappers

  import opened MountGraph
  import opened Plugins
  import opened Resolution

  // ---- who offers a service ------------------------------------------------------------

  /** The `j`th offer of the `i`th member is service `s`. */
  predicate OfferAt(ms: seq<Member>, i: int, j: int, s: string) {
    0 <= i < |ms| && 0 <= j < |ms[i].offers| && ms[i].offers[j].name == s
  }

  /** The same, of a member that is refused, or of one that is not. */
  predicate OfferOf(ms: seq<Member>, refused: set<string>, isRefused: bool, i: int, j: int, s: string) {
    OfferAt(ms, i, j, s) && (ms[i].packageId in refused) == isRefused
  }

  predicate Earlier(a: int, b: int, i: int, j: int) {
    a < i || (a == i && b < j)
  }

  /** The first of those offers of `s`. */
  ghost predicate FirstOffer(ms: seq<Member>, refused: set<string>, isRefused: bool, i: int, j: int, s: string) {
    && OfferOf(ms, refused, isRefused, i, j, s)
    && forall a, b :: OfferOf(ms, refused, isRefused, a, b, s) ==> !Earlier(a, b, i, j)
  }

  ghost predicate SomeoneOffers(ms: seq<Member>, s: string) {
    exists i, j :: OfferAt(ms, i, j, s)
  }

  ghost predicate Offered(ms: seq<Member>, refused: set<string>, isRefused: bool, s: string) {
    exists i, j :: OfferOf(ms, refused, isRefused, i, j, s)
  }

  /** Who is read as providing `s`: the first to offer it of those not refused, and of the
      refused only when no other does. */
  ghost predicate Provides(ms: seq<Member>, refused: set<string>, i: int, j: int, s: string) {
    FirstOffer(ms, refused, !Offered(ms, refused, false, s), i, j, s)
  }

  /** The `j`th offer of the `i`th member comes after `holder`'s, the first to offer it, neither refused. */
  ghost predicate LateAt(ms: seq<Member>, refused: set<string>, i: int, j: int, s: string, holder: string) {
    && OfferOf(ms, refused, false, i, j, s)
    && exists a, b ::
         FirstOffer(ms, refused, false, a, b, s) && ms[a].packageId == holder && Earlier(a, b, i, j)
  }

  ghost predicate Late(ms: seq<Member>, refused: set<string>, n: string, s: string, holder: string) {
    exists i, j :: LateAt(ms, refused, i, j, s, holder) && ms[i].packageId == n
  }

  // ---- from offers to claims -----------------------------------------------------------

  /** The `j`th offer of `m` is its first of `s`, which no claim before it is on. */
  predicate FirstClaim(cs: seq<Claim>, m: Member, j: int, s: string) {
    && 0 <= j < |m.offers| && m.offers[j].name == s && s !in Providers(cs)
    && forall b :: 0 <= b < j ==> m.offers[b].name != s
  }

  /** What the first `n` offers of `m` add to the claims made before. */
  lemma {:induction false} OffersHold(cs: seq<Claim>, m: Member, n: nat, s: string)
    requires n <= |m.offers|
    ensures s in Providers(cs) ==>
      s in Providers(cs + ClaimsOf(m)[..n]) && Providers(cs + ClaimsOf(m)[..n])[s] == Providers(cs)[s]
    ensures s in Providers(cs + ClaimsOf(m)[..n]) <==>
      s in Providers(cs) || exists j :: 0 <= j < n && m.offers[j].name == s
    ensures forall j :: j < n && FirstClaim(cs, m, j, s) ==>
      Providers(cs + ClaimsOf(m)[..n])[s] == Claim(m, m.offers[j])
  {
    if n == 0 {
      assert cs + ClaimsOf(m)[..0] == cs;
    } else {
      OffersHold(cs, m, n - 1, s);
      OfferHolds(cs, m, n - 1);
      if s in Providers(cs + ClaimsOf(m)[..n]) && s !in Providers(cs + ClaimsOf(m)[..n - 1]) {
        assert m.offers[n - 1].name == s;
      }
    }
  }

  lemma OfferHolds(cs: seq<Claim>, m: Member, j: nat)
    requires j < |m.offers|
    ensures var held := Providers(cs + ClaimsOf(m)[..j]);
      Providers(cs + ClaimsOf(m)[..j + 1]) ==
      if m.offers[j].name in held then held else held[m.offers[j].name := Claim(m, m.offers[j])]
  {
    var more := cs + ClaimsOf(m)[..j + 1];
    assert more[..|more| - 1] == cs + ClaimsOf(m)[..j] && more[|more| - 1] == Claim(m, m.offers[j]);
  }

  ghost function ClaimsBefore(ms: seq<Member>, refused: set<string>, isRefused: bool, n: nat): seq<Claim>
    requires n <= |ms|
  {
    Claims(Select(ms[..n], refused, isRefused))
  }

  lemma ClaimsNext(ms: seq<Member>, refused: set<string>, isRefused: bool, n: nat)
    requires n < |ms|
    ensures ClaimsBefore(ms, refused, isRefused, n + 1) ==
      ClaimsBefore(ms, refused, isRefused, n)
      + if (ms[n].packageId in refused) == isRefused then ClaimsOf(ms[n])[..|ms[n].offers|] else []
  {
    ClaimsPrefix(ms, n, refused, isRefused);
    assert ClaimsOf(ms[n])[..|ms[n].offers|] == ClaimsOf(ms[n]);
  }

  ghost predicate OfferedBefore(ms: seq<Member>, refused: set<string>, isRefused: bool, n: int, s: string) {
    exists i, j :: i < n && OfferOf(ms, refused, isRefused, i, j, s)
  }

  lemma OfferedNext(ms: seq<Member>, refused: set<string>, isRefused: bool, n: nat, s: string)
    requires n < |ms|
    ensures OfferedBefore(ms, refused, isRefused, n + 1, s) <==>
      || OfferedBefore(ms, refused, isRefused, n, s)
      || ((ms[n].packageId in refused) == isRefused
          && exists j :: 0 <= j < |ms[n].offers| && ms[n].offers[j].name == s)
  {
    if (ms[n].packageId in refused) == isRefused {
      if j :| 0 <= j < |ms[n].offers| && ms[n].offers[j].name == s {
        assert OfferOf(ms, refused, isRefused, n, j, s);
      }
    }
  }

  lemma {:induction false} HeldIfOffered(ms: seq<Member>, refused: set<string>, isRefused: bool, n: nat, s: string)
    requires n <= |ms|
    ensures s in Providers(ClaimsBefore(ms, refused, isRefused, n)) <==> OfferedBefore(ms, refused, isRefused, n, s)
  {
    if n == 0 {
      assert ms[..0] == [];
    } else {
      HeldIfOffered(ms, refused, isRefused, n - 1, s);
      OfferedNext(ms, refused, isRefused, n - 1, s);
      ClaimsNext(ms, refused, isRefused, n - 1);
      var cs := ClaimsBefore(ms, refused, isRefused, n - 1);
      assert cs + [] == cs;
      OffersHold(cs, ms[n - 1], |ms[n - 1].offers|, s);
    }
  }

  /** The claims of the first `n` members hold each service for the first to offer it. */
  lemma {:induction false} HeldByFirst(ms: seq<Member>, refused: set<string>, isRefused: bool, n: nat, i: int, j: int,
                                       s: string)
    requires i < n <= |ms| && FirstOffer(ms, refused, isRefused, i, j, s)
    ensures s in Providers(ClaimsBefore(ms, refused, isRefused, n))
    ensures Providers(ClaimsBefore(ms, refused, isRefused, n))[s] == Claim(ms[i], ms[i].offers[j])
  {
    assert OfferedBefore(ms, refused, isRefused, n, s);
    HeldIfOffered(ms, refused, isRefused, n, s);
    ClaimsNext(ms, refused, isRefused, n - 1);
    var cs := ClaimsBefore(ms, refused, isRefused, n - 1);
    assert cs + [] == cs;
    OffersHold(cs, ms[n - 1], |ms[n - 1].offers|, s);
    if i < n - 1 {
      HeldByFirst(ms, refused, isRefused, n - 1, i, j, s);
    } else {
      FirstOfMember(ms, refused, isRefused, i, j, s);
      HeldIfOffered(ms, refused, isRefused, i, s);
      assert FirstClaim(cs, ms[i], j, s);
    }
  }

  lemma FirstOfMember(ms: seq<Member>, refused: set<string>, isRefused: bool, i: int, j: int, s: string)
    requires FirstOffer(ms, refused, isRefused, i, j, s)
    ensures forall b :: 0 <= b < j ==> ms[i].offers[b].name != s
    ensures forall a, b :: OfferOf(ms, refused, isRefused, a, b, s) ==> a >= i
  {
    forall b | 0 <= b < j ensures ms[i].offers[b].name != s {
      assert OfferOf(ms, refused, isRefused, i, b, s) ==> !Earlier(i, b, i, j);
    }
    forall a, b | OfferOf(ms, refused, isRefused, a, b, s) ensures a >= i {
      assert !Earlier(a, b, i, j);
    }
  }

  lemma {:induction false} FirstOfOffers(m: Member, s: string, n: nat) returns (j: int)
    requires n <= |m.offers| && exists b :: 0 <= b < n && m.offers[b].name == s
    ensures 0 <= j < n && m.offers[j].name == s && forall b :: 0 <= b < j ==> m.offers[b].name != s
  {
    if b :| 0 <= b < n - 1 && m.offers[b].name == s {
      j := FirstOfOffers(m, s, n - 1);
    } else {
      j := n - 1;
    }
  }

  lemma {:induction false} FirstExists(ms: seq<Member>, refused: set<string>, isRefused: bool, s: string, n: nat)
    returns (i: int, j: int)
    requires n <= |ms| && exists a, b :: a < n && OfferOf(ms, refused, isRefused, a, b, s)
    ensures i < n && FirstOffer(ms, refused, isRefused, i, j, s)
  {
    if a, b :| a < n - 1 && OfferOf(ms, refused, isRefused, a, b, s) {
      i, j := FirstExists(ms, refused, isRefused, s, n - 1);
    } else {
      i := n - 1;
      var a, b :| a < n && OfferOf(ms, refused, isRefused, a, b, s);
      j := FirstOfOffers(ms[i], s, |ms[i].offers|);
      assert OfferOf(ms, refused, isRefused, i, j, s);
    }
  }

  lemma FirstIsOne(ms: seq<Member>, refused: set<string>, isRefused: bool, i: int, j: int, a: int, b: int, s: string)
    requires FirstOffer(ms, refused, isRefused, i, j, s) && FirstOffer(ms, refused, isRefused, a, b, s)
    ensures i == a && j == b
  {
    assert !Earlier(a, b, i, j) && !Earlier(i, j, a, b);
  }

  lemma {:induction false} LeftOver(a: seq<Claim>, b: seq<Claim>, s: string)
    requires s !in Providers(a)
    ensures s in Providers(a + b) <==> s in Providers(b)
    ensures s in Providers(b) ==> Providers(a + b)[s] == Providers(b)[s]
    decreases |b|
  {
    if b == [] {
      assert a + b == a;
    } else {
      LeftOver(a, b[..|b| - 1], s);
      assert (a + b)[..|a + b| - 1] == a + b[..|b| - 1];
    }
  }

  lemma AllBefore(ms: seq<Member>, refused: set<string>)
    ensures Claims(Live(ms, refused)) == ClaimsBefore(ms, refused, false, |ms|)
    ensures AllClaims(ms, refused) == ClaimsBefore(ms, refused, false, |ms|) + ClaimsBefore(ms, refused, true, |ms|)
  {
    assert ms[..|ms|] == ms;
  }

  lemma WholeOffered(ms: seq<Member>, refused: set<string>, isRefused: bool, s: string)
    ensures s in Providers(ClaimsBefore(ms, refused, isRefused, |ms|)) <==> Offered(ms, refused, isRefused, s)
  {
    HeldIfOffered(ms, refused, isRefused, |ms|, s);
    if i, j :| OfferOf(ms, refused, isRefused, i, j, s) {
      assert i < |ms|;
    }
  }

  /** The provider read for a service is the one the listing gives. */
  lemma ProviderTold(ms: seq<Member>, refused: set<string>, s: string)
    ensures s in Providers(AllClaims(ms, refused)) <==>
      Offered(ms, refused, false, s) || Offered(ms, refused, true, s)
    ensures forall i, j :: Provides(ms, refused, i, j, s) ==>
      s in Providers(AllClaims(ms, refused)) && Providers(AllClaims(ms, refused))[s] == Claim(ms[i], ms[i].offers[j])
  {
    var a, b := ClaimsBefore(ms, refused, false, |ms|), ClaimsBefore(ms, refused, true, |ms|);
    AllBefore(ms, refused);
    WholeOffered(ms, refused, false, s);
    WholeOffered(ms, refused, true, s);
    forall i, j | Provides(ms, refused, i, j, s)
      ensures s in Providers(a + b) && Providers(a + b)[s] == Claim(ms[i], ms[i].offers[j])
    {
      HeldByFirst(ms, refused, !Offered(ms, refused, false, s), |ms|, i, j, s);
      ProvidersAppend(a, b);
      if s !in Providers(a) {
        LeftOver(a, b, s);
      }
    }
    ProvidersAppend(a, b);
    if s !in Providers(a) {
      LeftOver(a, b, s);
    }
  }

  lemma ProviderFound(ms: seq<Member>, refused: set<string>, s: string) returns (i: int, j: int)
    requires s in Providers(AllClaims(ms, refused))
    ensures Provides(ms, refused, i, j, s)
    ensures Providers(AllClaims(ms, refused))[s] == Claim(ms[i], ms[i].offers[j])
  {
    ProviderTold(ms, refused, s);
    var isRefused := !Offered(ms, refused, false, s);
    var a, b :| OfferOf(ms, refused, isRefused, a, b, s);
    i, j := FirstExists(ms, refused, isRefused, s, |ms|);
  }

  // ---- who comes late ------------------------------------------------------------------

  /** The failure of the `j`th offer of `m`, made after the claims `cs`. */
  ghost predicate LateClaim(cs: seq<Claim>, m: Member, j: int, f: Failure) {
    && 0 <= j < |m.offers|
    && var before := Providers(cs + ClaimsOf(m)[..j]);
       var s := m.offers[j].name;
       && s in before
       && f == Failure(m.packageId, Resolve, AlreadyProvided(s, before[s].member.packageId))
  }

  ghost predicate SomeLate(cs: seq<Claim>, m: Member, n: int, f: Failure) {
    exists j :: j < n && LateClaim(cs, m, j, f)
  }

  lemma {:induction false} OffersDisplaced(cs: seq<Claim>, m: Member, n: nat, f: Failure)
    requires n <= |m.offers|
    ensures f in Displacements(cs + ClaimsOf(m)[..n]) <==> f in Displacements(cs) || SomeLate(cs, m, n, f)
  {
    if n == 0 {
      assert cs + ClaimsOf(m)[..0] == cs;
    } else {
      OffersDisplaced(cs, m, n - 1, f);
      OfferDisplaced(cs, m, n - 1, f);
      assert SomeLate(cs, m, n, f) <==> SomeLate(cs, m, n - 1, f) || LateClaim(cs, m, n - 1, f);
    }
  }

  lemma OfferDisplaced(cs: seq<Claim>, m: Member, j: nat, f: Failure)
    requires j < |m.offers|
    ensures f in Displacements(cs + ClaimsOf(m)[..j + 1]) <==>
      f in Displacements(cs + ClaimsOf(m)[..j]) || LateClaim(cs, m, j, f)
  {
    var more := cs + ClaimsOf(m)[..j + 1];
    assert more[..|more| - 1] == cs + ClaimsOf(m)[..j] && more[|more| - 1] == Claim(m, m.offers[j]);
  }

  /** The failure says what the listing says of the `j`th offer of the `i`th member. */
  ghost predicate LateFailure(ms: seq<Member>, refused: set<string>, i: int, j: int, f: Failure) {
    && f.reason.AlreadyProvided? && f.phase == Resolve
    && LateAt(ms, refused, i, j, f.reason.service, f.reason.holder) && f.pluginId == ms[i].packageId
  }

  lemma LateSame(ms: seq<Member>, refused: set<string>, i: int, j: int, f: Failure)
    requires 0 <= i < |ms| && ms[i].packageId !in refused
    ensures LateClaim(ClaimsBefore(ms, refused, false, i), ms[i], j, f) <==> LateFailure(ms, refused, i, j, f)
  {
    if 0 <= j < |ms[i].offers| {
      var s := ms[i].offers[j].name;
      var cs := ClaimsBefore(ms, refused, false, i);
      HeldIfOffered(ms, refused, false, i, s);
      OffersHold(cs, ms[i], j, s);
      assert OfferOf(ms, refused, false, i, j, s);
      var a, b := FirstExists(ms, refused, false, s, i + 1);
      if a < i {
        HeldByFirst(ms, refused, false, i, a, b, s);
        assert Earlier(a, b, i, j);
      } else {
        FirstOfMember(ms, refused, false, a, b, s);
        assert FirstClaim(cs, ms[i], b, s);
      }
      if LateFailure(ms, refused, i, j, f) {
        var c, d :| FirstOffer(ms, refused, false, c, d, s) && ms[c].packageId == f.reason.holder
                    && Earlier(c, d, i, j);
        FirstIsOne(ms, refused, false, a, b, c, d, s);
      }
    }
  }

  ghost predicate SomeLateBefore(ms: seq<Member>, refused: set<string>, n: int, f: Failure) {
    exists i, j :: i < n && LateFailure(ms, refused, i, j, f)
  }

  lemma MemberLate(ms: seq<Member>, refused: set<string>, i: nat, f: Failure)
    requires i < |ms| && ms[i].packageId !in refused
    ensures SomeLateBefore(ms, refused, i + 1, f) <==>
      SomeLateBefore(ms, refused, i, f)
      || SomeLate(ClaimsBefore(ms, refused, false, i), ms[i], |ms[i].offers|, f)
  {
    var cs := ClaimsBefore(ms, refused, false, i);
    if j :| j < |ms[i].offers| && LateClaim(cs, ms[i], j, f) {
      LateSame(ms, refused, i, j, f);
    }
    if a, j :| a < i + 1 && LateFailure(ms, refused, a, j, f) {
      if a == i {
        LateSame(ms, refused, i, j, f);
      }
    }
  }

  lemma {:induction false} LateTold(ms: seq<Member>, refused: set<string>, n: nat, f: Failure)
    requires n <= |ms|
    ensures f in Displacements(ClaimsBefore(ms, refused, false, n)) <==> SomeLateBefore(ms, refused, n, f)
  {
    if n == 0 {
      assert ms[..0] == [];
    } else {
      LateTold(ms, refused, n - 1, f);
      ClaimsNext(ms, refused, false, n - 1);
      var cs := ClaimsBefore(ms, refused, false, n - 1);
      if ms[n - 1].packageId in refused {
        assert cs + [] == cs;
        assert SomeLateBefore(ms, refused, n, f) <==> SomeLateBefore(ms, refused, n - 1, f);
      } else {
        OffersDisplaced(cs, ms[n - 1], |ms[n - 1].offers|, f);
        MemberLate(ms, refused, n - 1, f);
      }
    }
  }

  /** A failure for a late offer is named exactly as the listing has it. */
  lemma DisplacementsTold(ms: seq<Member>, refused: set<string>, f: Failure)
    ensures f in Displacements(Claims(Live(ms, refused))) <==>
      && f.phase == Resolve && f.reason.AlreadyProvided?
      && Late(ms, refused, f.pluginId, f.reason.service, f.reason.holder)
  {
    AllBefore(ms, refused);
    LateTold(ms, refused, |ms|, f);
    if SomeLateBefore(ms, refused, |ms|, f) {
      var i, j :| i < |ms| && LateFailure(ms, refused, i, j, f);
      assert LateAt(ms, refused, i, j, f.reason.service, f.reason.holder);
    }
    if f.phase == Resolve && f.reason.AlreadyProvided?
       && Late(ms, refused, f.pluginId, f.reason.service, f.reason.holder) {
      var i, j :| LateAt(ms, refused, i, j, f.reason.service, f.reason.holder) && ms[i].packageId == f.pluginId;
      assert LateFailure(ms, refused, i, j, f);
    }
  }

  // ---- whose needs are not met ---------------------------------------------------------

  /** Resolution failed the Plugin for a service it consumes. */
  ghost predicate Unresolved(failures: seq<Failure>, n: string) {
    exists f :: f in failures && f.pluginId == n && (f.reason.NothingProvides? || f.reason.WrongVersion?)
  }

  /** Out when the `i`th member is resolved: refused, late with an offer, or failed earlier in the list. */
  ghost predicate OutBefore(ms: seq<Member>, refused: set<string>, failures: seq<Failure>, i: int, n: string) {
    || n in refused
    || (exists s, h :: Late(ms, refused, n, s, h))
    || exists a :: 0 <= a < i && a < |ms| && ms[a].packageId == n && Unresolved(failures, n)
  }

  /** The `k`th service the `i`th member consumes is provided: by a Plugin that is out, which
      is left to the ordering, or at the version it names. */
  ghost predicate Met(ms: seq<Member>, refused: set<string>, failures: seq<Failure>, i: int, k: int)
    requires 0 <= i < |ms| && 0 <= k < |ms[i].consumes|
  {
    exists a, b ::
      && Provides(ms, refused, a, b, ms[i].consumes[k].name)
      && (OutBefore(ms, refused, failures, i, ms[a].packageId) || ms[a].offers[b].version == ms[i].consumes[k].version)
  }

  /** Or it is not, for this reason. */
  ghost predicate Unmet(ms: seq<Member>, refused: set<string>, failures: seq<Failure>, i: int, k: int, why: Reason)
    requires 0 <= i < |ms| && 0 <= k < |ms[i].consumes|
  {
    var s := ms[i].consumes[k];
    || (why == NothingProvides(s.name) && !SomeoneOffers(ms, s.name))
    || exists a, b ::
         && Provides(ms, refused, a, b, s.name) && !OutBefore(ms, refused, failures, i, ms[a].packageId)
         && ms[a].offers[b].version != s.version && why == WrongVersion(s.name, ms[a].packageId)
  }

  /** The first unmet need of the `i`th member, which is neither refused nor late, is for this reason. */
  ghost predicate FailsFor(ms: seq<Member>, refused: set<string>, failures: seq<Failure>, i: int, why: Reason)
    requires 0 <= i < |ms|
  {
    && !OutBefore(ms, refused, failures, 0, ms[i].packageId)
    && exists k :: 0 <= k < |ms[i].consumes| && Unmet(ms, refused, failures, i, k, why)
         && forall b :: 0 <= b < k ==> Met(ms, refused, failures, i, b)
  }

  /** The `i`th member is neither refused nor late, and all its needs are met. */
  ghost predicate Resolves(ms: seq<Member>, refused: set<string>, failures: seq<Failure>, i: int)
    requires 0 <= i < |ms|
  {
    && !OutBefore(ms, refused, failures, 0, ms[i].packageId)
    && forall k :: 0 <= k < |ms[i].consumes| ==> Met(ms, refused, failures, i, k)
  }

  // ---- from verdicts to needs ----------------------------------------------------------

  predicate Meets(held: map<string, Claim>, excluded: set<string>, s: Service) {
    s.name in held && (held[s.name].member.packageId in excluded || held[s.name].service.version == s.version)
  }

  predicate Misses(held: map<string, Claim>, excluded: set<string>, s: Service, why: Reason) {
    if s.name !in held then why == NothingProvides(s.name)
    else
      && held[s.name].member.packageId !in excluded && held[s.name].service.version != s.version
      && why == WrongVersion(s.name, held[s.name].member.packageId)
  }

  ghost predicate MissesFirst(held: map<string, Claim>, excluded: set<string>, m: Member, j: int, why: Reason) {
    exists k :: 0 <= j <= k < |m.consumes| && Misses(held, excluded, m.consumes[k], why)
      && forall b :: j <= b < k ==> Meets(held, excluded, m.consumes[b])
  }

  lemma {:induction false} VerdictTold(held: map<string, Claim>, excluded: set<string>, m: Member, j: nat, why: Reason)
    requires j <= |m.consumes|
    ensures Verdict(held, excluded, m, j) == Some(why) <==> MissesFirst(held, excluded, m, j, why)
    ensures Verdict(held, excluded, m, j) == None <==>
      forall k :: j <= k < |m.consumes| ==> Meets(held, excluded, m.consumes[k])
    decreases |m.consumes| - j
  {
    if j < |m.consumes| {
      VerdictTold(held, excluded, m, j + 1, why);
      if Meets(held, excluded, m.consumes[j]) {
        assert MissesFirst(held, excluded, m, j, why) <==> MissesFirst(held, excluded, m, j + 1, why);
      } else if Misses(held, excluded, m.consumes[j], why) {
        assert MissesFirst(held, excluded, m, j, why);
      }
    }
  }

  // ---- along the list ------------------------------------------------------------------

  ghost function UpTo(ms: seq<Member>, refused: set<string>, i: nat): Resolved
    requires i <= |ms|
  {
    ResolveAll(ms[..i], Providers(AllClaims(ms, refused)), refused + Displaced(Claims(Live(ms, refused))))
  }

  lemma UpToNext(ms: seq<Member>, refused: set<string>, i: nat)
    requires i < |ms|
    ensures var held, r := Providers(AllClaims(ms, refused)), UpTo(ms, refused, i);
      var why := Verdict(held, r.excluded, ms[i], 0);
      UpTo(ms, refused, i + 1).failures ==
      r.failures +
      if ms[i].packageId in r.excluded || why == None then [] else [Failure(ms[i].packageId, Resolve, why.value)]
  {
    assert ms[..i + 1][..i] == ms[..i];
  }

  lemma UpToShape(ms: seq<Member>, refused: set<string>, i: nat)
    requires i <= |ms| && Distinct(Ids(ms))
    ensures var start := refused + Displaced(Claims(Live(ms, refused)));
      && UpTo(ms, refused, i).excluded == start + Elems(Named(UpTo(ms, refused, i).failures))
    ensures forall f :: f in UpTo(ms, refused, i).failures ==> f.pluginId in Ids(ms)[..i]
  {
    assert Ids(ms[..i]) == Ids(ms)[..i];
    var start := refused + Displaced(Claims(Live(ms, refused)));
    var r := UpTo(ms, refused, i);
    ResolveShape(ms[..i], Providers(AllClaims(ms, refused)), start);
    forall f | f in r.failures ensures f.pluginId in Ids(ms)[..i] {
      NamedHolds(r.failures, f);
      assert f.pluginId in r.excluded - start;
    }
  }

  lemma NamedHolds(fs: seq<Failure>, f: Failure)
    requires f in fs
    ensures f.pluginId in Elems(Named(fs))
  {
    var i :| 0 <= i < |fs| && fs[i] == f;
    assert Named(fs)[i] == f.pluginId;
  }

  lemma NameHeld(fs: seq<Failure>, n: string) returns (f: Failure)
    requires n in Elems(Named(fs))
    ensures f in fs && f.pluginId == n
  {
    var i :| 0 <= i < |fs| && Named(fs)[i] == n;
    f := fs[i];
  }

  /** The failure of the `i`th member is made when it is resolved, or never. */
  lemma {:induction false} MadeThere(ms: seq<Member>, refused: set<string>, i: nat, n: nat, f: Failure)
    requires i < n <= |ms| && Distinct(Ids(ms)) && f.pluginId == ms[i].packageId
    ensures f in UpTo(ms, refused, n).failures <==> f in UpTo(ms, refused, i + 1).failures
    decreases n
  {
    if i + 1 < n {
      MadeThere(ms, refused, i, n - 1, f);
      UpToNext(ms, refused, n - 1);
      assert Ids(ms)[i] != Ids(ms)[n - 1];
    }
  }

  lemma NotBefore(ms: seq<Member>, refused: set<string>, i: nat)
    requires i < |ms| && Distinct(Ids(ms))
    ensures ms[i].packageId !in Elems(Named(UpTo(ms, refused, i).failures))
  {
    UpToShape(ms, refused, i);
    var fs := UpTo(ms, refused, i).failures;
    forall k | 0 <= k < |fs| ensures Named(fs)[k] != ms[i].packageId {
      assert fs[k] in fs;
    }
  }

  ghost predicate IsOut(ms: seq<Member>, refused: set<string>, n: string) {
    n in refused + Displaced(Claims(Live(ms, refused)))
  }

  /** What resolution says of the `i`th member. */
  lemma ResolutionTold(ms: seq<Member>, refused: set<string>, i: nat, f: Failure)
    requires i < |ms| && Distinct(Ids(ms)) && f.pluginId == ms[i].packageId
    ensures f in ResolutionOf(ms, refused).failures <==>
      && f.phase == Resolve && !IsOut(ms, refused, f.pluginId)
      && Verdict(Providers(AllClaims(ms, refused)), UpTo(ms, refused, i).excluded, ms[i], 0) == Some(f.reason)
  {
    assert ms[..|ms|] == ms;
    MadeThere(ms, refused, i, |ms|, f);
    UpToNext(ms, refused, i);
    UpToShape(ms, refused, i);
    NotBefore(ms, refused, i);
    if f in UpTo(ms, refused, i).failures {
      NamedHolds(UpTo(ms, refused, i).failures, f);
    }
  }

  /** The failures of a run: the late, the unresolved, and those of the ordering pass. */
  ghost predicate Parts(ms: seq<Member>, refused: set<string>, ordering: seq<Failure>, failures: seq<Failure>) {
    && failures == Displacements(Claims(Live(ms, refused))) + ResolutionOf(ms, refused).failures + ordering
    && OfOrdering(ordering)
  }

  predicate OfOrdering(failures: seq<Failure>) {
    forall f :: f in failures ==> f.phase == Resolve && (f.reason == ServiceCycle || f.reason == UpstreamNotMounted)
  }

  lemma {:induction false} ResolutionReasons(ms: seq<Member>, held: map<string, Claim>, start: set<string>)
    ensures forall f :: f in ResolveAll(ms, held, start).failures ==>
      f.phase == Resolve && (f.reason.NothingProvides? || f.reason.WrongVersion?)
    decreases |ms|
  {
    if ms != [] {
      ResolutionReasons(ms[..|ms| - 1], held, start);
      var m, r := ms[|ms| - 1], ResolveAll(ms[..|ms| - 1], held, start);
      var why := Verdict(held, r.excluded, m, 0);
      if why.Some? {
        VerdictTold(held, r.excluded, m, 0, why.value);
      }
    }
  }

  lemma PartOf(ms: seq<Member>, refused: set<string>, ordering: seq<Failure>, failures: seq<Failure>, f: Failure)
    requires Parts(ms, refused, ordering, failures)
    ensures f in failures ==> f.phase == Resolve
    ensures f in failures && f.reason.AlreadyProvided? <==>
      f in Displacements(Claims(Live(ms, refused))) && f.reason.AlreadyProvided?
    ensures f in failures && (f.reason.NothingProvides? || f.reason.WrongVersion?) <==>
      f in ResolutionOf(ms, refused).failures
    ensures f in failures && (f.reason == ServiceCycle || f.reason == UpstreamNotMounted) <==> f in ordering
    ensures f in failures ==>
      || f.reason.AlreadyProvided? || f.reason.NothingProvides? || f.reason.WrongVersion?
      || f.reason == ServiceCycle || f.reason == UpstreamNotMounted
  {
    DisplacementsTold(ms, refused, f);
    ResolutionReasons(ms, Providers(AllClaims(ms, refused)), refused + Displaced(Claims(Live(ms, refused))));
  }

  lemma LateIsDisplaced(ms: seq<Member>, refused: set<string>, n: string)
    ensures n in Displaced(Claims(Live(ms, refused))) <==> exists s, h :: Late(ms, refused, n, s, h)
  {
    var fs := Displacements(Claims(Live(ms, refused)));
    if n in Displaced(Claims(Live(ms, refused))) {
      var f := NameHeld(fs, n);
      DisplacementsTold(ms, refused, f);
    }
    if s, h :| Late(ms, refused, n, s, h) {
      DisplacementsTold(ms, refused, Failure(n, Resolve, AlreadyProvided(s, h)));
      NamedHolds(fs, Failure(n, Resolve, AlreadyProvided(s, h)));
    }
  }

  lemma UnresolvedTold(ms: seq<Member>, refused: set<string>, ordering: seq<Failure>, failures: seq<Failure>, n: string)
    requires Parts(ms, refused, ordering, failures)
    ensures Unresolved(failures, n) <==> n in Elems(Named(ResolutionOf(ms, refused).failures))
  {
    if Unresolved(failures, n) {
      var f :| f in failures && f.pluginId == n && (f.reason.NothingProvides? || f.reason.WrongVersion?);
      PartOf(ms, refused, ordering, failures, f);
      NamedHolds(ResolutionOf(ms, refused).failures, f);
    }
    if n in Elems(Named(ResolutionOf(ms, refused).failures)) {
      var f := NameHeld(ResolutionOf(ms, refused).failures, n);
      PartOf(ms, refused, ordering, failures, f);
    }
  }

  /** Who is out when the `i`th member is resolved. */
  lemma OutTold(ms: seq<Member>, refused: set<string>, ordering: seq<Failure>, failures: seq<Failure>, i: nat,
                n: string)
    requires i <= |ms| && Distinct(Ids(ms)) && Parts(ms, refused, ordering, failures)
    ensures OutBefore(ms, refused, failures, i, n) <==> n in UpTo(ms, refused, i).excluded
  {
    LateIsDisplaced(ms, refused, n);
    UnresolvedTold(ms, refused, ordering, failures, n);
    UpToShape(ms, refused, i);
    var named := Elems(Named(UpTo(ms, refused, i).failures));
    assert ms[..|ms|] == ms;
    if a :| 0 <= a < i && ms[a].packageId == n && Unresolved(failures, n) {
      var f := NameHeld(ResolutionOf(ms, refused).failures, n);
      MadeThere(ms, refused, a, |ms|, f);
      MadeThere(ms, refused, a, i, f);
      NamedHolds(UpTo(ms, refused, i).failures, f);
    }
    if n in named {
      var f := NameHeld(UpTo(ms, refused, i).failures, n);
      var a :| 0 <= a < i && Ids(ms)[..i][a] == n;
      MadeThere(ms, refused, a, i, f);
      MadeThere(ms, refused, a, |ms|, f);
      NamedHolds(ResolutionOf(ms, refused).failures, f);
    }
  }

  lemma NeedTold(ms: seq<Member>, refused: set<string>, ordering: seq<Failure>, failures: seq<Failure>, i: nat, k: nat)
    requires i < |ms| && k < |ms[i].consumes| && Distinct(Ids(ms)) && Parts(ms, refused, ordering, failures)
    ensures var held, out := Providers(AllClaims(ms, refused)), UpTo(ms, refused, i).excluded;
      Met(ms, refused, failures, i, k) <==> Meets(held, out, ms[i].consumes[k])
  {
    var s := ms[i].consumes[k];
    ProviderTold(ms, refused, s.name);
    if s.name in Providers(AllClaims(ms, refused)) {
      var a, b := ProviderFound(ms, refused, s.name);
      OutTold(ms, refused, ordering, failures, i, ms[a].packageId);
    }
    if Met(ms, refused, failures, i, k) {
      var a, b :| Provides(ms, refused, a, b, s.name)
        && (OutBefore(ms, refused, failures, i, ms[a].packageId) || ms[a].offers[b].version == s.version);
      OutTold(ms, refused, ordering, failures, i, ms[a].packageId);
    }
  }

  lemma NobodyOffers(ms: seq<Member>, refused: set<string>, s: string)
    ensures SomeoneOffers(ms, s) <==> s in Providers(AllClaims(ms, refused))
  {
    ProviderTold(ms, refused, s);
    if a, b :| OfferAt(ms, a, b, s) {
      assert OfferOf(ms, refused, ms[a].packageId in refused, a, b, s);
    }
  }

  lemma LackTold(ms: seq<Member>, refused: set<string>, ordering: seq<Failure>, failures: seq<Failure>, i: nat, k: nat,
                 why: Reason)
    requires i < |ms| && k < |ms[i].consumes| && Distinct(Ids(ms)) && Parts(ms, refused, ordering, failures)
    ensures var held, out := Providers(AllClaims(ms, refused)), UpTo(ms, refused, i).excluded;
      Unmet(ms, refused, failures, i, k, why) <==> Misses(held, out, ms[i].consumes[k], why)
  {
    var s := ms[i].consumes[k];
    ProviderTold(ms, refused, s.name);
    NobodyOffers(ms, refused, s.name);
    if s.name in Providers(AllClaims(ms, refused)) {
      var a, b := ProviderFound(ms, refused, s.name);
      OutTold(ms, refused, ordering, failures, i, ms[a].packageId);
      if Unmet(ms, refused, failures, i, k, why) {
        var c, d :| Provides(ms, refused, c, d, s.name) && !OutBefore(ms, refused, failures, i, ms[c].packageId)
          && ms[c].offers[d].version != s.version && why == WrongVersion(s.name, ms[c].packageId);
        FirstIsOne(ms, refused, !Offered(ms, refused, false, s.name), a, b, c, d, s.name);
      }
    }
  }

  // ---- the whole answer ----------------------------------------------------------------

  /** What each ordering failure of a member that survived resolution says, exactly. */
  ghost predicate StallsReported(g: Graph, order: seq<string>, failures: seq<Failure>)
    requires WellFormed(g)
  {
    forall n :: n in g.needs ==>
      && (Failure(n, Resolve, ServiceCycle) in failures <==> n !in order && !ReachesBarred(g, n) && Reaches(g, n, n))
      && (Failure(n, Resolve, UpstreamNotMounted) in failures <==>
            n !in order && (ReachesBarred(g, n) || !Reaches(g, n, n)))
  }

  /** `g` is the graph of who needs whom: its nodes the listing, its edges from each Plugin
      whose needs are met to their providers, the rest barred. */
  ghost predicate NeedsGraph(ms: seq<Member>, refused: set<string>, failures: seq<Failure>, g: Graph) {
    && g.nodes == Ids(ms)
    && (forall n :: n in g.nodes ==> (n in g.barred <==> n !in g.needs))
    && forall i :: 0 <= i < |ms| ==> NeedsOf(ms, refused, failures, g, i)
  }

  ghost predicate NeedsOf(ms: seq<Member>, refused: set<string>, failures: seq<Failure>, g: Graph, i: int)
    requires 0 <= i < |ms|
  {
    var n := ms[i].packageId;
    && (n in g.needs <==> Resolves(ms, refused, failures, i))
    && (n in g.needs ==>
          && |g.needs[n]| == |ms[i].consumes|
          && forall k :: 0 <= k < |ms[i].consumes| ==> NeedIs(ms, refused, ms[i].consumes[k].name, g.needs[n][k]))
  }

  ghost predicate NeedIs(ms: seq<Member>, refused: set<string>, s: string, u: string) {
    exists a, b :: Provides(ms, refused, a, b, s) && ms[a].packageId == u
  }

  /** Each reason a Plugin of the listing is failed for, exactly: an offer made late, a first
      unmet need, a cycle, or a need of a Plugin that did not mount. */
  ghost predicate Explained(ms: seq<Member>, refused: set<string>, g: Graph, order: seq<string>, failures: seq<Failure>,
                            i: int)
    requires 0 <= i < |ms|
  {
    var n := ms[i].packageId;
    && (forall s, h :: Failure(n, Resolve, AlreadyProvided(s, h)) in failures <==> Late(ms, refused, n, s, h))
    && (forall why: Reason :: why.NothingProvides? || why.WrongVersion? ==>
          (Failure(n, Resolve, why) in failures <==> FailsFor(ms, refused, failures, i, why)))
    && (Failure(n, Resolve, ServiceCycle) in failures <==>
          Resolves(ms, refused, failures, i) && n !in order && !ReachesBarred(g, n) && Reaches(g, n, n))
    && (Failure(n, Resolve, UpstreamNotMounted) in failures <==>
          Resolves(ms, refused, failures, i) && n !in order && (ReachesBarred(g, n) || !Reaches(g, n, n)))
  }

  ghost predicate Explains(ms: seq<Member>, refused: set<string>, g: Graph, order: seq<string>,
                           failures: seq<Failure>)
  {
    && NeedsGraph(ms, refused, failures, g)
    && (forall f :: f in failures ==>
          && f.phase == Resolve
          && (f.reason.AlreadyProvided? || f.reason.NothingProvides? || f.reason.WrongVersion?
              || f.reason == ServiceCycle || f.reason == UpstreamNotMounted))
    && forall i :: 0 <= i < |ms| ==> Explained(ms, refused, g, order, failures, i)
  }

  lemma ResolvesTold(ms: seq<Member>, refused: set<string>, ordering: seq<Failure>, failures: seq<Failure>, i: nat)
    requires i < |ms| && Distinct(Ids(ms)) && Parts(ms, refused, ordering, failures)
    ensures Resolves(ms, refused, failures, i) <==>
      && !IsOut(ms, refused, ms[i].packageId)
      && Verdict(Providers(AllClaims(ms, refused)), UpTo(ms, refused, i).excluded, ms[i], 0) == None
  {
    OutTold(ms, refused, ordering, failures, 0, ms[i].packageId);
    assert ms[..0] == [];
    VerdictTold(Providers(AllClaims(ms, refused)), UpTo(ms, refused, i).excluded, ms[i], 0, UpstreamNotMounted);
    forall k | 0 <= k < |ms[i].consumes|
      ensures Met(ms, refused, failures, i, k)
        <==> Meets(Providers(AllClaims(ms, refused)), UpTo(ms, refused, i).excluded, ms[i].consumes[k])
    {
      NeedTold(ms, refused, ordering, failures, i, k);
    }
  }

  lemma FailsTold(ms: seq<Member>, refused: set<string>, ordering: seq<Failure>, failures: seq<Failure>, i: nat,
                  why: Reason)
    requires i < |ms| && Distinct(Ids(ms)) && Parts(ms, refused, ordering, failures)
    requires why.NothingProvides? || why.WrongVersion?
    ensures Failure(ms[i].packageId, Resolve, why) in failures <==> FailsFor(ms, refused, failures, i, why)
  {
    var f := Failure(ms[i].packageId, Resolve, why);
    var held, out := Providers(AllClaims(ms, refused)), UpTo(ms, refused, i).excluded;
    PartOf(ms, refused, ordering, failures, f);
    ResolutionTold(ms, refused, i, f);
    OutTold(ms, refused, ordering, failures, 0, ms[i].packageId);
    assert ms[..0] == [];
    VerdictTold(held, out, ms[i], 0, why);
    forall k | 0 <= k < |ms[i].consumes|
      ensures Met(ms, refused, failures, i, k) <==> Meets(held, out, ms[i].consumes[k])
      ensures Unmet(ms, refused, failures, i, k, why) <==> Misses(held, out, ms[i].consumes[k], why)
    {
      NeedTold(ms, refused, ordering, failures, i, k);
      LackTold(ms, refused, ordering, failures, i, k, why);
    }
    if MissesFirst(held, out, ms[i], 0, why) {
      var k :| 0 <= k < |ms[i].consumes| && Misses(held, out, ms[i].consumes[k], why)
        && forall b :: 0 <= b < k ==> Meets(held, out, ms[i].consumes[b]);
      assert Unmet(ms, refused, failures, i, k, why);
    }
    if FailsFor(ms, refused, failures, i, why) {
      var k :| 0 <= k < |ms[i].consumes| && Unmet(ms, refused, failures, i, k, why)
        && forall b :: 0 <= b < k ==> Met(ms, refused, failures, i, b);
      assert Misses(held, out, ms[i].consumes[k], why);
    }
  }

  lemma LateExplained(ms: seq<Member>, refused: set<string>, ordering: seq<Failure>, failures: seq<Failure>, n: string,
                      s: string, h: string)
    requires Parts(ms, refused, ordering, failures)
    ensures Failure(n, Resolve, AlreadyProvided(s, h)) in failures <==> Late(ms, refused, n, s, h)
  {
    PartOf(ms, refused, ordering, failures, Failure(n, Resolve, AlreadyProvided(s, h)));
    DisplacementsTold(ms, refused, Failure(n, Resolve, AlreadyProvided(s, h)));
  }

  lemma NeedsTold(ms: seq<Member>, refused: set<string>, ordering: seq<Failure>, failures: seq<Failure>, i: nat)
    requires i < |ms| && Distinct(Ids(ms)) && Parts(ms, refused, ordering, failures)
    ensures NeedsOf(ms, refused, failures, ResolvedGraph(ms, refused), i)
  {
    var held, start := Providers(AllClaims(ms, refused)), refused + Displaced(Claims(Live(ms, refused)));
    var g, m := ResolvedGraph(ms, refused), ms[i];
    ResolvesTold(ms, refused, ordering, failures, i);
    ResolveMember(ms, held, start, m);
    ResolveShape(ms, held, start);
    ResolvedOrFailed(ms, refused, i);
    if m.packageId in g.needs {
      forall k | 0 <= k < |m.consumes| ensures NeedIs(ms, refused, m.consumes[k].name, g.needs[m.packageId][k]) {
        var a, b := ProviderFound(ms, refused, m.consumes[k].name);
      }
    }
  }

  lemma ResolvedOrFailed(ms: seq<Member>, refused: set<string>, i: nat)
    requires i < |ms| && Distinct(Ids(ms))
    ensures ms[i].packageId in ResolutionOf(ms, refused).needs <==>
      && !IsOut(ms, refused, ms[i].packageId)
      && Verdict(Providers(AllClaims(ms, refused)), UpTo(ms, refused, i).excluded, ms[i], 0) == None
  {
    var held, start := Providers(AllClaims(ms, refused)), refused + Displaced(Claims(Live(ms, refused)));
    var r, n := ResolutionOf(ms, refused), ms[i].packageId;
    ResolveShape(ms, held, start);
    assert Ids(ms)[i] == n;
    assert n in Ids(ms);
    if n in Elems(Named(r.failures)) {
      var f := NameHeld(r.failures, n);
      ResolutionTold(ms, refused, i, f);
    } else {
      var why := Verdict(held, UpTo(ms, refused, i).excluded, ms[i], 0);
      if why.Some? && !IsOut(ms, refused, n) {
        ResolutionTold(ms, refused, i, Failure(n, Resolve, why.value));
        NamedHolds(r.failures, Failure(n, Resolve, why.value));
      }
    }
  }

  /** Every failure says of its Plugin what the listing and the Plugins already refused say of it. */
  lemma FailuresExplained(ms: seq<Member>, refused: set<string>, order: seq<string>, ordering: seq<Failure>,
                          failures: seq<Failure>)
    requires Distinct(Ids(ms)) && WellFormed(ResolvedGraph(ms, refused))
    requires Parts(ms, refused, ordering, failures)
    requires StallsReported(ResolvedGraph(ms, refused), order, ordering)
    requires forall f :: f in ordering ==> f.pluginId in ResolvedGraph(ms, refused).needs
    ensures Explains(ms, refused, ResolvedGraph(ms, refused), order, failures)
  {
    var g := ResolvedGraph(ms, refused);
    forall f | f in failures
      ensures f.phase == Resolve
      ensures f.reason.AlreadyProvided? || f.reason.NothingProvides? || f.reason.WrongVersion?
        || f.reason == ServiceCycle || f.reason == UpstreamNotMounted
    {
      PartOf(ms, refused, ordering, failures, f);
    }
    forall i | 0 <= i < |ms|
      ensures NeedsOf(ms, refused, failures, g, i) && Explained(ms, refused, g, order, failures, i)
    {
      var n := ms[i].packageId;
      NeedsTold(ms, refused, ordering, failures, i);
      forall s, h
        ensures Failure(n, Resolve, AlreadyProvided(s, h)) in failures <==> Late(ms, refused, n, s, h)
      {
        LateExplained(ms, refused, ordering, failures, n, s, h);
      }
      forall why: Reason | why.NothingProvides? || why.WrongVersion?
        ensures Failure(n, Resolve, why) in failures <==> FailsFor(ms, refused, failures, i, why)
      {
        FailsTold(ms, refused, ordering, failures, i, why);
      }
      PartOf(ms, refused, ordering, failures, Failure(n, Resolve, ServiceCycle));
      PartOf(ms, refused, ordering, failures, Failure(n, Resolve, UpstreamNotMounted));
    }
  }

  /** A Plugin is told that nothing provides a service only when nobody at all offers it. */
  lemma NothingMeansNothing(ms: seq<Member>, refused: set<string>, g: Graph, order: seq<string>, failures: seq<Failure>,
                            n: string, s: string)
    requires Explains(ms, refused, g, order, failures) && n in Ids(ms)
    requires Failure(n, Resolve, NothingProvides(s)) in failures
    ensures !SomeoneOffers(ms, s)
  {
    var i :| 0 <= i < |ms| && Ids(ms)[i] == n;
    assert Explained(ms, refused, g, order, failures, i);
    assert FailsFor(ms, refused, failures, i, NothingProvides(s));
  }

  /** A Plugin one of whose needs only refused Plugins offer, all of its needs being offered by
      someone, is told that their Plugin did not mount, unless a need is at the wrong version. */
  lemma RefusedProviderNamed(ms: seq<Member>, refused: set<string>, g: Graph, order: seq<string>,
                             failures: seq<Failure>, i: nat, k: nat)
    requires Explains(ms, refused, g, order, failures) && WellFormed(g) && IsKahnOrder(g, order)
    requires i < |ms| && k < |ms[i].consumes| && !OutBefore(ms, refused, failures, 0, ms[i].packageId)
    requires forall b :: 0 <= b < |ms[i].consumes| ==> SomeoneOffers(ms, ms[i].consumes[b].name)
    requires !Offered(ms, refused, false, ms[i].consumes[k].name)
    ensures Failure(ms[i].packageId, Resolve, UpstreamNotMounted) in failures
      || exists s, p :: Failure(ms[i].packageId, Resolve, WrongVersion(s, p)) in failures
  {
    var n := ms[i].packageId;
    assert Explained(ms, refused, g, order, failures, i);
    if Resolves(ms, refused, failures, i) {
      assert NeedsOf(ms, refused, failures, g, i);
      var u := g.needs[n][k];
      var a, b :| Provides(ms, refused, a, b, ms[i].consumes[k].name) && ms[a].packageId == u;
      assert u in refused && Ids(ms)[a] == u;
      assert OutBefore(ms, refused, failures, 0, u);
      assert NeedsOf(ms, refused, failures, g, a);
      assert u in g.barred;
      Edge(g, n, u);
      ProvidersFirst(g, order);
    } else {
      var j := FirstUnmet(ms, refused, failures, i, |ms[i].consumes|);
      var s, p := WrongIfUnmet(ms, refused, failures, i, j);
      assert FailsFor(ms, refused, failures, i, WrongVersion(s, p));
    }
  }

  lemma WrongIfUnmet(ms: seq<Member>, refused: set<string>, failures: seq<Failure>, i: nat, k: nat)
    returns (s: string, p: string)
    requires i < |ms| && k < |ms[i].consumes| && SomeoneOffers(ms, ms[i].consumes[k].name)
    requires !Met(ms, refused, failures, i, k)
    ensures Unmet(ms, refused, failures, i, k, WrongVersion(s, p))
  {
    s := ms[i].consumes[k].name;
    var c, d :| OfferAt(ms, c, d, s);
    assert OfferOf(ms, refused, ms[c].packageId in refused, c, d, s);
    var a, b := FirstExists(ms, refused, !Offered(ms, refused, false, s), s, |ms|);
    p := ms[a].packageId;
    assert Provides(ms, refused, a, b, s);
  }

  lemma {:induction false} FirstUnmet(ms: seq<Member>, refused: set<string>, failures: seq<Failure>, i: nat, n: nat)
    returns (k: nat)
    requires i < |ms| && n <= |ms[i].consumes|
    requires exists k :: 0 <= k < n && !Met(ms, refused, failures, i, k)
    ensures k < n && !Met(ms, refused, failures, i, k) && forall b :: 0 <= b < k ==> Met(ms, refused, failures, i, b)
  {
    if j :| 0 <= j < n - 1 && !Met(ms, refused, failures, i, j) {
      k := FirstUnmet(ms, refused, failures, i, n - 1);
    } else {
      k := n - 1;
    }
  }
}
