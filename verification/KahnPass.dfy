/** The ordering pass of `pluginMountOrderV1`: sweeps over the listed order that place a
    Plugin once its providers are placed and exclude one whose provider is excluded. */
module KahnPass {
  import opened Sequences

  import opened MountGraph
  import opened Plugins

  /** `n` waits, up to sweep `t`, on a provider that is unplaced or placed too late. */
  ghost predicate Held(g: Graph, round: map<string, nat>, n: string, t: nat)
    requires WellFormed(g) && n in g.needs
  {
    exists u :: u in g.needs[n] && (u in round ==> round[u] + Lag(g, u, n) >= t)
  }

  /** The sweep's bookkeeping at listed place `i` of sweep `r`. */
  ghost predicate Sweeping(g: Graph, o: seq<string>, round: map<string, nat>, excluded: set<string>, r: nat, i: nat)
    requires WellFormed(g)
  {
    && Swept(g, o, round)
    && (forall n :: n in o ==> n !in excluded)
    && (forall n :: n in round ==> round[n] < r || (round[n] == r && Pos(g.nodes, n) < i))
    && (forall n {:trigger Waits(g, round, excluded, r, i, n)} :: Waits(g, round, excluded, r, i, n))
  }

  /** An undecided node was held in this sweep if it was visited, else in the one before. */
  ghost predicate Waits(g: Graph, round: map<string, nat>, excluded: set<string>, r: nat, i: nat, n: string)
    requires WellFormed(g)
  {
    n in g.needs && n !in round && n !in excluded ==>
      if Pos(g.nodes, n) < i then Held(g, round, n, r + 1) else r == 0 || Held(g, round, n, r)
  }

  ghost predicate Excluding(g: Graph, excluded: set<string>) {
    && g.barred <= excluded
    && (forall n {:trigger Justified(g, excluded, n)} :: n in excluded && n !in g.barred ==> Justified(g, excluded, n))
  }

  ghost predicate Justified(g: Graph, excluded: set<string>, n: string) {
    n in g.needs && ReachesBarred(g, n) && exists u :: u in g.needs[n] && u in excluded
  }

  /** Nothing about `n` will change unless something else does first. */
  ghost predicate Stuck(g: Graph, placed: set<string>, excluded: set<string>, n: string) {
    n in placed || n in excluded ||
    (n in g.needs && (exists u :: u in g.needs[n] && u !in placed) && forall u :: u in g.needs[n] ==> u !in excluded)
  }

  /** What the sweep knows when it places the node at listed place `i`. */
  ghost predicate Placing(g: Graph, o: seq<string>, round: map<string, nat>, excluded: set<string>, r: nat, i: nat)
    requires WellFormed(g)
  {
    && i < |g.nodes| && Sweeping(g, o, round, excluded, r, i)
    && g.nodes[i] in g.needs && g.nodes[i] !in round && g.nodes[i] !in excluded
    && (forall u :: u in g.needs[g.nodes[i]] ==> u in round)
  }

  lemma PlaceRound(g: Graph, o: seq<string>, round: map<string, nat>, excluded: set<string>, r: nat, i: nat)
    requires WellFormed(g) && Placing(g, o, round, excluded, r, i)
    ensures RoundOk(g, round[g.nodes[i] := r], g.nodes[i])
  {
    var m := g.nodes[i];
    var round' := round[m := r];
    assert Pos(g.nodes, m) == i;
    forall u | u in g.needs[m] ensures u in round' && round'[u] + Lag(g, u, m) <= r {
      assert u in round && u in g.nodes;
    }
    if r > 0 {
      assert Waits(g, round, excluded, r, i, m);
      var u :| u in g.needs[m] && (u in round ==> round[u] + Lag(g, u, m) >= r);
      assert u in round' && round'[u] + Lag(g, u, m) == r;
    }
  }

  lemma PlaceKeepsRounds(g: Graph, o: seq<string>, round: map<string, nat>, m: string, r: nat)
    requires WellFormed(g) && IsRounds(g, o, round) && m in g.needs && m !in round
    requires RoundOk(g, round[m := r], m)
    ensures IsRounds(g, o + [m], round[m := r])
  {
    var o', round' := o + [m], round[m := r];
    forall n | n in o ensures n in round && n in g.needs && RoundOk(g, round', n) {
      assert n in Elems(o);
      assert RoundOk(g, round, n);
      if round[n] != 0 {
        var u :| u in g.needs[n] && u in round && round[u] + Lag(g, u, n) == round[n];
        assert u in round' && round'[u] + Lag(g, u, n) == round'[n];
      }
    }
    assert round'.Keys == Elems(o') by {
      forall x ensures x in round'.Keys <==> x in Elems(o') {
        assert x in o' <==> x in o || x == m;
        assert x in round.Keys <==> x in Elems(o);
      }
    }
  }

  lemma PlaceLast(g: Graph, o: seq<string>, round: map<string, nat>, excluded: set<string>, r: nat, i: nat)
    requires WellFormed(g) && Placing(g, o, round, excluded, r, i)
    ensures Swept(g, o + [g.nodes[i]], round[g.nodes[i] := r])
  {
    var m := g.nodes[i];
    var o', round' := o + [m], round[m := r];
    PlaceRound(g, o, round, excluded, r, i);
    PlaceKeepsRounds(g, o, round, m, r);
    assert Pos(g.nodes, m) == i;
    forall a, b | 0 <= a < b < |o'| ensures Before(g, round', o'[a], o'[b]) {
      assert o'[a] in o && o'[a] in Elems(o);
      if b < |o| {
        assert Before(g, round, o[a], o[b]);
        assert o'[b] in o && o'[b] in Elems(o);
      }
    }
  }

  lemma Place(g: Graph, o: seq<string>, round: map<string, nat>, excluded: set<string>, r: nat, i: nat)
    requires WellFormed(g) && Placing(g, o, round, excluded, r, i)
    ensures Sweeping(g, o + [g.nodes[i]], round[g.nodes[i] := r], excluded, r, i + 1)
  {
    var m := g.nodes[i];
    var round' := round[m := r];
    assert Pos(g.nodes, m) == i;
    PlaceLast(g, o, round, excluded, r, i);
    forall n {:trigger Waits(g, round', excluded, r, i + 1, n)} ensures Waits(g, round', excluded, r, i + 1, n) {
      if n in g.needs && n !in round' && n !in excluded {
        assert Waits(g, round, excluded, r, i, n);
        assert Pos(g.nodes, n) != i;
        var t := if Pos(g.nodes, n) < i then r + 1 else r;
        if Held(g, round, n, t) {
          var u :| u in g.needs[n] && (u in round ==> round[u] + Lag(g, u, n) >= t);
          assert u in round' ==> round'[u] + Lag(g, u, n) >= t;
        }
      }
    }
  }

  lemma Skip(g: Graph, o: seq<string>, round: map<string, nat>, excluded: set<string>, excluded': set<string>, r: nat,
             i: nat)
    requires WellFormed(g) && i < |g.nodes| && Sweeping(g, o, round, excluded, r, i)
    requires excluded <= excluded' && forall n :: n in o ==> n !in excluded'
    requires
      var m := g.nodes[i];
      m in round || m in excluded' || (m in g.needs && exists u :: u in g.needs[m] && u !in round)
    ensures Sweeping(g, o, round, excluded', r, i + 1)
  {
    var m := g.nodes[i];
    forall n {:trigger Waits(g, round, excluded', r, i + 1, n)} ensures Waits(g, round, excluded', r, i + 1, n) {
      assert Waits(g, round, excluded, r, i, n);
      if n in g.needs && n !in round && n !in excluded' {
        if n == m {
          var u :| u in g.needs[m] && u !in round;
          assert Held(g, round, n, r + 1);
        } else {
          assert Pos(g.nodes, n) != i;
        }
      }
    }
  }

  lemma NextSweep(g: Graph, o: seq<string>, round: map<string, nat>, excluded: set<string>, r: nat)
    requires WellFormed(g) && Sweeping(g, o, round, excluded, r, |g.nodes|)
    ensures Sweeping(g, o, round, excluded, r + 1, 0)
  {
    forall n {:trigger Waits(g, round, excluded, r + 1, 0, n)} ensures Waits(g, round, excluded, r + 1, 0, n) {
      assert Waits(g, round, excluded, r, |g.nodes|, n);
      assert n in g.needs ==> Pos(g.nodes, n) < |g.nodes|;
    }
  }

  lemma Exclude(g: Graph, excluded: set<string>, n: string)
    requires WellFormed(g) && Excluding(g, excluded)
    requires n in g.needs && exists u :: u in g.needs[n] && u in excluded
    ensures Excluding(g, excluded + {n})
  {
    var u :| u in g.needs[n] && u in excluded;
    if u in g.barred {
      Edge(g, n, u);
    } else {
      assert Justified(g, excluded, u);
      var b :| b in g.barred && Reaches(g, u, b);
      Prepend(g, n, u, b);
    }
    assert ReachesBarred(g, n);
    forall x | x in excluded + {n} && x !in g.barred
      ensures Justified(g, excluded + {n}, x)
    {
      assert x != n ==> Justified(g, excluded, x);
      var v :| v in g.needs[x] && v in excluded;
      assert v in excluded + {n};
    }
  }

  /** A sweep that changed nothing leaves the order closed and the exclusions exact. */
  lemma Settled(g: Graph, o: seq<string>, round: map<string, nat>, excluded: set<string>)
    requires WellFormed(g) && Swept(g, o, round) && Excluding(g, excluded)
    requires forall n :: n in o ==> n !in excluded
    requires AllStuck(g, Elems(o), excluded, |g.nodes|)
    ensures IsKahnOrder(g, o)
    ensures forall n :: n in g.needs && n !in excluded ==> forall u :: u in g.needs[n] ==> u !in excluded
    ensures forall n :: n in excluded <==> n in g.barred || ReachesBarred(g, n)
  {
    forall n | n in g.needs ensures Stuck(g, Elems(o), excluded, n) {
      assert Stuck(g, Elems(o), excluded, g.nodes[Pos(g.nodes, n)]);
    }
    assert Closed(g, Elems(o)) by {
      forall n | n in g.needs && (forall u :: u in g.needs[n] ==> u in Elems(o)) ensures n in Elems(o) {
        assert Stuck(g, Elems(o), excluded, n);
        assert n in excluded ==> Justified(g, excluded, n);
        assert forall u :: u in g.needs[n] ==> u in o && u !in excluded;
      }
    }
    forall n, u | n in g.needs && u in g.needs[n] && u in excluded ensures n in excluded {
      assert n in o ==> n in Elems(o) && RoundOk(g, round, n) && u in Elems(o);
      assert Stuck(g, Elems(o), excluded, n);
    }
    forall n | ReachesBarred(g, n) ensures n in excluded {
      var b :| b in g.barred && Reaches(g, n, b);
      var p :| |p| >= 2 && Path(g, p) && p[0] == n && p[|p| - 1] == b;
      PulledIn(g, excluded, p);
    }
    forall n | n in excluded && n !in g.barred ensures ReachesBarred(g, n) {
      assert Justified(g, excluded, n);
    }
  }

  ghost predicate Recorded(g: Graph, excluded: set<string>, failures: seq<Failure>) {
    && Excluding(g, excluded)
    && Distinct(Named(failures)) && Elems(Named(failures)) == excluded - g.barred
    && (forall f :: f in failures ==> f.phase == Resolve && f.reason == UpstreamNotMounted)
  }

  lemma Record(g: Graph, excluded: set<string>, failures: seq<Failure>, n: string)
    requires WellFormed(g) && Recorded(g, excluded, failures) && n !in excluded
    requires n in g.needs && exists u :: u in g.needs[n] && u in excluded
    ensures Recorded(g, excluded + {n}, failures + [Failure(n, Resolve, UpstreamNotMounted)])
  {
    Exclude(g, excluded, n);
    var fs := failures + [Failure(n, Resolve, UpstreamNotMounted)];
    assert Named(fs) == Named(failures) + [n];
    assert n !in Elems(Named(failures));
    forall x ensures x in Elems(Named(fs)) <==> x in (excluded + {n}) - g.barred {
      assert x in Named(fs) <==> x in Named(failures) || x == n;
      assert x in Elems(Named(failures)) <==> x in Named(failures);
    }
    forall i, j | 0 <= i < j < |Named(fs)| ensures Named(fs)[i] != Named(fs)[j] {
      assert Named(failures)[i] in Elems(Named(failures));
    }
  }

  /** Everything known at listed place `i` of sweep `r`. */
  ghost predicate At(members: seq<Member>, g: Graph, order: seq<Member>, placed: set<string>, excluded: set<string>,
                     failures: seq<Failure>, round: map<string, nat>, r: nat, i: nat)
    requires WellFormed(g)
  {
    && g.nodes == Ids(members)
    && placed == Elems(Ids(order)) && round.Keys == placed
    && (forall m :: m in order ==> m in members)
    && Sweeping(g, Ids(order), round, excluded, r, i)
    && Recorded(g, excluded, failures)
  }

  lemma StepPlace(members: seq<Member>, g: Graph, order: seq<Member>, placed: set<string>, excluded: set<string>,
                  failures: seq<Failure>, round: map<string, nat>, r: nat, i: nat)
    requires WellFormed(g) && i < |members| && At(members, g, order, placed, excluded, failures, round, r, i)
    requires members[i].packageId in g.needs && members[i].packageId !in placed + excluded
    requires forall u :: u in g.needs[members[i].packageId] ==> u in placed
    ensures
      var id := members[i].packageId;
      At(members, g, order + [members[i]], placed + {id}, excluded, failures, round[id := r], r, i + 1)
  {
    var id := members[i].packageId;
    Place(g, Ids(order), round, excluded, r, i);
    assert Ids(order + [members[i]]) == Ids(order) + [id];
    assert Elems(Ids(order) + [id]) == Elems(Ids(order)) + {id};
  }

  lemma StepExclude(members: seq<Member>, g: Graph, order: seq<Member>, placed: set<string>, excluded: set<string>,
                    failures: seq<Failure>, round: map<string, nat>, r: nat, i: nat)
    requires WellFormed(g) && i < |members| && At(members, g, order, placed, excluded, failures, round, r, i)
    requires members[i].packageId in g.needs && members[i].packageId !in placed + excluded
    requires exists u :: u in g.needs[members[i].packageId] && u in excluded
    ensures
      var id := members[i].packageId;
      At(members, g, order, placed, excluded + {id}, failures + [Failure(id, Resolve, UpstreamNotMounted)],
         round, r, i + 1)
  {
    var id := members[i].packageId;
    Record(g, excluded, failures, id);
    assert id !in Elems(Ids(order));
    Skip(g, Ids(order), round, excluded, excluded + {id}, r, i);
  }

  lemma StepSkip(members: seq<Member>, g: Graph, order: seq<Member>, placed: set<string>, excluded: set<string>,
                 failures: seq<Failure>, round: map<string, nat>, r: nat, i: nat)
    requires WellFormed(g) && i < |members| && At(members, g, order, placed, excluded, failures, round, r, i)
    requires
      var id := members[i].packageId;
      id in placed || id in excluded || (id in g.needs && exists u :: u in g.needs[id] && u !in placed)
    ensures At(members, g, order, placed, excluded, failures, round, r, i + 1)
  {
    Skip(g, Ids(order), round, excluded, excluded, r, i);
  }

  method Run(members: seq<Member>, g: Graph)
    returns (order: seq<Member>, excluded: set<string>, failures: seq<Failure>)
    requires WellFormed(g) && g.nodes == Ids(members)
    ensures IsKahnOrder(g, Ids(order))
    ensures forall m :: m in order ==> m in members
    ensures forall n :: n in excluded <==> n in g.barred || ReachesBarred(g, n)
    ensures forall n :: n in Ids(order) ==> n !in excluded
    ensures forall n :: n in g.needs && n !in excluded ==> forall u :: u in g.needs[n] ==> u !in excluded
    ensures Recorded(g, excluded, failures)
  {
    order, failures, excluded := [], [], g.barred;
    var placed: set<string> := {};
    var progressed := true;
    ghost var round: map<string, nat>, r := map[], 0;
    while progressed
      invariant At(members, g, order, placed, excluded, failures, round, r, 0)
      invariant !progressed ==> AllStuck(g, placed, excluded, |g.nodes|)
      decreases Elems(g.nodes) - placed - excluded, progressed
    {
      ghost var left := Elems(g.nodes) - placed - excluded;
      order, placed, excluded, failures, progressed, round :=
        Sweep(members, g, order, placed, excluded, failures, round, r);
      assert !progressed ==> Elems(g.nodes) - placed - excluded == left;
      NextSweep(g, Ids(order), round, excluded, r);
      r := r + 1;
    }
    Settled(g, Ids(order), round, excluded);
  }

  lemma FewerLeft(all: set<string>, placed: set<string>, excluded: set<string>, placed0: set<string>,
                  excluded0: set<string>, id: string)
    requires id in all && placed0 <= placed && excluded0 <= excluded
    ensures id !in placed + excluded ==>
      && all - (placed + {id}) - excluded < all - placed0 - excluded0
      && all - placed - (excluded + {id}) < all - placed0 - excluded0
  {
    if id !in placed + excluded {
      assert id in all - placed0 - excluded0;
    }
  }

  ghost predicate AllStuck(g: Graph, placed: set<string>, excluded: set<string>, i: nat)
    requires i <= |g.nodes|
  {
    forall k {:trigger g.nodes[k]} :: 0 <= k < i ==> Stuck(g, placed, excluded, g.nodes[k])
  }

  /** One pass over the listed order. */
  method Sweep(members: seq<Member>, g: Graph, order0: seq<Member>, placed0: set<string>, excluded0: set<string>,
               failures0: seq<Failure>, ghost round0: map<string, nat>, ghost r: nat)
    returns (order: seq<Member>, placed: set<string>, excluded: set<string>, failures: seq<Failure>, progressed: bool,
             ghost round: map<string, nat>)
    requires WellFormed(g) && At(members, g, order0, placed0, excluded0, failures0, round0, r, 0)
    ensures At(members, g, order, placed, excluded, failures, round, r, |g.nodes|)
    ensures !progressed ==> placed == placed0 && excluded == excluded0
    ensures !progressed ==> AllStuck(g, placed, excluded, |g.nodes|)
    ensures progressed ==> Elems(g.nodes) - placed - excluded < Elems(g.nodes) - placed0 - excluded0
  {
    order, placed, excluded, failures, progressed, round := order0, placed0, excluded0, failures0, false, round0;
    for i := 0 to |members|
      invariant At(members, g, order, placed, excluded, failures, round, r, i)
      invariant !progressed ==> placed == placed0 && excluded == excluded0
      invariant !progressed ==> AllStuck(g, placed, excluded, i)
      invariant placed0 <= placed && excluded0 <= excluded
      invariant progressed ==> Elems(g.nodes) - placed - excluded < Elems(g.nodes) - placed0 - excluded0
    {
      var id := members[i].packageId;
      assert id == g.nodes[i] && id in Elems(g.nodes);
      FewerLeft(Elems(g.nodes), placed, excluded, placed0, excluded0, id);
      if id in placed || id in excluded {
        assert Stuck(g, placed, excluded, id);
        StepSkip(members, g, order, placed, excluded, failures, round, r, i);
        continue;
      }
      var upstream := if id in g.needs then g.needs[id] else [];
      if exists u :: u in upstream && u in excluded {
        StepExclude(members, g, order, placed, excluded, failures, round, r, i);
        failures := failures + [Failure(id, Resolve, UpstreamNotMounted)];
        excluded := excluded + {id};
        progressed := true;
      } else if forall u :: u in upstream ==> u in placed {
        StepPlace(members, g, order, placed, excluded, failures, round, r, i);
        order := order + [members[i]];
        placed := placed + {id};
        round := round[id := r];
        progressed := true;
      } else {
        assert Stuck(g, placed, excluded, id);
        StepSkip(members, g, order, placed, excluded, failures, round, r, i);
      }
    }
  }
}
