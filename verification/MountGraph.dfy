/** The dependency graph a generation's Plugins form, and what its mount order means.

    A node is a package id. `needs[n]` lists the providers `n` consumes from; a barred
    node was excluded before the ordering pass began, and has no entry in `needs`. */
module MountGraph {
  import opened Sequences

  datatype Graph = Graph(nodes: seq<string>, needs: map<string, seq<string>>, barred: set<string>)

  ghost function Pos(s: seq<string>, x: string): (i: nat)
    requires x in s
    ensures i < |s| && s[i] == x
  {
    var i :| 0 <= i < |s| && s[i] == x;
    i
  }

  ghost predicate WellFormed(g: Graph) {
    && Distinct(g.nodes)
    && (forall n :: n in g.needs ==> n in g.nodes && n !in g.barred)
    && (forall n :: n in g.nodes ==> n in g.barred || n in g.needs)
    && (forall n, u :: n in g.needs && u in g.needs[n] ==> u in g.nodes)
  }

  /** `p` follows dependency edges from its first node to its last. */
  ghost predicate Path(g: Graph, p: seq<string>) {
    && |p| >= 1
    && forall i :: 0 <= i < |p| - 1 ==> p[i] in g.needs && p[i + 1] in g.needs[p[i]]
  }

  /** `b` is reached from `a` along one dependency edge or more. */
  ghost predicate Reaches(g: Graph, a: string, b: string) {
    exists p :: |p| >= 2 && Path(g, p) && p[0] == a && p[|p| - 1] == b
  }

  ghost predicate ReachesBarred(g: Graph, n: string) {
    exists b :: b in g.barred && Reaches(g, n, b)
  }

  /** `c` holds every node all of whose providers it holds. */
  ghost predicate Closed(g: Graph, c: set<string>) {
    forall n :: n in g.needs && (forall u :: u in g.needs[n] ==> u in c) ==> n in c
  }

  /** One sweep visits the nodes in listed order, so a provider listed earlier is placed
      in time for a consumer in the same sweep, and one listed later only for the next. */
  ghost function Lag(g: Graph, u: string, n: string): nat
    requires u in g.nodes && n in g.nodes
  {
    if Pos(g.nodes, u) < Pos(g.nodes, n) then 0 else 1
  }

  /** `round[n]` is the sweep `n` is placed in: the first its providers allow. */
  ghost predicate RoundOk(g: Graph, round: map<string, nat>, n: string)
    requires WellFormed(g) && n in g.needs && n in round
  {
    && (forall u :: u in g.needs[n] ==> u in round && round[u] + Lag(g, u, n) <= round[n])
    && (round[n] == 0 || exists u :: u in g.needs[n] && u in round && round[u] + Lag(g, u, n) == round[n])
  }

  ghost predicate IsRounds(g: Graph, order: seq<string>, round: map<string, nat>)
    requires WellFormed(g)
  {
    && round.Keys == Elems(order)
    && (forall n :: n in order ==> n in g.needs)
    && (forall n {:trigger RoundOk(g, round, n)} :: n in order ==> RoundOk(g, round, n))
  }

  ghost predicate Before(g: Graph, round: map<string, nat>, a: string, b: string)
    requires a in round && b in round && a in g.nodes && b in g.nodes
  {
    round[a] < round[b] || (round[a] == round[b] && Pos(g.nodes, a) < Pos(g.nodes, b))
  }

  ghost predicate Swept(g: Graph, order: seq<string>, round: map<string, nat>)
    requires WellFormed(g)
  {
    && IsRounds(g, order, round)
    && forall i, j :: 0 <= i < j < |order| ==> Before(g, round, order[i], order[j])
  }

  /** The mount order: every node whose providers are all in it, by sweep and then by
      listed place. */
  ghost predicate IsKahnOrder(g: Graph, order: seq<string>)
    requires WellFormed(g)
  {
    Closed(g, Elems(order)) && exists round :: Swept(g, order, round)
  }

  // ---- what the definition gives ------------------------------------------------

  ghost predicate Layered(g: Graph, order: seq<string>) {
    && Distinct(order)
    && (forall n :: n in order ==> n in g.needs)
    && forall j, u :: 0 <= j < |order| && u in g.needs[order[j]] ==> u in order[..j]
  }

  /** Providers come first, and nothing is placed twice. */
  lemma ProvidersFirst(g: Graph, order: seq<string>)
    requires WellFormed(g) && IsKahnOrder(g, order)
    ensures Layered(g, order)
  {
    var round :| Swept(g, order, round);
    forall j, u | 0 <= j < |order| && u in g.needs[order[j]]
      ensures u in order[..j]
    {
      assert RoundOk(g, round, order[j]);
      assert u in order;
      var i :| 0 <= i < |order| && order[i] == u;
      assert order[..j][i] == u;
    }
  }

  /** The placed nodes are the least closed set: inside every other one. */
  lemma {:induction false} LeastClosed(g: Graph, order: seq<string>, c: set<string>)
    requires WellFormed(g) && IsKahnOrder(g, order) && Closed(g, c)
    ensures Elems(order) <= c
  {
    ProvidersFirst(g, order);
    LayeredInside(g, order, c, |order|);
  }

  lemma {:induction false} LayeredInside(g: Graph, order: seq<string>, c: set<string>, k: nat)
    requires Layered(g, order) && Closed(g, c) && k <= |order|
    ensures forall i :: 0 <= i < k ==> order[i] in c
  {
    if k > 0 {
      LayeredInside(g, order, c, k - 1);
      forall u | u in g.needs[order[k - 1]] ensures u in c {
        var i :| 0 <= i < k - 1 && order[..k - 1][i] == u;
      }
    }
  }

  /** The sweep a node is placed in follows from the graph. */
  lemma {:induction false} RoundsAgree(g: Graph, o: seq<string>, r: map<string, nat>, s: map<string, nat>, k: nat)
    requires WellFormed(g) && Layered(g, o)
    requires forall n :: n in o ==> n in r && n in s && RoundOk(g, r, n) && RoundOk(g, s, n)
    requires k <= |o|
    ensures forall i :: 0 <= i < k ==> r[o[i]] == s[o[i]]
  {
    if k > 0 {
      RoundsAgree(g, o, r, s, k - 1);
      var n := o[k - 1];
      assert RoundOk(g, r, n) && RoundOk(g, s, n);
      forall u | u in g.needs[n] ensures u in r && u in s && r[u] == s[u] {
        assert u in o[..k - 1];
        var i :| 0 <= i < k - 1 && o[..k - 1][i] == u;
      }
    }
  }

  lemma SameNodes(g: Graph, a: seq<string>, b: seq<string>)
    requires WellFormed(g) && IsKahnOrder(g, a) && IsKahnOrder(g, b)
    ensures forall n :: n in a <==> n in b
  {
    LeastClosed(g, a, Elems(b));
    LeastClosed(g, b, Elems(a));
    forall n ensures n in a <==> n in b {
      assert n in a <==> n in Elems(a);
      assert n in b <==> n in Elems(b);
    }
  }

  ghost predicate RoundsFor(g: Graph, a: seq<string>, r: map<string, nat>)
    requires WellFormed(g) && forall n :: n in a ==> n in g.needs
  {
    forall n {:trigger RoundOk(g, r, n)} :: n in a ==> n in r && RoundOk(g, r, n)
  }

  /** The sweeps of two orders of the same nodes agree. */
  lemma SameRounds(g: Graph, a: seq<string>, b: seq<string>, r: map<string, nat>, s: map<string, nat>)
    requires WellFormed(g) && Layered(g, a)
    requires forall n :: n in a <==> n in b
    requires r.Keys == Elems(a) && s.Keys == Elems(b)
    requires RoundsFor(g, a, r) && RoundsFor(g, a, s)
    ensures r == s
  {
    RoundsAgree(g, a, r, s, |a|);
    forall n ensures n in r <==> n in s {
      assert n in r.Keys <==> n in a;
      assert n in s.Keys <==> n in b;
    }
    forall n | n in r ensures r[n] == s[n] {
      assert n in Elems(a);
      var i :| 0 <= i < |a| && a[i] == n;
    }
  }

  lemma SweptRounds(g: Graph, a: seq<string>, b: seq<string>, s: map<string, nat>)
    requires WellFormed(g) && Swept(g, b, s)
    requires forall n :: n in a <==> n in b
    ensures s.Keys == Elems(b)
    ensures forall n :: n in a ==> n in g.needs
    ensures RoundsFor(g, a, s)
  {
    forall n | n in a ensures n in s && RoundOk(g, s, n) {
      assert n in b && n in Elems(b);
    }
  }

  /** There is only one mount order. */
  lemma {:induction false} OrderUnique(g: Graph, a: seq<string>, b: seq<string>)
    requires WellFormed(g) && IsKahnOrder(g, a) && IsKahnOrder(g, b)
    ensures a == b
  {
    SameNodes(g, a, b);
    ProvidersFirst(g, a);
    var r :| Swept(g, a, r);
    var s :| Swept(g, b, s);
    SweptRounds(g, a, a, r);
    SweptRounds(g, a, b, s);
    SameRounds(g, a, b, r, s);
    assert forall n :: n in a ==> n in Elems(a);
    SweptUnique(g, r, a, b);
  }

  lemma {:induction false} SweptUnique(g: Graph, r: map<string, nat>, a: seq<string>, b: seq<string>)
    requires forall n :: n in a ==> n in r && n in g.nodes
    requires forall n :: n in a <==> n in b
    requires forall i, j :: 0 <= i < j < |a| ==> Before(g, r, a[i], a[j])
    requires forall i, j :: 0 <= i < j < |b| ==> Before(g, r, b[i], b[j])
    ensures a == b
    decreases |a|
  {
    assert a != [] ==> a[0] in a && a[0] in b;
    assert b != [] ==> b[0] in b && b[0] in a;
    if a != [] {
      var i :| 0 <= i < |b| && b[i] == a[0];
      var j :| 0 <= j < |a| && a[j] == b[0];
      var x, y := a[1..], b[1..];
      TailHolds(g, r, a);
      TailHolds(g, r, b);
      assert a == [a[0]] + x && b == [b[0]] + y;
      SweptUnique(g, r, x, y);
    }
  }

  lemma TailHolds(g: Graph, r: map<string, nat>, a: seq<string>)
    requires a != []
    requires forall n :: n in a ==> n in r && n in g.nodes
    requires forall i, j :: 0 <= i < j < |a| ==> Before(g, r, a[i], a[j])
    ensures forall n :: n in a[1..] <==> n in a && n != a[0]
  {
    forall n | n in a && n != a[0] ensures n in a[1..] {
      var l :| 0 <= l < |a| && a[l] == n;
      assert a[1..][l - 1] == n;
    }
    forall n | n in a[1..] ensures n in a && n != a[0] {
      var k :| 0 <= k < |a| - 1 && a[1..][k] == n;
      assert Before(g, r, a[0], a[k + 1]);
    }
  }

  // ---- paths --------------------------------------------------------------------

  lemma Edge(g: Graph, n: string, u: string)
    requires n in g.needs && u in g.needs[n]
    ensures Reaches(g, n, u)
  {
    var p := [n, u];
    assert |p| >= 2 && Path(g, p) && p[0] == n && p[|p| - 1] == u;
  }

  lemma Prepend(g: Graph, n: string, u: string, b: string)
    requires n in g.needs && u in g.needs[n] && Reaches(g, u, b)
    ensures Reaches(g, n, b)
  {
    var p :| |p| >= 2 && Path(g, p) && p[0] == u && p[|p| - 1] == b;
    var q := [n] + p;
    assert forall i :: 1 <= i < |q| ==> q[i] == p[i - 1];
    assert Path(g, q) by {
      forall i | 0 <= i < |q| - 1 ensures q[i] in g.needs && q[i + 1] in g.needs[q[i]] {
        if i > 0 { assert p[i - 1] in g.needs && p[(i - 1) + 1] in g.needs[p[i - 1]]; }
      }
    }
    assert |q| >= 2 && q[0] == n && q[|q| - 1] == b;
  }

  lemma Append(g: Graph, a: string, n: string, u: string)
    requires Reaches(g, a, n) && n in g.needs && u in g.needs[n]
    ensures Reaches(g, a, u)
  {
    var p :| |p| >= 2 && Path(g, p) && p[0] == a && p[|p| - 1] == n;
    var q := p + [u];
    assert Path(g, q) by {
      forall i | 0 <= i < |q| - 1 ensures q[i] in g.needs && q[i + 1] in g.needs[q[i]] {
        if i < |p| - 1 { assert p[i] in g.needs && p[i + 1] in g.needs[p[i]]; }
      }
    }
    assert |q| >= 2 && q[0] == a && q[|q| - 1] == u;
  }

  /** A set every edge stays inside is never left by a path. */
  lemma {:induction false} StaysInside(g: Graph, c: set<string>, p: seq<string>, k: nat)
    requires Path(g, p) && p[0] in c && k < |p|
    requires forall n, u :: n in c && n in g.needs && u in g.needs[n] ==> u in c
    ensures p[k] in c
  {
    if k > 0 {
      StaysInside(g, c, p, k - 1);
      assert p[k - 1] in g.needs && p[(k - 1) + 1] in g.needs[p[k - 1]];
    }
  }

  /** A set that takes in every node with a provider inside it holds all that reach it. */
  lemma {:induction false} PulledIn(g: Graph, c: set<string>, p: seq<string>)
    requires Path(g, p) && p[|p| - 1] in c
    requires forall n, u :: n in g.needs && u in g.needs[n] && u in c ==> n in c
    ensures p[0] in c
    decreases |p|
  {
    if |p| > 1 {
      var q := p[1..];
      assert forall i :: 0 <= i < |q| ==> q[i] == p[i + 1];
      assert Path(g, q) by {
        forall i | 0 <= i < |q| - 1 ensures q[i] in g.needs && q[i + 1] in g.needs[q[i]] {
          assert p[i + 1] in g.needs && p[(i + 1) + 1] in g.needs[p[i + 1]];
        }
      }
      PulledIn(g, c, q);
      assert p[0] in g.needs && p[0 + 1] in g.needs[p[0]];
    }
  }
}
