/** Which of the Plugins that could not be ordered are in a cycle. */
module CycleSearch {
  import opened MountGraph

  ghost predicate Stalled(g: Graph, placed: set<string>, stalled: set<string>) {
    && placed !! stalled
    && (forall n, u :: n in placed && n in g.needs && u in g.needs[n] ==> u in placed)
    && (forall n, u :: n in stalled && n in g.needs && u in g.needs[n] ==> u in stalled || u in placed)
  }

  lemma NoCycle(g: Graph, placed: set<string>, stalled: set<string>, start: string, seen: set<string>)
    requires Stalled(g, placed, stalled) && start in stalled && seen <= stalled
    requires forall x, u :: x in {start} + seen && x in g.needs && u in g.needs[x] ==>
      u != start && (u in seen || u !in stalled)
    ensures !Reaches(g, start, start)
  {
    var c := {start} + seen + placed;
    forall p | |p| >= 2 && Path(g, p) && p[0] == start ensures p[|p| - 1] != start {
      StaysInside(g, c, p, |p| - 2);
      assert p[|p| - 2] in g.needs && p[(|p| - 2) + 1] in g.needs[p[|p| - 2]];
    }
  }

  /** Whether `start` reaches itself, searching through the stalled Plugins only. */
  method InCycle(g: Graph, ghost placed: set<string>, stalled: set<string>, start: string) returns (found: bool)
    requires Stalled(g, placed, stalled) && start in stalled
    ensures found <==> Reaches(g, start, start)
  {
    var seen: set<string> := {};
    var pending := if start in g.needs then g.needs[start] else [];
    assert forall u :: u in pending ==> Reaches(g, start, u) by {
      forall u | u in pending ensures Reaches(g, start, u) { Edge(g, start, u); }
    }
    while |pending| > 0
      invariant seen <= stalled
      invariant forall x :: x in seen ==> Reaches(g, start, x)
      invariant forall u :: u in pending ==> Reaches(g, start, u)
      invariant forall x, u :: x in {start} + seen && x in g.needs && u in g.needs[x] ==>
        u in pending || (u != start && (u in seen || u !in stalled))
      decreases stalled - seen, |pending|
    {
      var id := pending[|pending| - 1];
      ghost var before := pending;
      assert before == before[..|before| - 1] + [id];
      pending := pending[..|pending| - 1];
      if id == start { return true; }
      if id in seen || id !in stalled { continue; }
      var more := if id in g.needs then g.needs[id] else [];
      forall u | u in more ensures Reaches(g, start, u) { Append(g, start, id, u); }
      seen := seen + {id};
      pending := pending + more;
    }
    NoCycle(g, placed, stalled, start, seen);
    return false;
  }
}
