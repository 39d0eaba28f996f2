/** A whole browser task, and what every run of it keeps. */
module BrowserTaskRun {
  import opened Wrappers
  import opened BrowserActions
  import opened BrowserTask

  datatype StepLine =
    | Took(describe: Description)
    | Failed(describe: Description)
    | AwaitsApproval(describe: Description)

  datatype Report = Report(outcome: Outcome, ending: Ending, steps: seq<StepLine>, page: Option<Page>, decisions: nat)

  function StepsAllowed(job: Job): (n: nat)
    ensures 1 <= n <= MAX_STEPS
  {
    var given := if job.maxSteps.Some? then job.maxSteps.value else DEFAULT_STEPS;
    var atLeast := if given < 1 then 1 else given;
    if atLeast > MAX_STEPS then MAX_STEPS else atLeast
  }

  // ---- a run, told from its visits -----------------------------------------------------

  predicate AllWent(turns: seq<Turn>) {
    forall k :: 0 <= k < |turns| ==> turns[k].Went?
  }

  /** What the question of step `k` says is done: each earlier action, whether it failed,
      and whether the page then read the same as before it. */
  ghost function Notes(visits: seq<Visit>, turns: seq<Turn>, k: nat): seq<Note>
    requires k < |visits| && k <= |turns| && AllWent(turns[..k])
  {
    seq(k, j requires 0 <= j < k => assert turns[..k][j].Went?;
        Note(turns[j].action.describe, turns[j].failure, visits[j + 1].page.snapshot == visits[j].page.snapshot))
  }

  ghost function Explores(turns: seq<Turn>): nat {
    if turns == [] then 0
    else
      var n := |turns| - 1;
      Explores(turns[..n]) + if turns[n].Went? && turns[n].exploring then 1 else 0
  }

  ghost function LastTry(visits: seq<Visit>, turns: seq<Turn>, k: nat): Try
    requires k < |visits| && k <= |turns| && AllWent(turns[..k])
  {
    if k == 0 then None
    else assert turns[..k][k - 1].Went?; Some((turns[k - 1].action.describe, visits[k - 1].page.snapshot))
  }

  /** Step `k` followed from its page, the steps before it and its own calls. */
  ghost predicate StepFollows(job: Job, visits: seq<Visit>, turns: seq<Turn>, k: nat)
    requires k < |visits| && k < |turns|
  {
    && AllWent(turns[..k])
    && Turned(job, visits[k].page, Notes(visits, turns, k), Explores(turns[..k]), LastTry(visits, turns, k),
              visits[k].calls, turns[k])
  }

  ghost predicate Chronicle(job: Job, visits: seq<Visit>, turns: seq<Turn>) {
    && |turns| == |visits|
    && forall k :: 0 <= k < |turns| ==> StepFollows(job, visits, turns, k)
  }

  function StepsOf(turns: seq<Turn>): seq<StepLine> {
    if turns == [] then []
    else
      var n := |turns| - 1;
      StepsOf(turns[..n]) +
      match turns[n]
      case Went(a, failure, _) => [if failure == None then Took(a.describe) else Failed(a.describe)]
      case Over(NeedsApproval(d, _)) => [AwaitsApproval(d)]
      case _ => []
  }

  ghost function Asks(visits: seq<Visit>): nat {
    if visits == [] then 0
    else
      var n := |visits| - 1;
      Asks(visits[..n]) + CountAsked(visits[n].calls)
  }

  ghost predicate Reports(job: Job, visits: seq<Visit>, turns: seq<Turn>, r: Attempt<Report>) {
    match r
    case Threw =>
      // a port that threw: the page could not be read, or Jev or the review broke
      if AllWent(turns) then |turns| < StepsAllowed(job) else turns[|turns| - 1] == Broke
    case Returned(report) =>
      && visits != [] && turns != []
      && report.page == Some(visits[|visits| - 1].page)
      && report.steps == StepsOf(turns)
      && report.decisions == Asks(visits)
      && report.outcome == OutcomeOf(report.ending)
      && if AllWent(turns) then |turns| == StepsAllowed(job) && report.ending == StepLimit(|turns|)
         else turns[|turns| - 1] == Over(report.ending)
  }

  // ---- the loop ------------------------------------------------------------------------

  lemma StepStands(job: Job, visits: seq<Visit>, turns: seq<Turn>, vs: seq<Visit>, ts: seq<Turn>, k: nat)
    requires k < |turns| == |visits| && |turns| < |ts| == |vs|
    requires ts[..|turns|] == turns && vs[..|visits|] == visits
    requires StepFollows(job, visits, turns, k)
    ensures StepFollows(job, vs, ts, k)
  {
    assert forall j :: 0 <= j < |turns| ==> ts[j] == ts[..|turns|][j] && vs[j] == vs[..|visits|][j];
    assert ts[..k] == turns[..k];
    assert Notes(vs, ts, k) == Notes(visits, turns, k);
    assert LastTry(vs, ts, k) == LastTry(visits, turns, k);
  }

  lemma Longer(job: Job, visits: seq<Visit>, turns: seq<Turn>, v: Visit, t: Turn)
    requires Chronicle(job, visits, turns) && AllWent(turns)
    requires Turned(job, v.page, Notes(visits + [v], turns, |turns|), Explores(turns),
                    LastTry(visits + [v], turns, |turns|), v.calls, t)
    ensures Chronicle(job, visits + [v], turns + [t])
    ensures Asks(visits + [v]) == Asks(visits) + CountAsked(v.calls)
    ensures (turns + [t])[..|turns|] == turns
  {
    var vs, ts, n := visits + [v], turns + [t], |turns|;
    assert ts[..n] == turns && vs[..n] == visits && turns[..n] == turns;
    assert Notes(vs, ts, n) == Notes(vs, turns, n) && LastTry(vs, ts, n) == LastTry(vs, turns, n);
    forall k | 0 <= k < |ts|
      ensures StepFollows(job, vs, ts, k)
    {
      if k < n {
        StepStands(job, visits, turns, vs, ts, k);
      }
    }
  }

  /** The notes so far, before the next page is read. */
  ghost predicate Kept(history: seq<Note>, visits: seq<Visit>, turns: seq<Turn>) {
    && |history| == |turns| == |visits|
    && AllWent(turns)
    && forall j {:trigger history[j]} {:trigger turns[j]} :: 0 <= j < |turns| ==>
         history[j] == Note(turns[j].action.describe, turns[j].failure,
                            j + 1 < |visits| && visits[j + 1].page.snapshot == visits[j].page.snapshot)
  }

  /** The notes once the next page is read: the last one marked when the page stayed. */
  function Marked(told: seq<Note>, before: Option<string>, snapshot: string): seq<Note> {
    if before == Some(snapshot) && told != [] then told[|told| - 1 := told[|told| - 1].(stayed := true)] else told
  }

  lemma Retold(told: seq<Note>, visits: seq<Visit>, turns: seq<Turn>, page: Page, before: Option<string>)
    requires Kept(told, visits, turns)
    requires turns != [] ==> before == Some(visits[|turns| - 1].page.snapshot)
    ensures turns[..|turns|] == turns
    ensures Marked(told, before, page.snapshot) == Notes(visits + [Visit(page, [])], turns, |turns|)
  {
    assert turns[..|turns|] == turns;
    var shown := visits + [Visit(page, [])];
    assert shown[|visits|].page == page;
    var history := Marked(told, before, page.snapshot);
    forall j | 0 <= j < |turns|
      ensures history[j] == Notes(shown, turns, |turns|)[j]
    {
      assert shown[j] == visits[j] && turns[j].Went? && told[j].describe == turns[j].action.describe;
      if j + 1 < |turns| {
        assert shown[j + 1] == visits[j + 1];
      }
    }
  }

  lemma StillKept(history: seq<Note>, visits: seq<Visit>, turns: seq<Turn>, t: Turn)
    requires |visits| == |turns| + 1 && AllWent(turns) && t.Went?
    requires turns[..|turns|] == turns && history == Notes(visits, turns, |turns|)
    ensures Kept(history + [Note(t.action.describe, t.failure, false)], visits, turns + [t])
  {
    var told, ts := history + [Note(t.action.describe, t.failure, false)], turns + [t];
    assert forall j :: 0 <= j < |turns| ==> ts[j] == turns[j] && told[j] == history[j];
  }

  lemma Counted(turns: seq<Turn>, t: Turn)
    ensures Explores(turns + [t]) == Explores(turns) + (if t.Went? && t.exploring then 1 else 0)
    ensures StepsOf(turns + [t]) == StepsOf(turns) + StepsOf([t])
    ensures !t.Went? ==> !AllWent(turns + [t])
  {
    var ts := turns + [t];
    assert ts[..|turns|] == turns && ts[|turns|] == t;
    assert [t][..0] == [];
  }

  /** `Longer`, with the step told as the loop's own variables have it. */
  lemma Grown(job: Job, visits: seq<Visit>, turns: seq<Turn>, page: Page, history: seq<Note>, explored: nat, last: Try,
              calls: seq<Call>, t: Turn)
    requires Chronicle(job, visits, turns) && AllWent(turns) && turns[..|turns|] == turns
    requires history == Notes(visits + [Visit(page, [])], turns, |turns|)
    requires explored == Explores(turns)
    requires turns == [] ==> last == None
    requires turns != [] ==>
      last == Some((turns[|turns| - 1].action.describe, visits[|turns| - 1].page.snapshot))
    requires Turned(job, page, history, explored, last, calls, t)
    ensures var now := visits + [Visit(page, calls)];
      && Chronicle(job, now, turns + [t])
      && Asks(now) == Asks(visits) + CountAsked(calls)
      && history == Notes(now, turns, |turns|)
  {
    var v := Visit(page, calls);
    assert Notes(visits + [v], turns, |turns|) == Notes(visits + [Visit(page, [])], turns, |turns|);
    assert LastTry(visits + [v], turns, |turns|) == last;
    Longer(job, visits, turns, v, t);
  }

  /** One turn of the loop: read the page, mark the last note if it stayed as it was, step. */
  method StepOnce(ports: Ports, job: Job, told: seq<Note>, explored: nat, last: Try, before: Option<string>,
                  ghost turns: seq<Turn>)
    returns (page: Attempt<Page>, history: seq<Note>, turn: Turn, asked: nat)
    requires Chronicle(job, ports.Visits(), turns) && Kept(told, ports.Visits(), turns)
    requires explored == Explores(turns)
    requires turns == [] ==> last == None && before == None
    requires turns != [] ==>
      && before == Some(ports.Visits()[|turns| - 1].page.snapshot)
      && last == Some((turns[|turns| - 1].action.describe, before.value))
    modifies ports
    ensures page.Threw? ==> ports.Visits() == old(ports.Visits())
    ensures page.Returned? ==>
      && var was := old(ports.Visits());
         var now := ports.Visits();
         && |now| == |was| + 1 && now[|was|].page == page.value
         && Chronicle(job, now, turns + [turn])
         && Asks(now) == Asks(was) + asked
         && turns[..|turns|] == turns && history == Notes(now, turns, |turns|)
  {
    history := told;
    turn, asked := Broke, 0;
    ghost var visits := ports.Visits();
    page := ports.Observe();
    if page.Threw? { return; }
    if before == Some(page.value.snapshot) && history != [] {
      history := history[|history| - 1 := history[|history| - 1].(stayed := true)];
    }
    assert history == Marked(told, before, page.value.snapshot);
    Retold(told, visits, turns, page.value, before);
    turn, asked := TakeStep(ports, job, page.value, history, explored, last);
    assert ports.Visits() == visits + [Visit(page.value, ports.calls)];
    Grown(job, visits, turns, page.value, history, explored, last, ports.calls, turn);
  }

  /** The loop over steps; it stops at an ending, at the step limit or at the first port that throws. */
  method RunBrowserTask(job: Job, ports: Ports) returns (r: Attempt<Report>, ghost turns: seq<Turn>)
    requires ports.Visits() == []
    modifies ports
    ensures Chronicle(job, ports.Visits(), turns)
    ensures Reports(job, ports.Visits(), turns, r)
    ensures |turns| <= StepsAllowed(job)
  {
    var maxSteps := StepsAllowed(job);
    var steps: seq<StepLine>, history: seq<Note> := [], [];
    var decisions, explored := 0, 0;
    var lastAttempt: Try := None;
    var before: Option<string> := None;
    var page: Option<Page> := None;
    turns := [];
    for step := 0 to maxSteps
      invariant |turns| == step
      invariant Chronicle(job, ports.Visits(), turns) && Kept(history, ports.Visits(), turns)
      invariant decisions == Asks(ports.Visits()) && explored == Explores(turns) && steps == StepsOf(turns)
      invariant step == 0 ==> lastAttempt == None && before == None && page == None
      invariant step > 0 ==>
        && page == Some(ports.Visits()[step - 1].page)
        && before == Some(page.value.snapshot)
        && lastAttempt == Some((turns[step - 1].action.describe, page.value.snapshot))
    {
      var seen, told, turn, asked := StepOnce(ports, job, history, explored, lastAttempt, before, turns);
      if seen.Threw? { return Threw, turns; }
      page := Some(seen.value);
      decisions := decisions + asked;
      Counted(turns, turn);
      if turn.Went? {
        StillKept(told, ports.Visits(), turns, turn);
      }
      turns := turns + [turn];
      match turn {
        case Broke => return Threw, turns;
        case Over(ending) =>
          if ending.NeedsApproval? {
            steps := steps + [AwaitsApproval(ending.describe)];
          }
          return Returned(Report(OutcomeOf(ending), ending, steps, page, decisions)), turns;
        case Went(action, failure, exploring) =>
          if exploring {
            explored := explored + 1;
          }
          lastAttempt := Some((action.describe, seen.value.snapshot));
          before := Some(seen.value.snapshot);
          steps := steps + [if failure == None then Took(action.describe) else Failed(action.describe)];
          history := told + [Note(action.describe, failure, false)];
      }
    }
    r := Returned(Report(LimitReached, StepLimit(maxSteps), steps, page, decisions));
  }
}
