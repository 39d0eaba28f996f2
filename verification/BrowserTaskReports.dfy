/** What Jev's answer decides, and what a report of a browser task says, by the numbers. */
module BrowserTaskReports {
  import opened Wrappers
  import opened BrowserActions
  import opened BrowserTask
  import opened BrowserTaskRun

  // ---- one answer ----------------------------------------------------------------------

  /** Jev gave the label at least this chance. */
  predicate AtLeast(answer: map<Label, real>, l: Label, chance: real) {
    l in answer && answer[l] >= chance
  }

  /** Jev says, and is sure enough of it, that the page shows `what` instead of its own content. */
  predicate Shows(page: Option<PageAnswer>, what: string) {
    && page.Some? && page.value.choice == Some(what) && what != "ready"
    && what in page.value.sure && page.value.sure[what] >= 0.7
  }

  predicate SomeAtLeast(offered: seq<Action>, answer: map<Label, real>, chance: real) {
    exists i :: 0 <= i < |offered| && AtLeast(answer, Key(offered[i].key), chance)
  }

  /** `i` is the first of the likeliest actions, where an action without a chance has none. */
  ghost predicate Likeliest(offered: seq<Action>, answer: map<Label, real>, i: nat) {
    && i < |offered|
    && (forall j :: 0 <= j < i ==> Chance(answer, Key(offered[j].key)) < Chance(answer, Key(offered[i].key)))
    && (forall j :: 0 <= j < |offered| ==> Chance(answer, Key(offered[j].key)) <= Chance(answer, Key(offered[i].key)))
  }

  lemma TopChance(offered: seq<Action>, answer: map<Label, real>, chance: real)
    requires offered != [] && chance > 0.0
    ensures AtLeast(answer, Key(offered[Top(offered, answer)].key), chance) <==> SomeAtLeast(offered, answer, chance)
  {
  }

  /** What one answer leads to. A page showing something else ends the task as what it shows; a
      goal reached at 0.6 ends it as done. Past a stop at 0.7 the likeliest action is explored
      while two have not been and it is likely at 0.1; otherwise it is taken if likely at 0.2. */
  lemma MoveTold(page: Option<PageAnswer>, offered: seq<Action>, answer: map<Label, real>, explored: nat)
    ensures
      var move := NextMove(page, offered, answer, explored);
      if exists what :: Shows(page, what) then
        move == Halt(if Shows(page, "loading") then StillLoading else if Shows(page, "sign_in") then WantsSignIn
                     else if Shows(page, "captcha") then ShowsCaptcha else ShowsError)
      else if AtLeast(answer, Finish, 0.6) then move == Halt(GoalOnPage)
      else if AtLeast(answer, Stop, 0.7) then
        if explored < 2 && SomeAtLeast(offered, answer, 0.1)
        then exists i: nat :: Likeliest(offered, answer, i) && move == Go(offered[i], true)
        else move == Halt(NothingLeads)
      else if offered == [] then move == Halt(NoAction)
      else if SomeAtLeast(offered, answer, 0.2)
      then exists i: nat :: Likeliest(offered, answer, i) && move == Go(offered[i], false)
      else exists i: nat :: Likeliest(offered, answer, i) && move == Halt(NotSure(offered[i].describe))
  {
    assert Ready(page) <==> !exists what :: Shows(page, what) by {
      if !Ready(page) { assert Shows(page, page.value.choice.value); }
    }
    if offered != [] {
      TopChance(offered, answer, 0.1);
      TopChance(offered, answer, 0.2);
      assert Likeliest(offered, answer, Top(offered, answer));
    }
  }

  // ---- regions -------------------------------------------------------------------------

  /** The `j`th region is where the actions first leave the regions before it. */
  ghost predicate FirstReached(actions: seq<Action>, regions: seq<string>, j: nat)
    requires j < |regions|
  {
    exists k :: 0 <= k < |actions| && RegionOf(actions[k]) == regions[j] &&
                forall l :: 0 <= l < k ==> RegionOf(actions[l]) in regions[..j]
  }

  /** Jev chooses among each region once, in the order the actions reach them; an action in no
      region counts as the page's. */
  lemma {:induction false} RegionsTold(actions: seq<Action>)
    ensures forall a :: a in actions ==>
      (if a.control.region == "" then "page" else a.control.region) in Regions(actions)
    ensures forall i, j :: 0 <= i < j < |Regions(actions)| ==> Regions(actions)[i] != Regions(actions)[j]
    ensures forall j :: 0 <= j < |Regions(actions)| ==> FirstReached(actions, Regions(actions), j)
    decreases |actions|
  {
    if actions != [] {
      var n := |actions| - 1;
      var front, before, all := actions[..n], Regions(actions[..n]), Regions(actions);
      RegionsTold(front);
      assert actions == front + [actions[n]];
      forall j | 0 <= j < |before| ensures FirstReached(actions, all, j) {
        RegionStays(front, actions[n], before, all, j);
      }
      if |all| > |before| {
        assert all[..n - n + |before|] == before;
        forall l | 0 <= l < n ensures RegionOf(actions[l]) in all[..|before|] {
          assert actions[l] in front;
        }
        assert FirstReached(actions, all, |before|);
      }
    }
  }

  lemma RegionStays(front: seq<Action>, last: Action, before: seq<string>, all: seq<string>, j: nat)
    requires j < |before| <= |all| && all[..|before|] == before && FirstReached(front, before, j)
    ensures FirstReached(front + [last], all, j)
  {
    var k :| 0 <= k < |front| && RegionOf(front[k]) == before[j] &&
             forall l :: 0 <= l < k ==> RegionOf(front[l]) in before[..j];
    assert all[..j] == before[..j] && all[j] == before[j];
    assert forall l :: 0 <= l <= k ==> (front + [last])[l] == front[l];
  }

  lemma WithinFirst(a: seq<Action>, region: Option<string>)
    requires a != []
    ensures Within(a, region) == (if Some(RegionOf(a[0])) == region then [a[0]] else []) + Within(a[1..], region)
  {
  }

  /** What is asked about next are the actions of the region chosen, each as often as the page
      lists it and in its order; a choice that names no region leaves none. */
  lemma {:induction false} WithinTold(before: seq<Action>, last: Action, region: Option<string>)
    ensures Within(before + [last], region) ==
            Within(before, region) + (if region == Some(RegionOf(last)) then [last] else [])
    ensures Within([], region) == []
  {
    if before == [] {
      assert [] + [last] == [last];
    } else {
      WithinTold(before[1..], last, region);
      assert (before + [last])[0] == before[0] && (before + [last])[1..] == before[1..] + [last];
      WithinFirst(before, region);
      WithinFirst(before + [last], region);
    }
  }

  /** Regions are chosen by number, from 1. */
  lemma ChosenTold(actions: seq<Action>, n: nat)
    ensures ChosenRegion(actions, None) == None
    ensures ChosenRegion(actions, Some(n)) ==
            if n == 0 || n > |Regions(actions)| then None else Some(Regions(actions)[n - 1])
  {
  }

  // ---- the report ----------------------------------------------------------------------

  /** What the report's list says of a step that acted. */
  function LineOf(a: Action, failure: Option<string>): StepLine {
    match failure
    case None => Took(a.describe)
    case Some(_) => Failed(a.describe)
  }

  lemma {:induction false} StepsTold(turns: seq<Turn>, n: nat)
    requires n <= |turns| && AllWent(turns[..n])
    ensures |StepsOf(turns[..n])| == n
    ensures forall k :: 0 <= k < n ==>
      turns[k].Went? && StepsOf(turns[..n])[k] == LineOf(turns[k].action, turns[k].failure)
  {
    if n > 0 {
      assert turns[..n][..n - 1] == turns[..n - 1];
      assert forall k :: 0 <= k < n ==> turns[..n][k] == turns[k];
      StepsTold(turns, n - 1);
    }
  }

  /** `n` steps are as many as were asked for, within 1 and 40; 20 when none were. */
  predicate LimitFor(asked: Option<int>, n: nat) {
    match asked
    case None => n == 20
    case Some(m) => (1 <= m <= 40 ==> n == m) && (m < 1 ==> n == 1) && (m > 40 ==> n == 40)
  }

  ghost function Questions(visits: seq<Visit>): set<(nat, nat)> {
    set k: nat, i: nat | k < |visits| && i < |visits[k].calls| && visits[k].calls[i].Asked? :: (k, i)
  }

  ghost function QuestionsAt(visit: Visit, k: nat, n: nat): set<(nat, nat)>
    requires n <= |visit.calls|
  {
    set i: nat | i < n && visit.calls[i].Asked? :: (k, i)
  }

  lemma {:induction false} AskedAt(visit: Visit, k: nat, n: nat)
    requires n <= |visit.calls|
    ensures |QuestionsAt(visit, k, n)| == CountAsked(visit.calls[..n])
  {
    if n > 0 {
      AskedAt(visit, k, n - 1);
      assert visit.calls[..n] == visit.calls[..n - 1] + [visit.calls[n - 1]];
      CountJoin(visit.calls[..n - 1], [visit.calls[n - 1]]);
      var before := QuestionsAt(visit, k, n - 1);
      assert QuestionsAt(visit, k, n) == if visit.calls[n - 1].Asked? then before + {(k, n - 1)} else before;
    }
  }

  lemma {:induction false} AsksCounted(visits: seq<Visit>)
    ensures |Questions(visits)| == Asks(visits)
    decreases |visits|
  {
    if visits == [] {
      assert Questions(visits) == {};
    } else {
      var n := |visits| - 1;
      AsksCounted(visits[..n]);
      AskedAt(visits[n], n, |visits[n].calls|);
      assert visits[n].calls[..|visits[n].calls|] == visits[n].calls;
      var last := QuestionsAt(visits[n], n, |visits[n].calls|);
      assert Questions(visits) == Questions(visits[..n]) + last;
      assert Questions(visits[..n]) !! last;
    }
  }

  predicate OutcomeTells(outcome: Outcome, ending: Ending) {
    && (outcome == Done <==> ending == GoalOnPage)
    && (outcome == PersonNeeded <==> ending in {WantsSignIn, ShowsCaptcha, ShowsError})
    && (outcome == ApprovalNeeded <==> ending.NeedsApproval?)
    && (outcome == LimitReached <==> ending.StepLimit?)
  }

  /** The lines of a report: one for each step that acted, whether it failed, and one more for an
      approval awaited. A run that never stops ends at the steps asked for. */
  ghost predicate LinesTell(asked: Option<int>, turns: seq<Turn>, steps: seq<StepLine>, ending: Ending)
    requires turns != []
  {
    var n := |turns| - 1;
    && (forall k :: 0 <= k < n ==> turns[k].Went? && k < |steps|
                                   && steps[k] == LineOf(turns[k].action, turns[k].failure))
    && match turns[n]
       case Went(a, failure, _) =>
         && |steps| == n + 1 && steps[n] == LineOf(a, failure)
         && ending == StepLimit(n + 1) && LimitFor(asked, n + 1)
       case Over(e) =>
         && ending == e
         && (if e.NeedsApproval? then |steps| == n + 1 && steps[n] == AwaitsApproval(e.describe) else |steps| == n)
       case Broke => false
  }

  lemma LinesTold(job: Job, visits: seq<Visit>, turns: seq<Turn>, report: Report)
    requires turns != [] && |turns| == |visits| && StepFollows(job, visits, turns, |turns| - 1)
    requires Reports(job, visits, turns, Returned(report))
    ensures LinesTell(job.maxSteps, turns, report.steps, report.ending)
  {
    var n := |turns| - 1;
    StepsTold(turns, n);
    assert forall k :: 0 <= k < n ==> turns[..n][k] == turns[k];
  }

  /** The report of a finished task: the last page read, its lines, as many decisions as questions
      were asked, and the outcome its ending stands for. */
  lemma ReportTold(job: Job, visits: seq<Visit>, turns: seq<Turn>, report: Report)
    requires Chronicle(job, visits, turns) && Reports(job, visits, turns, Returned(report))
    ensures visits != [] && report.page == Some(visits[|visits| - 1].page)
    ensures turns != [] && LinesTell(job.maxSteps, turns, report.steps, report.ending)
    ensures report.decisions == |Questions(visits)|
    ensures OutcomeTells(report.outcome, report.ending)
  {
    AsksCounted(visits);
    assert StepFollows(job, visits, turns, |turns| - 1);
    LinesTold(job, visits, turns, report);
  }
}
