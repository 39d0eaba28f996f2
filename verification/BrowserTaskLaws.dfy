/** What every run of a browser task keeps, whatever the page, Jev and the review answer. */
module BrowserTaskLaws {
  import opened Wrappers
  import opened BrowserActions
  import opened BrowserTask
  import opened BrowserTaskRun

  ghost function CountActed(calls: seq<Call>): nat {
    if calls == [] then 0 else (if calls[0].Acted? then 1 else 0) + CountActed(calls[1..])
  }

  lemma ActedJoin(a: seq<Call>, b: seq<Call>)
    ensures CountActed(a + b) == CountActed(a) + CountActed(b)
  {
    if a == [] {
      assert a + b == b;
    } else {
      ActedJoin(a[1..], b);
      assert (a + b)[1..] == a[1..] + b;
    }
  }

  lemma NoneActed(calls: seq<Call>)
    requires forall c :: c in calls ==> !c.Acted?
    ensures CountActed(calls) == 0
  {
    if calls != [] {
      assert calls[0] in calls;
      NoneActed(calls[1..]);
    }
  }

  /** The review of `a` on `page`, asked before call `i` and not refused. */
  ghost predicate ReviewedBefore(calls: seq<Call>, i: nat, page: Page, a: Action) {
    exists r :: 0 <= r < i && r < |calls| && calls[r] == Reviewed(a, page, Returned(None))
  }

  /** Jev was asked, before call `i`, whether `a` commits something, and judged that it does not. */
  ghost predicate JudgedHarmless(calls: seq<Call>, i: nat, a: Action) {
    exists r, j :: 0 <= r < i && r < |calls| && calls[r] == Asked(Commits(a), Returned(j)) && !JudgedToCommit(j)
  }

  /** Jev was asked, before call `i`, to pick among actions of which `a` is a likeliest one and likely enough. */
  ghost predicate PickedBefore(calls: seq<Call>, i: nat, a: Action) {
    exists r, done, offered, about, answers ::
      && 0 <= r < i && r < |calls| && calls[r] == Asked(PickAction(done, offered, about), Returned(Some(answers)))
      && PickedFrom(offered, answers.action, a)
  }

  ghost predicate PickedFrom(offered: seq<Action>, answer: map<Label, real>, a: Action) {
    && a in offered
    && Chance(answer, Key(a.key)) >= Floor(answer)
    && Chance(answer, Finish) < FINISH_MIN
    && forall b :: b in offered ==> Chance(answer, Key(b.key)) <= Chance(answer, Key(a.key))
  }

  /** Everything an act needs: a control of the page just read that is enabled and supports
      it, text from the browser task's values, Jev's pick, and a review when it may commit something. */
  ghost predicate Warranted(job: Job, page: Page, calls: seq<Call>, i: nat)
    requires i < |calls| && calls[i].Acted?
  {
    var a := calls[i].action;
    && Justified(job.read(page.snapshot), job.values, a)
    && (a.operation.Type? ==> calls[i].value.Some? && Entry(a.operation.valueKey, calls[i].value.value) in job.values)
    && (!a.operation.Type? ==> calls[i].value == None)
    && PickedBefore(calls, i, a)
    && (MayCommit(a) && job.flagged(a.control.name) ==> ReviewedBefore(calls, i, page, a))
    && (MayCommit(a) ==> ReviewedBefore(calls, i, page, a) || JudgedHarmless(calls, i, a))
  }

  lemma PickHeard(done: seq<Note>, asks: seq<Call>, h: Hearing, explored: nat, calls: seq<Call>, i: nat)
    requires Heard(done, asks, h) && asks <= calls && |asks| <= i
    requires NextMove(h.page, h.offered, h.answer, explored).Go?
    ensures PickedBefore(calls, i, NextMove(h.page, h.offered, h.answer, explored).action)
  {
    var a := NextMove(h.page, h.offered, h.answer, explored).action;
    MoveTaken(h.page, h.offered, h.answer, explored);
    var r := |asks| - 1;
    assert calls[r] == asks[r];
    var answers := asks[r].reply.value.value;
    assert PickedFrom(h.offered, answers.action, a);
    assert calls[r] == Asked(PickAction(done, h.offered, asks[r].question.aboutPage), Returned(Some(answers)));
  }

  lemma ReviewHeard(flagged: string -> bool, page: Page, a: Action, exam: seq<Call>, asks: seq<Call>, calls: seq<Call>,
                    i: nat)
    requires Examined(flagged, page, a, exam, None) && asks + exam <= calls && |asks| + |exam| <= i
    requires MayCommit(a)
    ensures flagged(a.control.name) ==> ReviewedBefore(calls, i, page, a)
    ensures ReviewedBefore(calls, i, page, a) || JudgedHarmless(calls, i, a)
  {
    var n := |asks|;
    assert forall k :: 0 <= k < |exam| ==> calls[n + k] == (asks + exam)[n + k] == exam[k];
    if flagged(a.control.name) {
      assert calls[n] == Reviewed(a, page, Returned(None));
    } else if JudgedToCommit(exam[0].reply.value) {
      assert exam[1] == exam[1..][0];
      assert calls[n + 1] == Reviewed(a, page, Returned(None));
    } else {
      assert calls[n] == Asked(Commits(a), Returned(exam[0].reply.value));
    }
  }

  lemma AsksOnly(done: seq<Note>, asks: seq<Call>, h: Hearing)
    requires Heard(done, asks, h)
    ensures |asks| <= 2 && CountAsked(asks) == |asks| && CountActed(asks) == 0
    ensures forall c :: c in asks ==> c.Asked?
  {
    AllAsked(asks);
    NoneActed(asks);
  }

  lemma OfferedJustified(controls: seq<Control>, values: seq<Entry>, done: seq<Note>, asks: seq<Call>, h: Hearing,
                         a: Action)
    requires Lists(controls, values, h.actions) && Heard(done, asks, h) && a in h.offered
    ensures Justified(controls, values, a)
    ensures a.operation.Type? ==>
      Typed(values, a).Some? && Entry(a.operation.valueKey, Typed(values, a).value) in values
  {
    assert a in h.actions;
  }

  lemma ExamineSmall(flagged: string -> bool, page: Page, a: Action, exam: seq<Call>, refusal: Option<string>)
    requires Examined(flagged, page, a, exam, refusal)
    ensures CountAsked(exam) <= 1 && CountActed(exam) == 0
    ensures forall c :: c in exam ==> !c.Acted?
  {
    if exam != [] {
      assert exam == [exam[0]] + exam[1..];
      CountJoin([exam[0]], exam[1..]);
      ActedJoin([exam[0]], exam[1..]);
      assert exam[0] in exam;
    }
  }

  /** The parts of a step that went on: its questions about the page, the examination, the act. */
  ghost predicate Parts(job: Job, page: Page, done: seq<Note>, explored: nat, asks: seq<Call>, h: Hearing,
                        exam: seq<Call>, turn: Turn) {
    && turn.Went?
    && Lists(job.read(page.snapshot), job.values, h.actions)
    && Heard(done, asks, h)
    && NextMove(h.page, h.offered, h.answer, explored) == Go(turn.action, turn.exploring)
    && Examined(job.flagged, page, turn.action, exam, None)
  }

  function ActOf(job: Job, turn: Turn): Call
    requires turn.Went?
  {
    Acted(turn.action, Typed(job.values, turn.action), turn.failure)
  }

  lemma ActLast(job: Job, page: Page, move: Move, last: Try, rest: seq<Call>, turn: Turn) returns (exam: seq<Call>)
    requires Follows(job, page, move, last, rest, turn) && turn.Went?
    ensures rest == exam + [ActOf(job, turn)]
    ensures move == Go(turn.action, turn.exploring) && Examined(job.flagged, page, turn.action, exam, None)
    ensures last != Some((turn.action.describe, page.snapshot))
  {
    exam := rest[..|rest| - 1];
  }

  lemma HearingOf(job: Job, page: Page, done: seq<Note>, explored: nat, last: Try, calls: seq<Call>, turn: Turn)
    returns (asks: seq<Call>, rest: seq<Call>, h: Hearing)
    requires Answered(job, page, done, explored, last, calls, turn)
    ensures calls == asks + rest && HeardThen(job, page, done, explored, last, asks, rest, h, turn)
  {
    asks, rest, h :| calls == asks + rest && HeardThen(job, page, done, explored, last, asks, rest, h, turn);
  }

  lemma PartsOf(job: Job, page: Page, done: seq<Note>, explored: nat, last: Try, asks: seq<Call>, rest: seq<Call>,
                h: Hearing, turn: Turn)
    returns (exam: seq<Call>)
    requires HeardThen(job, page, done, explored, last, asks, rest, h, turn) && turn.Went?
    ensures Parts(job, page, done, explored, asks, h, exam, turn)
    ensures rest == exam + [ActOf(job, turn)]
    ensures last != Some((turn.action.describe, page.snapshot))
  {
    exam := ActLast(job, page, NextMove(h.page, h.offered, h.answer, explored), last, rest, turn);
  }

  lemma ThenActed(quiet: seq<Call>, act: Call)
    requires act.Acted? && forall c :: c in quiet ==> !c.Acted?
    ensures CountAsked(quiet + [act]) == CountAsked(quiet) && CountActed(quiet + [act]) == 1
    ensures forall i :: 0 <= i < |quiet| ==> !(quiet + [act])[i].Acted?
  {
    assert [act][1..] == [];
    CountJoin(quiet, [act]);
    ActedJoin(quiet, [act]);
    NoneActed(quiet);
  }

  lemma PartsCount(job: Job, page: Page, done: seq<Note>, explored: nat, asks: seq<Call>, h: Hearing, exam: seq<Call>,
                   turn: Turn)
    requires Parts(job, page, done, explored, asks, h, exam, turn)
    ensures CountAsked(asks + exam) <= 3
    ensures forall c :: c in asks + exam ==> !c.Acted?
  {
    AsksOnly(done, asks, h);
    ExamineSmall(job.flagged, page, turn.action, exam, None);
    CountJoin(asks, exam);
  }

  lemma PartsWarrant(job: Job, page: Page, done: seq<Note>, explored: nat, asks: seq<Call>, h: Hearing,
                     exam: seq<Call>, turn: Turn)
    requires Parts(job, page, done, explored, asks, h, exam, turn)
    ensures Warranted(job, page, asks + exam + [ActOf(job, turn)], |asks| + |exam|)
  {
    var a := turn.action;
    var calls, i := asks + exam + [ActOf(job, turn)], |asks| + |exam|;
    MoveTaken(h.page, h.offered, h.answer, explored);
    OfferedJustified(job.read(page.snapshot), job.values, done, asks, h, a);
    assert asks <= calls && asks + exam <= calls;
    PickHeard(done, asks, h, explored, calls, i);
    if MayCommit(a) {
      ReviewHeard(job.flagged, page, a, exam, asks, calls, i);
    }
  }

  /** The calls end in their one act, a warranted one, after at most three questions. */
  ghost predicate ActedOnce(job: Job, page: Page, calls: seq<Call>, turn: Turn)
    requires turn.Went?
  {
    && calls != [] && calls[|calls| - 1] == ActOf(job, turn)
    && CountAsked(calls) <= 3 && CountActed(calls) == 1
    && (forall i :: 0 <= i < |calls| - 1 ==> !calls[i].Acted?)
    && Warranted(job, page, calls, |calls| - 1)
  }

  lemma PartsTell(job: Job, page: Page, done: seq<Note>, explored: nat, asks: seq<Call>, h: Hearing, exam: seq<Call>,
                  turn: Turn)
    requires Parts(job, page, done, explored, asks, h, exam, turn)
    ensures ActedOnce(job, page, asks + exam + [ActOf(job, turn)], turn)
    ensures turn.exploring ==> explored < EXPLORE_MAX
  {
    PartsCount(job, page, done, explored, asks, h, exam, turn);
    ThenActed(asks + exam, ActOf(job, turn));
    PartsWarrant(job, page, done, explored, asks, h, exam, turn);
    MoveTaken(h.page, h.offered, h.answer, explored);
  }

  lemma HearingTell(job: Job, page: Page, done: seq<Note>, explored: nat, last: Try, asks: seq<Call>, rest: seq<Call>,
                    h: Hearing, turn: Turn)
    requires HeardThen(job, page, done, explored, last, asks, rest, h, turn) && turn.Went?
    ensures ActedOnce(job, page, asks + rest, turn)
    ensures turn.exploring ==> explored < EXPLORE_MAX
    ensures last != Some((turn.action.describe, page.snapshot))
  {
    var exam := PartsOf(job, page, done, explored, last, asks, rest, h, turn);
    PartsTell(job, page, done, explored, asks, h, exam, turn);
    assert asks + rest == asks + exam + [ActOf(job, turn)];
  }

  /** A step that went on made one act, the last of its calls, and asked Jev at most three
      times; the act was warranted, and was not the last attempt over again. */
  lemma WentOnce(job: Job, page: Page, done: seq<Note>, explored: nat, last: Try, calls: seq<Call>, turn: Turn)
    requires Turned(job, page, done, explored, last, calls, turn) && turn.Went?
    ensures ActedOnce(job, page, calls, turn)
    ensures turn.exploring ==> explored < EXPLORE_MAX
    ensures last != Some((turn.action.describe, page.snapshot))
  {
    var asks, rest, h := HearingOf(job, page, done, explored, last, calls, turn);
    HearingTell(job, page, done, explored, last, asks, rest, h, turn);
  }

  lemma CutShortSmall(flagged: string -> bool, page: Page, a: Action, exam: seq<Call>)
    requires CutShort(flagged, page, a, exam)
    ensures CountAsked(exam) <= 1
    ensures forall c :: c in exam ==> !c.Acted?
  {
    assert exam == [exam[0]] + exam[1..];
    CountJoin([exam[0]], exam[1..]);
  }

  lemma StoppedRest(job: Job, page: Page, move: Move, last: Try, rest: seq<Call>, turn: Turn)
    requires Follows(job, page, move, last, rest, turn) && !turn.Went?
    ensures CountAsked(rest) <= 1
    ensures forall c :: c in rest ==> !c.Acted?
  {
    if turn == Broke {
      CutShortSmall(job.flagged, page, move.action, rest);
    } else if move.Go? {
      var refusal := if turn.ending.NeedsApproval? then Some(turn.ending.refusal) else None;
      ExamineSmall(job.flagged, page, move.action, rest, refusal);
    }
  }

  /** A step that did not go on made no act and asked at most three questions, however it ended. */
  lemma StoppedShort(job: Job, page: Page, done: seq<Note>, explored: nat, last: Try, calls: seq<Call>, turn: Turn)
    requires Turned(job, page, done, explored, last, calls, turn) && !turn.Went?
    ensures forall c :: c in calls ==> !c.Acted?
    ensures CountAsked(calls) <= 3
  {
    if Answered(job, page, done, explored, last, calls, turn) {
      var asks, rest, h := HearingOf(job, page, done, explored, last, calls, turn);
      AsksOnly(done, asks, h);
      CountJoin(asks, rest);
      StoppedRest(job, page, NextMove(h.page, h.offered, h.answer, explored), last, rest, turn);
    } else {
      var reply := if turn == Broke then Threw else Returned(None);
      var actions :| Lists(job.read(page.snapshot), job.values, actions) && Unheard(done, actions, calls, reply);
      UnheardAsked(done, actions, calls, reply);
    }
  }

  // ---- over a whole run ----------------------------------------------------------------

  lemma WentBefore(job: Job, visits: seq<Visit>, turns: seq<Turn>, k: nat)
    requires Chronicle(job, visits, turns) && k + 1 < |turns|
    ensures turns[k].Went?
  {
    assert StepFollows(job, visits, turns, k + 1);
    assert turns[k] == turns[..k + 1][k];
  }

  /** `WentOnce`, told of step `k` of a run. */
  lemma StepWent(job: Job, visits: seq<Visit>, turns: seq<Turn>, k: nat)
    requires Chronicle(job, visits, turns) && k < |turns| && turns[k].Went?
    ensures ActedOnce(job, visits[k].page, visits[k].calls, turns[k])
    ensures turns[k].exploring ==> Explores(turns[..k]) < EXPLORE_MAX
    ensures k > 0 ==> turns[k - 1].Went?
    ensures k > 0 ==>
      (turns[k - 1].action.describe, visits[k - 1].page.snapshot) != (turns[k].action.describe, visits[k].page.snapshot)
  {
    assert StepFollows(job, visits, turns, k);
    if k > 0 {
      WentBefore(job, visits, turns, k - 1);
    }
    WentOnce(job, visits[k].page, Notes(visits, turns, k), Explores(turns[..k]), LastTry(visits, turns, k),
             visits[k].calls, turns[k]);
  }

  lemma StepStopped(job: Job, visits: seq<Visit>, turns: seq<Turn>, k: nat)
    requires Chronicle(job, visits, turns) && k < |turns| && !turns[k].Went?
    ensures forall c :: c in visits[k].calls ==> !c.Acted?
    ensures CountAsked(visits[k].calls) <= 3
  {
    assert StepFollows(job, visits, turns, k);
    StoppedShort(job, visits[k].page, Notes(visits, turns, k), Explores(turns[..k]), LastTry(visits, turns, k),
                 visits[k].calls, turns[k]);
  }

  /** Every act of a run is warranted by its own step, is that step's only act and its last
      call: nothing is done on a page older than the one just read. */
  lemma EveryActWarranted(job: Job, visits: seq<Visit>, turns: seq<Turn>, k: nat, i: nat)
    requires Chronicle(job, visits, turns) && k < |visits|
    requires i < |visits[k].calls| && visits[k].calls[i].Acted?
    ensures Warranted(job, visits[k].page, visits[k].calls, i)
    ensures i == |visits[k].calls| - 1 && turns[k].Went? && visits[k].calls[i] == ActOf(job, turns[k])
  {
    assert visits[k].calls[i] in visits[k].calls;
    if turns[k].Went? {
      StepWent(job, visits, turns, k);
    } else {
      StepStopped(job, visits, turns, k);
    }
  }

  /** At most one act and three questions a step, and every step but the last acted. */
  lemma StepBounds(job: Job, visits: seq<Visit>, turns: seq<Turn>, k: nat)
    requires Chronicle(job, visits, turns) && k < |visits|
    ensures CountActed(visits[k].calls) <= 1
    ensures CountAsked(visits[k].calls) <= 3
    ensures k + 1 < |visits| ==> CountActed(visits[k].calls) == 1
  {
    if k + 1 < |visits| {
      WentBefore(job, visits, turns, k);
    }
    if turns[k].Went? {
      StepWent(job, visits, turns, k);
    } else {
      StepStopped(job, visits, turns, k);
      NoneActed(visits[k].calls);
    }
  }

  /** A run explores past a stop at most twice. */
  lemma {:induction false} ExploresTwiceAtMost(job: Job, visits: seq<Visit>, turns: seq<Turn>, n: nat)
    requires Chronicle(job, visits, turns) && n <= |turns|
    ensures Explores(turns[..n]) <= EXPLORE_MAX
  {
    if n > 0 {
      ExploresTwiceAtMost(job, visits, turns, n - 1);
      assert turns[..n][..n - 1] == turns[..n - 1];
      if turns[n - 1].Went? {
        StepWent(job, visits, turns, n - 1);
      }
    }
  }

  /** No action is tried twice running on one snapshot: a step that would repeat the last one
      on an unchanged page ends the run instead. */
  lemma NeverTwiceRunning(job: Job, visits: seq<Visit>, turns: seq<Turn>, k: nat)
    requires Chronicle(job, visits, turns) && k + 1 < |turns| && turns[k + 1].Went?
    ensures turns[k].Went?
    ensures turns[k].action.describe != turns[k + 1].action.describe
      || visits[k].page.snapshot != visits[k + 1].page.snapshot
  {
    StepWent(job, visits, turns, k + 1);
  }

  /** A report of no response means exactly that: the step before did this same action on
      this same snapshot, and this step did nothing. */
  lemma NoResponseMeans(job: Job, visits: seq<Visit>, turns: seq<Turn>, k: nat)
    requires Chronicle(job, visits, turns) && k < |turns| && turns[k].Over? && turns[k].ending.NoResponse?
    ensures k > 0 && turns[k - 1].Went?
    ensures turns[k - 1].action.describe == turns[k].ending.describe
      && visits[k - 1].page.snapshot == visits[k].page.snapshot
  {
    assert StepFollows(job, visits, turns, k);
    if k > 0 {
      WentBefore(job, visits, turns, k - 1);
    }
  }

  // ---- what a judgement of Jev's leads to -----------------------------------------------

  /** Jev was asked, before call `i`, whether `a` commits something, and said it is less likely
      than not. */
  ghost predicate SaidUnlikely(calls: seq<Call>, i: nat, a: Action) {
    exists r, x ::
      && 0 <= r < i && r < |calls| && calls[r] == Asked(Commits(a), Returned(Some(x)))
      && x.commits.Some? && x.commits.value < 0.5
  }

  /** An act that may commit something was reviewed, undenied, or Jev said in so many words that
      it likely does not: no answer, and an answer that leaves it out, are no such word. */
  lemma UnreviewedMeansUnlikely(job: Job, visits: seq<Visit>, turns: seq<Turn>, k: nat, i: nat)
    requires Chronicle(job, visits, turns) && k < |visits|
    requires i < |visits[k].calls| && visits[k].calls[i].Acted?
    requires visits[k].calls[i].action.operation.Click?
    requires visits[k].calls[i].action.control.role in {"button", "link", "menuitem"}
    ensures var a := visits[k].calls[i].action;
      || ReviewedBefore(visits[k].calls, i, visits[k].page, a)
      || (!job.flagged(a.control.name) && SaidUnlikely(visits[k].calls, i, a))
  {
    EveryActWarranted(job, visits, turns, k, i);
    var calls, a := visits[k].calls, visits[k].calls[i].action;
    if !ReviewedBefore(calls, i, visits[k].page, a) {
      var r, j :| 0 <= r < i && r < |calls| && calls[r] == Asked(Commits(a), Returned(j)) && !JudgedToCommit(j);
      assert j.Some? && calls[r] == Asked(Commits(a), Returned(Some(j.value)));
    }
  }

  /** Jev's answer says the action is less likely than not to commit something. */
  predicate Unlikely(judged: Option<Answers>) {
    judged.Some? && judged.value.commits.Some? && judged.value.commits.value < 0.5
  }

  /** The examination of `a`, whole or cut short: a review when its words commit, or when Jev
      does not call it unlikely. */
  ghost predicate Judged(flagged: string -> bool, page: Page, a: Action, exam: seq<Call>) {
    if flagged(a.control.name) then
      |exam| == 1 && exam[0].Reviewed? && exam[0].action == a && exam[0].page == page
    else
      && exam != [] && exam[0].Asked? && exam[0].question == Commits(a)
      && if exam[0].reply.Threw? || Unlikely(exam[0].reply.value) then |exam| == 1
         else |exam| == 2 && exam[1].Reviewed? && exam[1].action == a && exam[1].page == page
  }

  predicate ClicksCommitRole(a: Action) {
    a.operation.Click? && a.control.role in {"button", "link", "menuitem"}
  }

  lemma ExaminedJudged(flagged: string -> bool, page: Page, a: Action, exam: seq<Call>, refusal: Option<string>)
    requires Examined(flagged, page, a, exam, refusal) || CutShort(flagged, page, a, exam)
    ensures if ClicksCommitRole(a) then Judged(flagged, page, a, exam) else exam == []
  {
    if |exam| == 2 {
      assert exam[1] == exam[1..][0];
    }
  }

  /** What follows the questions about the page: the examination, and the act after it. */
  lemma RestJudged(job: Job, page: Page, move: Move, last: Try, rest: seq<Call>, turn: Turn) returns (exam: seq<Call>)
    requires Follows(job, page, move, last, rest, turn) && move.Go?
    ensures if ClicksCommitRole(move.action) then Judged(job.flagged, page, move.action, exam) else exam == []
    ensures rest == exam || (turn.Went? && rest == exam + [ActOf(job, turn)])
  {
    exam := if turn.Went? then rest[..|rest| - 1] else rest;
    var refusal := if turn.Over? && turn.ending.NeedsApproval? then Some(turn.ending.refusal) else None;
    ExaminedJudged(job.flagged, page, move.action, exam, refusal);
  }

  /** In a step, `a` was examined so. */
  ghost predicate JudgedIn(flagged: string -> bool, page: Page, calls: seq<Call>, a: Action) {
    exists n, m :: 0 <= n <= m <= |calls| && Judged(flagged, page, a, calls[n..m])
      && (forall i :: 0 <= i < n ==> calls[i].Asked? && !calls[i].question.Commits?)
      && (forall i :: m <= i < |calls| ==> calls[i].Acted?)
  }

  predicate Examines(c: Call) {
    c.Reviewed? || (c.Asked? && c.question.Commits?)
  }

  lemma SilentExaminesNothing(job: Job, page: Page, done: seq<Note>, calls: seq<Call>, reply: Attempt<Option<Answers>>)
    requires Silent(job, page, done, calls, reply)
    ensures forall i :: 0 <= i < |calls| ==> !Examines(calls[i])
  {
    var actions :| Lists(job.read(page.snapshot), job.values, actions) && Unheard(done, actions, calls, reply);
  }

  lemma HeardExaminesNothing(done: seq<Note>, asks: seq<Call>, h: Hearing, rest: seq<Call>)
    requires Heard(done, asks, h)
    ensures forall i :: 0 <= i < |asks| ==> (asks + rest)[i].Asked? && !Examines((asks + rest)[i])
  {
  }

  lemma AnsweredJudged(job: Job, page: Page, done: seq<Note>, explored: nat, last: Try, calls: seq<Call>, turn: Turn,
                       i: nat)
    requires Answered(job, page, done, explored, last, calls, turn) && i < |calls| && Examines(calls[i])
    ensures exists a :: ClicksCommitRole(a) && JudgedIn(job.flagged, page, calls, a)
  {
    var asks, rest, h := HearingOf(job, page, done, explored, last, calls, turn);
    var move := NextMove(h.page, h.offered, h.answer, explored);
    HeardExaminesNothing(done, asks, h, rest);
    if i >= |asks| {
      var exam := RestJudged(job, page, move, last, rest, turn);
      InTheMiddle(job, page, asks, exam, rest, move.action, turn);
    }
  }

  lemma InTheMiddle(job: Job, page: Page, asks: seq<Call>, exam: seq<Call>, rest: seq<Call>, a: Action, turn: Turn)
    requires rest == exam || (turn.Went? && rest == exam + [ActOf(job, turn)])
    requires exam != [] ==> Judged(job.flagged, page, a, exam)
    requires forall i :: 0 <= i < |asks| ==> (asks + rest)[i].Asked? && !Examines((asks + rest)[i])
    requires exists i :: |asks| <= i < |asks + rest| && Examines((asks + rest)[i])
    ensures exam != [] && JudgedIn(job.flagged, page, asks + rest, a)
  {
    assert (asks + rest)[|asks|..|asks| + |exam|] == exam;
  }

  /** Whenever a step of a run asks whether something commits, or has it reviewed, it is the
      click it has settled on, examined just so: its words commit and it is reviewed at once, or
      Jev is asked and it is reviewed exactly when Jev does not call it unlikely. */
  lemma EveryCommitJudged(job: Job, visits: seq<Visit>, turns: seq<Turn>, k: nat, i: nat)
    requires Chronicle(job, visits, turns) && k < |visits| && i < |visits[k].calls| && Examines(visits[k].calls[i])
    ensures exists a :: ClicksCommitRole(a) && JudgedIn(job.flagged, visits[k].page, visits[k].calls, a)
  {
    assert StepFollows(job, visits, turns, k);
    var calls, page, turn := visits[k].calls, visits[k].page, turns[k];
    var done, explored, last := Notes(visits, turns, k), Explores(turns[..k]), LastTry(visits, turns, k);
    if Answered(job, page, done, explored, last, calls, turn) {
      AnsweredJudged(job, page, done, explored, last, calls, turn, i);
    } else {
      SilentExaminesNothing(job, page, done, calls, if turn == Broke then Threw else Returned(None));
    }
  }
}
