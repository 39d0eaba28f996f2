/** The sign-in debt of an Update or a Reset: a machine that lacks the kept sign-ins should be
    owed them, so that no capture of it replaces them. Over every run, exactly when it is. */
module SignInDebt {
  import opened Wrappers
  import opened ComputerRecords
  import opened ComputerProtocol
  import V = LoginVault

  ghost predicate Lacks(s: Sys) {
    s.vaulted && s.v.kept.Some? && !s.holds
  }

  ghost predicate OwedWhenLacking(s: Sys) {
    Lacks(s) ==> s.v.owedSince.Some?
  }

  /** One command drives the Computer at a time: nothing else captures it while a run is under way. */
  ghost predicate Alone(s: Sys, e: Event) {
    e.KeepElsewhere? ==> s.run == None
  }

  /** The state after the first `k` events, from an empty store with a vault. */
  ghost function After(es: seq<Event>, k: nat): Sys
    requires k <= |es|
  {
    RunAll(Initial(true), es[..k])
  }

  ghost predicate AloneRun(es: seq<Event>) {
    forall k {:trigger After(es, k)} :: 0 <= k < |es| ==> Alone(After(es, k), es[k])
  }

  lemma AfterNext(es: seq<Event>, k: nat)
    requires k < |es|
    ensures After(es, k + 1) == Step(After(es, k), es[k])
  {
    assert es[..k + 1][..|es[..k + 1]| - 1] == es[..k];
  }

  // ---- what has become of the machine, told by events ------------------------------

  predicate Waits(s: Sys, pc: Pc) {
    s.run.Some? && s.run.value.Running? && s.run.value.pc == pc
  }

  /** The call had its effect, whether or not its answer came. */
  predicate Took(e: Event) {
    e.Resume? && (e.answer == Ok || e.answer == Lost(true))
  }

  /** A machine call has its effect in this event: it answered that the machine changed, its
      answer was lost, the Bot was evicted as it landed, or a replacement found no machine. */
  predicate Lands(s: Sys, e: Event) {
    && Waits(s, Calling)
    && match e
       case Evict(landed) => landed
       case Resume(a, _) =>
         a == Changed || a == Lost(true) || (a == Refusal(NotFound) && s.run.value.command.kind == UpdateComputer)
       case _ => false
  }

  /** The kept sign-ins are put back in this event. */
  predicate PutsBack(s: Sys, e: Event) {
    s.run.Some? && s.run.value.Running? && s.run.value.pc.Restoring? && Took(e)
  }

  /** A debt is recorded in this event. */
  predicate Borrows(s: Sys, e: Event) {
    s.v.owedSince == None && Step(s, e).v.owedSince.Some?
  }

  /** Since the standing debt was recorded a machine call landed, and nothing was put back after it. */
  ghost function Emptied(es: seq<Event>, k: nat): bool
    requires k <= |es|
  {
    k > 0 &&
    var s, e := After(es, k - 1), es[k - 1];
    Lands(s, e) || (!PutsBack(s, e) && !Borrows(s, e) && Emptied(es, k - 1))
  }

  /** At event `k` a refused command settles a debt of its own time, though something is kept
      and the machine that held it was changed since that debt was recorded. */
  ghost predicate SettlesEmptied(es: seq<Event>, k: nat)
    requires k < |es|
  {
    var s := After(es, k);
    && Waits(s, Refusing) && Took(es[k])
    && s.v.owedSince == Some(s.run.value.startedAt) && s.v.kept.Some? && Emptied(es, k)
  }

  /** None of the first `n` events is such a settling. */
  ghost predicate NoneSettles(es: seq<Event>, n: nat)
    requires n <= |es|
  {
    forall j {:trigger SettlesEmptied(es, j)} :: 0 <= j < n ==> !SettlesEmptied(es, j)
  }

  // ---- one step --------------------------------------------------------------------

  /** What a run knows of the ledger where it waits. */
  ghost predicate RunKnows(s: Sys) {
    s.vaulted && s.run.Some? && s.run.value.Running? ==>
      match s.run.value.pc
      case Collecting => s.v.kept.Some? ==> s.v.owedSince.Some?
      case Calling => s.v.kept.Some? ==> s.v.owedSince.Some?
      case Restoring(_, _, kept) => s.v.owedSince.Some? ==> s.v.kept == Some(kept)
      case RestoreSettle(_, _) => s.v.owedSince.Some? ==> !Lacks(s)
      case _ => true
  }

  ghost predicate DebtFacts(s: Sys) {
    OwedWhenLacking(s) && RunKnows(s)
  }

  /** The settling of a refusal that loses the debt. */
  ghost predicate Loses(s: Sys, e: Event) {
    Waits(s, Refusing) && Took(e) && s.v.owedSince == Some(s.run.value.startedAt) && Lacks(s)
  }

  lemma DebtingStep(s: Sys, a: Answer, now: int)
    requires DebtFacts(s) && s.run.Some? && s.run.value.Running?
    requires Debting(s.run.value.pc) || s.run.value.pc in {Collecting, Calling}
    ensures DebtFacts(ResumeRun(s, a, now))
  {
  }

  lemma RefusingStep(s: Sys, a: Answer, now: int)
    requires DebtFacts(s) && Waits(s, Refusing)
    ensures RunKnows(ResumeRun(s, a, now))
    ensures OwedWhenLacking(ResumeRun(s, a, now)) <==> !Loses(s, Resume(a, now))
  {
  }

  lemma OpeningStep(s: Sys, a: Answer, now: int)
    requires DebtFacts(s) && s.run.Some? && s.run.value.Running?
    requires !Debting(s.run.value.pc) && s.run.value.pc !in {Collecting, Calling, Refusing}
    ensures DebtFacts(ResumeRun(s, a, now))
  {
  }

  /** One step keeps a lacking machine owed exactly when it is no such settling. */
  lemma StepKeepsDebt(s: Sys, e: Event)
    requires DebtFacts(s) && Alone(s, e)
    ensures RunKnows(Step(s, e))
    ensures OwedWhenLacking(Step(s, e)) <==> !Loses(s, e)
  {
    if e.Resume? && s.run.Some? && s.run.value.Running? {
      var pc := s.run.value.pc;
      if pc == Refusing {
        RefusingStep(s, e.answer, e.now);
      } else if Debting(pc) || pc in {Collecting, Calling} {
        DebtingStep(s, e.answer, e.now);
      } else {
        OpeningStep(s, e.answer, e.now);
      }
    }
  }

  /** While a debt stands over something kept, the events tell whether the machine lacks it. */
  ghost predicate Told(s: Sys, emptied: bool) {
    s.vaulted && s.v.kept.Some? && s.v.owedSince.Some? ==> (emptied <==> !s.holds)
  }

  lemma OutsideTold(s: Sys, e: Event, emptied: bool)
    requires DebtFacts(s) && Told(s, emptied) && (e.Resume? ==> s.run.None? || s.run.value.Starting?)
    ensures Told(Step(s, e), Lands(s, e) || (!PutsBack(s, e) && !Borrows(s, e) && emptied))
  {
  }

  lemma CallTold(s: Sys, e: Event, emptied: bool)
    requires DebtFacts(s) && Told(s, emptied) && e.Resume? && Waits(s, Calling)
    ensures Told(Step(s, e), Lands(s, e) || emptied)
  {
  }

  lemma OtherTold(s: Sys, e: Event, emptied: bool)
    requires DebtFacts(s) && Told(s, emptied) && e.Resume? && s.run.Some? && s.run.value.Running? && !Waits(s, Calling)
    ensures Told(Step(s, e), !PutsBack(s, e) && !Borrows(s, e) && emptied)
  {
  }

  lemma StepTold(s: Sys, e: Event, emptied: bool)
    requires DebtFacts(s) && Told(s, emptied)
    ensures Told(Step(s, e), Lands(s, e) || (!PutsBack(s, e) && !Borrows(s, e) && emptied))
  {
    if e.Resume? && Waits(s, Calling) {
      CallTold(s, e, emptied);
      assert !PutsBack(s, e) && !Borrows(s, e);
    } else if e.Resume? && s.run.Some? && s.run.value.Running? {
      OtherTold(s, e, emptied);
    } else {
      OutsideTold(s, e, emptied);
    }
  }

  // ---- over runs -------------------------------------------------------------------

  lemma VaultStays(es: seq<Event>, k: nat)
    requires k <= |es|
    ensures After(es, k).vaulted && Inv(After(es, k))
  {
    ReachableOk(Initial(true), es[..k]);
  }

  lemma LosesTold(es: seq<Event>, k: nat)
    requires k < |es| && Told(After(es, k), Emptied(es, k))
    ensures Loses(After(es, k), es[k]) <==> SettlesEmptied(es, k)
  {
    VaultStays(es, k);
  }

  lemma {:induction false} DebtSoFar(es: seq<Event>, n: nat)
    requires AloneRun(es) && n <= |es|
    requires NoneSettles(es, n)
    ensures DebtFacts(After(es, n)) && Told(After(es, n), Emptied(es, n))
  {
    if n > 0 {
      DebtSoFar(es, n - 1);
      LosesTold(es, n - 1);
      AfterNext(es, n - 1);
      StepKeepsDebt(After(es, n - 1), es[n - 1]);
      StepTold(After(es, n - 1), es[n - 1], Emptied(es, n - 1));
    }
  }

  lemma {:induction false} FirstSettled(es: seq<Event>, n: nat) returns (k: nat)
    requires n <= |es| && !NoneSettles(es, n)
    ensures k < n && SettlesEmptied(es, k) && NoneSettles(es, k)
  {
    if NoneSettles(es, n - 1) {
      k := n - 1;
    } else {
      k := FirstSettled(es, n - 1);
    }
  }

  lemma SettledIsLost(es: seq<Event>)
    requires AloneRun(es) && !NoneSettles(es, |es|)
    ensures exists k :: 0 <= k <= |es| && !OwedWhenLacking(After(es, k))
  {
    var k := FirstSettled(es, |es|);
    DebtSoFar(es, k);
    LosesTold(es, k);
    AfterNext(es, k);
    StepKeepsDebt(After(es, k), es[k]);
    assert !OwedWhenLacking(After(es, k + 1));
  }

  /** Over any run, with any evictions and deletions: a machine that lacks the kept sign-ins is
      owed them throughout if and only if no refused command settles, under its own time, a
      debt since which the machine was changed. */
  lemma DebtKeptExactly(es: seq<Event>)
    requires AloneRun(es)
    ensures (forall k {:trigger After(es, k)} :: 0 <= k <= |es| ==> OwedWhenLacking(After(es, k))) <==>
            NoneSettles(es, |es|)
  {
    if !NoneSettles(es, |es|) {
      SettledIsLost(es);
    } else {
      forall k | 0 <= k <= |es|
        ensures OwedWhenLacking(After(es, k))
      {
        DebtSoFar(es, k);
      }
    }
  }

  /** So, without such a settling, no capture of a lacking machine changes what is kept. */
  lemma LackingNeverKept(es: seq<Event>, capturedAt: int)
    requires AloneRun(es) && Lacks(After(es, |es|))
    requires NoneSettles(es, |es|)
    ensures
      var s := After(es, |es|);
      V.KeepIn(s.v, capturedAt) == s.v && Keep(s, capturedAt) == s
  {
    DebtSoFar(es, |es|);
  }

  // ---- the same, as one command sees it --------------------------------------------

  /** Whose run recorded the standing debt. */
  ghost function Debtor(es: seq<Event>, k: nat): string
    requires k <= |es|
  {
    if k == 0 then ""
    else
      var s := After(es, k - 1);
      if Borrows(s, es[k - 1]) && s.run.Some? && s.run.value.Running? then s.run.value.command.commandId
      else Debtor(es, k - 1)
  }

  /** A machine call of `id` landed since the standing debt was recorded. */
  ghost function LandedSince(es: seq<Event>, k: nat, id: string): bool
    requires k <= |es|
  {
    k > 0 &&
    var s, e := After(es, k - 1), es[k - 1];
    (Lands(s, e) && s.run.value.command.commandId == id) || (!Borrows(s, e) && LandedSince(es, k - 1, id))
  }

  /** Only a connect waits to connect, and a renewal past its machine call has recorded it. */
  ghost predicate PastMachine(s: Sys) {
    s.run.Some? && s.run.value.Running? ==>
      var run := s.run.value;
      && (run.pc == Connecting ==> run.command.kind == Connect)
      && (run.command.kind != Connect && !Debting(run.pc) && !BeforeMachine(run.pc) && !run.pc.Finishing? ==>
            s.r.pending.Some? && s.r.pending.value.machineAt.Some?)
  }

  lemma BeforePastMachine(s: Sys, a: Answer, now: int)
    requires Inv(s) && PastMachine(s) && s.run.Some? && s.run.value.Running?
    requires Debting(s.run.value.pc) || BeforeMachine(s.run.value.pc)
    ensures PastMachine(ResumeRun(s, a, now))
  {
  }

  lemma BehindPastMachine(s: Sys, a: Answer, now: int)
    requires Inv(s) && PastMachine(s) && s.run.Some? && s.run.value.Running?
    requires !Debting(s.run.value.pc) && !BeforeMachine(s.run.value.pc)
    ensures PastMachine(ResumeRun(s, a, now))
  {
  }

  lemma StepPastMachine(s: Sys, e: Event)
    requires Inv(s) && PastMachine(s)
    ensures PastMachine(Step(s, e))
  {
    StepKeepsAll(s, e);
    if e.Resume? && s.run.Some? && s.run.value.Running? {
      if Debting(s.run.value.pc) || BeforeMachine(s.run.value.pc) {
        BeforePastMachine(s, e.answer, e.now);
      } else {
        BehindPastMachine(s, e.answer, e.now);
      }
    }
  }

  /** The pending command still before its machine call, whose own run recorded the debt. */
  ghost predicate OwesItself(s: Sys, debtor: string) {
    && s.v.owedSince.Some? && s.r.pending.Some? && s.r.pending.value.commandId == debtor
    && s.r.pending.value.machineAt == None
    && debtor in s.r.intents && s.r.intents[debtor].command.kind != Connect
  }

  ghost predicate DebtorKnown(s: Sys, debtor: string) {
    s.v.owedSince.Some? ==> debtor in s.r.intents
  }

  /** Before its machine call is recorded, a command that owes its own debt has put nothing
      back: the machine was changed since exactly when a call of its own landed. */
  ghost predicate OwnTold(s: Sys, debtor: string, emptied: bool, landed: bool) {
    OwesItself(s, debtor) ==> (emptied <==> landed)
  }

  lemma StepOwnTold(s: Sys, e: Event, debtor: string, emptied: bool, landed: bool)
    requires Inv(s) && PastMachine(s) && DebtorKnown(s, debtor) && OwnTold(s, debtor, emptied, landed) && !Borrows(s, e)
    ensures DebtorKnown(Step(s, e), debtor)
    ensures OwnTold(Step(s, e), debtor,
                    Lands(s, e) || (!PutsBack(s, e) && emptied),
                    (Lands(s, e) && s.run.value.command.commandId == debtor) || landed)
  {
    StepKeepsAll(s, e);
    if OwesItself(Step(s, e), debtor) {
      StillOwesItself(s, e, debtor);
    }
  }

  lemma StillOwesItself(s: Sys, e: Event, debtor: string)
    requires Inv(s) && DebtorKnown(s, debtor) && !Borrows(s, e) && OwesItself(Step(s, e), debtor)
    ensures OwesItself(s, debtor)
  {
    StepKeepsAll(s, e);
    var z := Step(s, e);
    assert s.v.owedSince.Some?;
    assert Owes(z.r, debtor);
    assert Owes(s.r, debtor);
  }

  lemma OnlyOwingBorrows(s: Sys, a: Answer, now: int)
    requires s.run.Some? && s.run.value.Running? && s.v.owedSince == None && ResumeRun(s, a, now).v.owedSince.Some?
    ensures s.run.value.pc == Owing
  {
  }

  lemma BorrowsOwn(s: Sys, e: Event)
    requires Inv(s) && Borrows(s, e)
    ensures s.run.Some? && s.run.value.Running? && s.run.value.command.commandId in Step(s, e).r.intents
    ensures !Lands(s, e) && !PutsBack(s, e)
  {
    StepKeepsAll(s, e);
    if e.Resume? && s.run.Some? && s.run.value.Running? {
      OnlyOwingBorrows(s, e.answer, e.now);
    }
  }

  lemma {:induction false} OwnDebtTold(es: seq<Event>, n: nat)
    requires n <= |es|
    ensures Inv(After(es, n)) && PastMachine(After(es, n)) && DebtorKnown(After(es, n), Debtor(es, n))
    ensures OwnTold(After(es, n), Debtor(es, n), Emptied(es, n), LandedSince(es, n, Debtor(es, n)))
  {
    VaultStays(es, n);
    if n > 0 {
      OwnDebtTold(es, n - 1);
      var s, e := After(es, n - 1), es[n - 1];
      AfterNext(es, n - 1);
      StepPastMachine(s, e);
      if Borrows(s, e) {
        BorrowsOwn(s, e);
      } else {
        StepOwnTold(s, e, Debtor(es, n - 1), Emptied(es, n - 1), LandedSince(es, n - 1, Debtor(es, n - 1)));
      }
    }
  }

  /** As the refused command sees it: where it waits to settle the debt its own run recorded, the
      machine lacks what is kept exactly when something is kept and an earlier call of this
      very command landed since. */
  lemma OwnRefusalLacks(es: seq<Event>, k: nat)
    requires AloneRun(es) && k <= |es|
    requires NoneSettles(es, k)
    requires Waits(After(es, k), Refusing) && After(es, k).v.owedSince.Some?
    requires After(es, k).run.value.command.commandId == Debtor(es, k)
    ensures Lacks(After(es, k)) <==> After(es, k).v.kept.Some? && LandedSince(es, k, Debtor(es, k))
  {
    DebtSoFar(es, k);
    OwnDebtTold(es, k);
    VaultStays(es, k);
  }

  // ---- runs that break it ----------------------------------------------------------

  const UPDATE := Command("c1", "bot", UpdateComputer)

  /** A capture is kept, an Update is asked for and reaches its machine call; the Bot is
      evicted as the call lands; the replay reaches the call again and is refused as if the
      machine were untouched. */
  const REFUSED_REPLAY: seq<Event> := [
    KeepElsewhere(1), Execute("user", UPDATE, 10), Alarm(2000),
    Resume(Ok, 2000), Resume(Ok, 2000), Resume(Ok, 2000), Resume(Ok, 2000), Resume(Ok, 2000),
    Evict(true), Alarm(2000),
    Resume(Ok, 2000), Resume(Ok, 2000), Resume(Ok, 2000), Resume(Ok, 2000), Resume(Ok, 2000),
    Resume(Refusal(Conflict), 2000), Resume(Ok, 2000)]

  function Waiting(pc: Pc, owed: Option<int>, holds: bool, log: seq<Entry>): Sys {
    var p := Pending("user", "c1", 10, Some(62000), None);
    Sys(Records(map["c1" := Intent(FingerprintOf(UPDATE), UPDATE, 10)], map[], Some(p)), None, None,
        Some(Running(UPDATE, 10, p, None, pc)), true, V.Ledger(Some(1), owed, None), holds, log)
  }

  function Stage(k: nat): Sys
    requires k <= 17
  {
    var call := Issued("c1", EffectOf(UPDATE), None);
    if k == 0 then Initial(true)
    else if k == 1 then Initial(true).(v := V.Ledger(Some(1), None, None))
    else if k == 2 then Waiting(Fence1, None, true, []).(run := None,
      r := Records(map["c1" := Intent(FingerprintOf(UPDATE), UPDATE, 10)], map[],
                   Some(Pending("user", "c1", 10, Some(1010), None))))
    else if k == 3 then Waiting(Fence1, None, true, []).(run := Some(Starting))
    else if k == 4 then Waiting(Fence1, None, true, [])
    else if k == 5 then Waiting(Capturing, None, true, [])
    else if k == 6 then Waiting(Owing, None, true, [])
    else if k == 7 then Waiting(Collecting, Some(10), true, [])
    else if k == 8 then Waiting(Calling, Some(10), true, [call])
    else if k == 9 then Waiting(Calling, Some(10), false, [call]).(run := None)
    else if k == 10 then Waiting(Calling, Some(10), false, [call]).(run := Some(Starting))
    else if k == 11 then Waiting(Fence1, Some(10), false, [call])
    else if k == 12 then Waiting(Capturing, Some(10), false, [call])
    else if k == 13 then Waiting(Owing, Some(10), false, [call])
    else if k == 14 then Waiting(Collecting, Some(10), false, [call])
    else if k == 15 then Waiting(Calling, Some(10), false, [call, call])
    else if k == 16 then Waiting(Refusing, Some(10), false, [call, call])
    else Waiting(Finishing(Rejected("refused")), None, false, [call, call])
  }

  lemma FirstStages(k: nat)
    requires k < 3
    ensures Step(Stage(k), REFUSED_REPLAY[k]) == Stage(k + 1)
  {
  }

  lemma DebtStages(k: nat)
    requires 3 <= k < 7
    ensures Step(Stage(k), REFUSED_REPLAY[k]) == Stage(k + 1)
  {
  }

  lemma CallStages(k: nat)
    requires 7 <= k < 9
    ensures Step(Stage(k), REFUSED_REPLAY[k]) == Stage(k + 1)
  {
  }

  lemma ReplayStages(k: nat)
    requires 9 <= k < 13
    ensures Step(Stage(k), REFUSED_REPLAY[k]) == Stage(k + 1)
  {
  }

  lemma RefusedStages(k: nat)
    requires 13 <= k < 17
    ensures Step(Stage(k), REFUSED_REPLAY[k]) == Stage(k + 1)
  {
  }

  lemma {:induction false} ReachesStage(k: nat)
    requires k <= 17
    ensures RunAll(Initial(true), REFUSED_REPLAY[..k]) == Stage(k)
  {
    if k > 0 {
      ReachesStage(k - 1);
      assert REFUSED_REPLAY[..k][..|REFUSED_REPLAY[..k]| - 1] == REFUSED_REPLAY[..k - 1];
      if k - 1 < 3 {
        FirstStages(k - 1);
      } else if k - 1 < 7 {
        DebtStages(k - 1);
      } else if k - 1 < 9 {
        CallStages(k - 1);
      } else if k - 1 < 13 {
        ReplayStages(k - 1);
      } else {
        RefusedStages(k - 1);
      }
    }
  }

  lemma AtStage(k: nat)
    requires k <= 17
    ensures |REFUSED_REPLAY| == 17 && After(REFUSED_REPLAY, k) == Stage(k)
  {
    ReachesStage(k);
  }

  lemma ReplayOwes(k: nat)
    requires 9 <= k < 16
    ensures !PutsBack(Stage(k), REFUSED_REPLAY[k]) && Stage(k).v.owedSince == Some(10)
  {
  }

  lemma {:induction false} EmptiedAtStage(k: nat)
    requires 9 <= k <= 16
    ensures Emptied(REFUSED_REPLAY, k)
  {
    AtStage(k - 1);
    if k == 9 {
      assert Lands(Stage(8), REFUSED_REPLAY[8]);
    } else {
      EmptiedAtStage(k - 1);
      ReplayOwes(k - 1);
    }
  }

  lemma AloneReplay()
    ensures AloneRun(REFUSED_REPLAY)
  {
    AtStage(0);
    assert forall k :: 0 < k < |REFUSED_REPLAY| ==> !REFUSED_REPLAY[k].KeepElsewhere?;
  }

  /** A replay refused after its first attempt changed the machine settles the debt of a
      machine that lacks the kept sign-ins. */
  lemma RefusedReplayLosesDebt()
    ensures AloneRun(REFUSED_REPLAY) && |REFUSED_REPLAY| == 17 && SettlesEmptied(REFUSED_REPLAY, 16)
    ensures
      var s := After(REFUSED_REPLAY, 17);
      Lacks(s) && s.v.owedSince == None
  {
    AloneReplay();
    EmptiedAtStage(16);
    AtStage(16);
    AtStage(17);
  }
}
