/** What a scheduled command achieves: answered as it should be, its run ends in an applied
    receipt, and the machine holds the kept sign-ins again with nothing owed; and an applied
    receipt was earned. */
module CommandOutcomes {
  import opened Wrappers
  import opened ComputerRecords
  import opened ComputerProtocol
  import opened SignInDebt
  import V = LoginVault

  /** The call a run waits for answers as it should. */
  predicate AnswersWell(pc: Pc, a: Answer) {
    match pc
    case Connecting => a.Viewer?
    case Opening => a.Viewer?
    case Capturing => a.Captured?
    case Calling => a == Changed
    case _ => a == Ok
  }

  /** Nothing goes wrong in this event: an awaited call answers as it should, and nothing is
      evicted, deleted or captured elsewhere. Other commands may come, and alarms. */
  predicate GoesWell(s: Sys, e: Event) {
    match e
    case Resume(a, _) => s.run.Some? && s.run.value.Running? ==> AnswersWell(s.run.value.pc, a)
    case Evict(_) => false
    case DeleteComputer(_) => false
    case KeepElsewhere(_) => false
    case _ => true
  }

  ghost predicate AllGoWell(s: Sys, es: seq<Event>) {
    forall k {:trigger es[k]} :: 0 <= k < |es| ==> GoesWell(RunAll(s, es[..k]), es[k])
  }

  function Resumes(es: seq<Event>): nat {
    if es == [] then 0 else Resumes(es[..|es| - 1]) + if es[|es| - 1].Resume? then 1 else 0
  }

  /** The pending command's run is under way, and no deletion came since it was admitted. */
  ghost predicate Due(s: Sys, id: string) {
    && s.run.Some? && s.r.pending.Some? && s.r.pending.value.commandId == id && id in s.r.intents
    && (s.vaulted ==> !V.DeletedSince(s.v.deletedAt, s.r.intents[id].admittedAt))
  }

  /** The command's run is over: applied, nothing pending, a viewer open, nothing owed and
      nothing lacking. */
  ghost predicate Achieved(s: Sys, id: string) {
    && s.run == None && s.r.pending == None
    && id in s.r.receipts && s.r.receipts[id].status == Applied
    && s.viewer.Some? && s.live == s.viewer
    && (s.vaulted ==> s.v.owedSince == None && (s.v.kept.Some? ==> s.holds))
  }

  /** What a run that has gone well so far knows where it waits. */
  ghost predicate OnCourse(s: Sys, id: string) {
    && RunOk(s) && OwedWhenLacking(s) && Due(s, id)
    && (s.run.value.Running? ==>
          match s.run.value.pc
          case Refusing => false
          case Connecting => s.run.value.command.kind == Connect
          case Fence1 => s.vaulted
          case Capturing => s.vaulted
          case Keeping(_) => s.vaulted
          case Owing => s.vaulted
          case Fence2 => s.vaulted && s.run.value.command.kind != Connect
          case Opening => s.run.value.command.kind != Connect
          case RestoreAsk(_) => s.vaulted && ViewerReady(s)
          case RestoreKept(_, since) => s.v.owedSince == Some(since) && ViewerReady(s)
          case Restoring(_, since, _) => s.v.owedSince == Some(since) && ViewerReady(s)
          case RestoreSettle(_, since) => s.v.owedSince == Some(since) && ViewerReady(s)
          case Recording(_) => s.vaulted ==> s.v.owedSince == None
          case Finishing(status) =>
            status == Applied && s.viewer.Some? && s.live == s.viewer && (s.vaulted ==> s.v.owedSince == None)
          case _ => true)
  }

  /** A connect has its viewer before it restores; the others record theirs afterwards. */
  predicate ViewerReady(s: Sys) {
    s.run.Some? && s.run.value.Running? && s.run.value.command.kind == Connect ==>
      s.viewer.Some? && s.live == s.viewer
  }

  /** The most steps left to a run that goes well. */
  function StepsLeft(run: Run): (n: nat)
    ensures n >= 1
  {
    if run.Starting? then 16
    else match run.pc
         case Fence1 => 15
         case Capturing => 14
         case Keeping(_) => 13
         case Owing => 12
         case Collecting => 11
         case Calling => 10
         case Refusing => 10
         case Clearing => 9
         case Fence2 => 8
         case Opening => 7
         case Connecting => 7
         case RestoreAsk(_) => 6
         case RestoreKept(_, _) => 5
         case Restoring(_, _, _) => 4
         case RestoreSettle(_, _) => 3
         case Recording(_) => 2
         case Finishing(_) => 1
  }

  ghost predicate Nearer(s: Sys, s': Sys, id: string)
    requires s.run.Some?
  {
    Achieved(s', id) || (OnCourse(s', id) && StepsLeft(s'.run.value) < StepsLeft(s.run.value))
  }

  lemma StartsWell(s: Sys, id: string)
    requires OnCourse(s, id) && s.run.value.Starting? && RunOk(Start(s)) && Scheduled(s.r.intents[id].command.kind)
    ensures Nearer(s, Start(s), id)
  {
  }

  lemma DebtsWell(s: Sys, a: Answer, now: int, id: string)
    requires OnCourse(s, id) && s.run.value.Running? && Debting(s.run.value.pc) && AnswersWell(s.run.value.pc, a)
    requires RunOk(ResumeRun(s, a, now)) && OwedWhenLacking(ResumeRun(s, a, now))
    ensures Nearer(s, ResumeRun(s, a, now), id)
  {
  }

  lemma ChangesWell(s: Sys, a: Answer, now: int, id: string)
    requires OnCourse(s, id) && s.run.value.Running? && AnswersWell(s.run.value.pc, a)
    requires s.run.value.pc in {Collecting, Calling, Clearing, Fence2, Opening}
    requires RunOk(ResumeRun(s, a, now)) && OwedWhenLacking(ResumeRun(s, a, now))
    ensures Nearer(s, ResumeRun(s, a, now), id)
  {
  }

  lemma AsksWell(s: Sys, a: Answer, now: int, id: string)
    requires OnCourse(s, id) && s.run.value.Running? && s.run.value.pc.RestoreAsk? && AnswersWell(s.run.value.pc, a)
    requires RunOk(ResumeRun(s, a, now)) && OwedWhenLacking(ResumeRun(s, a, now))
    ensures Nearer(s, ResumeRun(s, a, now), id)
  {
  }

  lemma ReadsWell(s: Sys, a: Answer, now: int, id: string)
    requires OnCourse(s, id) && s.run.value.Running? && s.run.value.pc.RestoreKept? && AnswersWell(s.run.value.pc, a)
    requires RunOk(ResumeRun(s, a, now)) && OwedWhenLacking(ResumeRun(s, a, now))
    ensures Nearer(s, ResumeRun(s, a, now), id)
  {
  }

  lemma RestoresWell(s: Sys, a: Answer, now: int, id: string)
    requires OnCourse(s, id) && s.run.value.Running? && (s.run.value.pc.Restoring? || s.run.value.pc.RestoreSettle?)
    requires AnswersWell(s.run.value.pc, a)
    requires RunOk(ResumeRun(s, a, now)) && OwedWhenLacking(ResumeRun(s, a, now))
    ensures Nearer(s, ResumeRun(s, a, now), id)
  {
  }

  lemma EndsWell(s: Sys, a: Answer, now: int, id: string)
    requires OnCourse(s, id) && s.run.value.Running? && (s.run.value.pc.Recording? || s.run.value.pc.Finishing?)
    requires Scheduled(s.r.intents[id].command.kind) && id !in s.r.receipts
    requires RunOk(ResumeRun(s, a, now)) && OwedWhenLacking(ResumeRun(s, a, now))
    ensures Nearer(s, ResumeRun(s, a, now), id)
  {
  }

  lemma ResumesWell(s: Sys, a: Answer, now: int, id: string)
    requires Inv(s) && DebtFacts(s) && OnCourse(s, id) && GoesWell(s, Resume(a, now))
    ensures Inv(Step(s, Resume(a, now))) && DebtFacts(Step(s, Resume(a, now)))
    ensures Nearer(s, Step(s, Resume(a, now)), id)
  {
    StepKeepsAll(s, Resume(a, now));
    StepKeepsDebt(s, Resume(a, now));
    assert Owes(s.r, id);
    if s.run.value.Starting? {
      StartsWell(s, id);
    } else if Debting(s.run.value.pc) {
      DebtsWell(s, a, now, id);
    } else if s.run.value.pc.RestoreAsk? {
      AsksWell(s, a, now, id);
    } else if s.run.value.pc.RestoreKept? {
      ReadsWell(s, a, now, id);
    } else if Restores(s.run.value.pc) {
      RestoresWell(s, a, now, id);
    } else if s.run.value.pc.Recording? || s.run.value.pc.Finishing? {
      EndsWell(s, a, now, id);
    } else {
      ChangesWell(s, a, now, id);
    }
  }

  /** Whatever else comes meanwhile leaves the run where it is. */
  lemma OthersLeaveIt(s: Sys, e: Event, id: string)
    requires Inv(s) && DebtFacts(s) && OnCourse(s, id) && GoesWell(s, e) && !e.Resume?
    ensures Inv(Step(s, e)) && DebtFacts(Step(s, e)) && OnCourse(Step(s, e), id) && Step(s, e).run == s.run
  {
    StepKeepsAll(s, e);
    StepKeepsDebt(s, e);
    assert Owes(s.r, id);
    assert Owes(Step(s, e).r, id);
  }

  ghost predicate AchievedIn(s: Sys, es: seq<Event>, id: string) {
    exists n :: 0 <= n <= |es| && Achieved(RunAll(s, es[..n]), id)
  }

  /** Every call answered so far has brought the run nearer its end. */
  ghost predicate StepsTaken(s: Sys, es: seq<Event>, n: nat)
    requires n <= |es| && s.run.Some?
  {
    var z := RunAll(s, es[..n]);
    z.run.Some? && StepsLeft(z.run.value) + Resumes(es[..n]) <= StepsLeft(s.run.value)
  }

  ghost predicate Advanced(s: Sys, es: seq<Event>, n: nat, id: string)
    requires n <= |es| && s.run.Some?
  {
    var z := RunAll(s, es[..n]);
    Inv(z) && DebtFacts(z) && OnCourse(z, id) && StepsTaken(s, es, n)
  }

  lemma AdvancesOne(s: Sys, es: seq<Event>, n: nat, id: string)
    requires s.run.Some? && n < |es| && Advanced(s, es, n, id) && GoesWell(RunAll(s, es[..n]), es[n])
    ensures Achieved(RunAll(s, es[..n + 1]), id) || Advanced(s, es, n + 1, id)
  {
    var z := RunAll(s, es[..n]);
    assert es[..n + 1][..|es[..n + 1]| - 1] == es[..n];
    if es[n].Resume? {
      ResumesWell(z, es[n].answer, es[n].now, id);
    } else {
      OthersLeaveIt(z, es[n], id);
    }
  }

  lemma {:induction false} GetsThere(s: Sys, es: seq<Event>, n: nat, id: string)
    requires Inv(s) && DebtFacts(s) && OnCourse(s, id) && AllGoWell(s, es) && n <= |es|
    ensures AchievedIn(s, es, id) || Advanced(s, es, n, id)
  {
    if n > 0 {
      GetsThere(s, es, n - 1, id);
      if !AchievedIn(s, es, id) {
        AdvancesOne(s, es, n - 1, id);
      }
    }
  }

  lemma CannotGoOn(s: Sys, es: seq<Event>)
    requires s.run == Some(Starting) && StepsTaken(s, es, |es|)
    ensures Resumes(es) < 16
  {
    assert es[..|es|] == es;
  }

  /** From any state of the machine's whose ledger owes what the machine lacks, the pending
      command's run starting: once sixteen calls have answered as they should, with no
      eviction, deletion or capture elsewhere, the run has ended in an applied receipt,
      with nothing owed and the machine holding whatever is kept. */
  lemma {:induction false} WellAnsweredAchieves(s: Sys, es: seq<Event>, id: string)
    requires Inv(s) && OwedWhenLacking(s) && Due(s, id) && s.run == Some(Starting)
    requires AllGoWell(s, es) && Resumes(es) >= 16
    ensures AchievedIn(s, es, id)
  {
    GetsThere(s, es, |es|, id);
    if !AchievedIn(s, es, id) {
      CannotGoOn(s, es);
    }
  }

  // ---- a debt that outlives a restore ----------------------------------------------

  /** The answers to the four calls of a restore, as one run of events. */
  function Answered(a: Answer, b: Answer, c: Answer, d: Answer, now: int): seq<Event> {
    [Resume(a, now), Resume(b, now), Resume(c, now), Resume(d, now)]
  }

  lemma FourSteps(s: Sys, a: Answer, b: Answer, c: Answer, d: Answer, now: int)
    ensures RunAll(s, Answered(a, b, c, d, now)) ==
            Step(Step(Step(Step(s, Resume(a, now)), Resume(b, now)), Resume(c, now)), Resume(d, now))
  {
    var es := Answered(a, b, c, d, now);
    assert es[..3][..2] == es[..2] && es[..2][..1] == es[..1] && es[..1][..0] == [];
    assert RunAll(s, es[..1]) == Step(s, es[0]);
    assert RunAll(s, es[..2]) == Step(RunAll(s, es[..1]), es[1]);
    assert RunAll(s, es[..3]) == Step(RunAll(s, es[..2]), es[2]);
  }

  predicate PastRestore(s: Sys) {
    s.run.Some? ==> s.run.value.Running? && (s.run.value.pc.Recording? || s.run.value.pc.Finishing?)
  }

  lemma LeavesLedger(s: Sys, a: Answer, now: int)
    requires PastRestore(s)
    ensures
      var z := Step(s, Resume(a, now));
      PastRestore(z) && z.v == s.v && z.holds == s.holds
  {
  }

  predicate RestoringFor(s: Sys, since: int) {
    s.run.Some? && s.run.value.Running? && s.v.owedSince == Some(since) &&
    match s.run.value.pc
    case RestoreKept(_, at) => at == since
    case Restoring(_, at, kept) => at == since && s.v.kept == Some(kept)
    case RestoreSettle(_, at) => at == since
    case _ => false
  }

  lemma Asked(s: Sys, a: Answer, now: int)
    requires s.run.Some? && s.run.value.Running? && s.run.value.pc.RestoreAsk? && s.v.owedSince.Some?
    ensures
      var z := Step(s, Resume(a, now));
      && z.v == s.v && z.holds == s.holds
      && (if a == Ok then RestoringFor(z, s.v.owedSince.value) && z.run.value.pc.RestoreKept? else PastRestore(z))
  {
  }

  lemma ReadKept(s: Sys, a: Answer, now: int)
    requires s.v.owedSince.Some? && RestoringFor(s, s.v.owedSince.value) && s.run.value.pc.RestoreKept?
    ensures
      var z := Step(s, Resume(a, now));
      && z.v == s.v && z.holds == s.holds
      && (if a != Ok then PastRestore(z)
          else RestoringFor(z, s.v.owedSince.value) &&
               (if s.v.kept.Some? then z.run.value.pc.Restoring? else z.run.value.pc.RestoreSettle?))
  {
  }

  lemma PutBack(s: Sys, a: Answer, now: int)
    requires s.v.owedSince.Some? && RestoringFor(s, s.v.owedSince.value) && s.run.value.pc.Restoring?
    ensures
      var z := Step(s, Resume(a, now));
      && z.v == s.v && z.holds == (s.holds || a == Ok || a == Lost(true))
      && (if a == Ok then RestoringFor(z, s.v.owedSince.value) && z.run.value.pc.RestoreSettle? else PastRestore(z))
  {
  }

  lemma PaidBack(s: Sys, a: Answer, now: int)
    requires s.v.owedSince.Some? && RestoringFor(s, s.v.owedSince.value) && s.run.value.pc.RestoreSettle?
    ensures
      var z := Step(s, Resume(a, now));
      && z.v.kept == s.v.kept && z.holds == s.holds && PastRestore(z)
      && z.v.owedSince == if a == Ok || a == Lost(true) then None else s.v.owedSince
  {
  }

  /** Past its second fence, a debt standing over something kept: it stays owed exactly when
      the ask, the read or the restore was lost, or the settling took no effect; and the
      machine has the sign-ins back exactly when the restore took effect. */
  lemma DebtOutlivesRestore(s: Sys, a: Answer, b: Answer, c: Answer, d: Answer, now: int)
    requires s.run.Some? && s.run.value.Running? && s.run.value.pc.RestoreAsk?
    requires s.v.owedSince.Some? && s.v.kept.Some?
    ensures
      var z := RunAll(s, Answered(a, b, c, d, now));
      && z.v.kept == s.v.kept
      && z.v.owedSince ==
         (if a == Ok && b == Ok && c == Ok && (d == Ok || d == Lost(true)) then None else s.v.owedSince)
      && (z.holds <==> s.holds || (a == Ok && b == Ok && (c == Ok || c == Lost(true))))
  {
    FourSteps(s, a, b, c, d, now);
    var s1 := Step(s, Resume(a, now));
    var s2 := Step(s1, Resume(b, now));
    var s3 := Step(s2, Resume(c, now));
    Asked(s, a, now);
    if a != Ok { LeavesLedger(s1, b, now); } else { ReadKept(s1, b, now); }
    if a != Ok || b != Ok { LeavesLedger(s2, c, now); } else { PutBack(s2, c, now); }
    if a != Ok || b != Ok || c != Ok { LeavesLedger(s3, d, now); } else { PaidBack(s3, d, now); }
  }

  /** With nothing kept there is nothing to put back, and the debt is settled at once. */
  lemma NothingToRestore(s: Sys, a: Answer, b: Answer, c: Answer, d: Answer, now: int)
    requires s.run.Some? && s.run.value.Running? && s.run.value.pc.RestoreAsk?
    requires s.v.owedSince.Some? && s.v.kept == None
    ensures
      var z := RunAll(s, Answered(a, b, c, d, now));
      && z.v.kept == None && z.holds == s.holds
      && z.v.owedSince == if a == Ok && b == Ok && (c == Ok || c == Lost(true)) then None else s.v.owedSince
  {
    FourSteps(s, a, b, c, d, now);
    var s1 := Step(s, Resume(a, now));
    var s2 := Step(s1, Resume(b, now));
    var s3 := Step(s2, Resume(c, now));
    Asked(s, a, now);
    if a != Ok { LeavesLedger(s1, b, now); } else { ReadKept(s1, b, now); }
    if a != Ok || b != Ok { LeavesLedger(s2, c, now); } else { PaidBack(s2, c, now); }
    LeavesLedger(s3, d, now);
  }

  predicate FoundNoMachine(s: Sys, code: Code) {
    s.run.Some? && s.run.value.Running? && code == NotFound && s.run.value.command.kind == UpdateComputer
  }

  lemma RefusalAnswered(s: Sys, code: Code, now: int)
    requires (Waits(s, Collecting) || Waits(s, Calling)) && s.vaulted
    ensures
      var y := Step(s, Resume(Refusal(code), now));
      && y.v == s.v && y.run.Some? && y.run.value.Running? && y.run.value.startedAt == s.run.value.startedAt
      && Waits(y, if FoundNoMachine(s, code) then Finishing(Rejected("refused")) else Refusing)
      && (y.holds <==> s.holds && !(FoundNoMachine(s, code) && Waits(s, Calling)))
  {
  }

  lemma SettlingAnswered(s: Sys, b: Answer, now: int)
    requires Waits(s, Refusing) && s.v.owedSince == Some(s.run.value.startedAt)
    ensures
      var z := Step(s, Resume(b, now));
      && z.v.kept == s.v.kept && z.holds == s.holds && Waits(z, Finishing(Rejected("refused")))
      && z.v.owedSince == (if b == Ok || b == Lost(true) then None else s.v.owedSince)
  {
  }

  /** A refused Update or Reset that owes its own debt: the debt is settled exactly when the
      settling takes effect, and never when an Update found no machine, which then stays owed. */
  lemma RefusalSettles(s: Sys, code: Code, b: Answer, now: int)
    requires (Waits(s, Collecting) || Waits(s, Calling)) && s.vaulted
    requires s.v.owedSince == Some(s.run.value.startedAt)
    ensures
      var z := Step(Step(s, Resume(Refusal(code), now)), Resume(b, now));
      && z.v.kept == s.v.kept
      && z.v.owedSince == (if !FoundNoMachine(s, code) && (b == Ok || b == Lost(true)) then None else s.v.owedSince)
      && (z.holds <==> s.holds && !(FoundNoMachine(s, code) && Waits(s, Calling)))
      && (FoundNoMachine(s, code) ==> z.run == None)
      && (!FoundNoMachine(s, code) ==> Waits(z, Finishing(Rejected("refused"))))
  {
    RefusalAnswered(s, code, now);
    var y := Step(s, Resume(Refusal(code), now));
    if FoundNoMachine(s, code) {
      LeavesLedger(y, b, now);
    } else {
      SettlingAnswered(y, b, now);
    }
  }

  /** The capture taken before the machine changes: it is kept exactly when keeping it took effect,
      nothing was owed, and it is newer than what was kept and than any deletion. Whatever
      becomes of it, the debt is recorded next. */
  lemma CaptureKept(s: Sys, a: Answer, b: Answer, now: int)
    requires Waits(s, Capturing)
    ensures
      var y := Step(s, Resume(a, now));
      !a.Captured? ==> Waits(y, Owing) && y.v == s.v && y.holds == s.holds
    ensures a.Captured? ==>
      var z := Step(Step(s, Resume(a, now)), Resume(b, now));
      && Waits(z, Owing)
      && z.v == (if (b == Ok || b == Lost(true)) && s.v.owedSince == None
                    && (s.v.deletedAt.Some? ==> s.v.deletedAt.value < a.at)
                    && (s.v.kept.Some? ==> s.v.kept.value < a.at)
                 then s.v.(kept := Some(a.at)) else s.v)
      && (z.holds <==> s.holds || z.v != s.v)
  {
  }

  /** The debt recorded before the machine changes: under this command's time when none stands and
      no deletion outranks it. The command goes on only when it was told so and none does. */
  lemma DebtRecorded(s: Sys, a: Answer, now: int)
    requires Waits(s, Owing)
    ensures
      var z, at := Step(s, Resume(a, now)), s.run.value.startedAt;
      var deleted := s.v.deletedAt.Some? && s.v.deletedAt.value >= at;
      && z.v == s.v.(owedSince := if (a == Ok || a == Lost(true)) && !deleted && s.v.owedSince == None
                                  then Some(at) else s.v.owedSince)
      && z.holds == s.holds
      && Waits(z, if a == Ok && !deleted then Collecting else Finishing(Rejected("deleted")))
  {
  }

  // ---- an applied receipt was earned -----------------------------------------------

  ghost predicate CallIssued(log: seq<Entry>, id: string) {
    exists i :: 0 <= i < |log| && log[i].Issued? && log[i].id == id
  }

  ghost predicate ChangeRecorded(log: seq<Entry>, id: string) {
    exists i :: 0 <= i < |log| && log[i].MachineRecorded? && log[i].id == id
  }

  ghost predicate NewOpened(log: seq<Entry>, id: string) {
    exists i :: 0 <= i < |log| && log[i].Opened? && log[i].id == id
  }

  predicate Changes(k: Kind) {
    k == UpdateComputer || k == ResetComputer
  }

  ghost predicate Earned(log: seq<Entry>, id: string) {
    CallIssued(log, id) && ChangeRecorded(log, id) && NewOpened(log, id)
  }

  /** How far the run of `c`, waiting at `pc`, has come by the log. */
  ghost predicate CameSoFar(log: seq<Entry>, c: Command, pc: Pc) {
    && (pc == Connecting ==> c.kind == Connect)
    && (pc == Calling || pc == Clearing || pc == Fence2 ==> CallIssued(log, c.commandId))
    && (pc == Fence2 ==> ChangeRecorded(log, c.commandId))
    && (pc == Opening || pc.Recording? ==> Earned(log, c.commandId))
    && ((Restores(pc) || pc == Finishing(Applied)) && c.kind != Connect ==> Earned(log, c.commandId))
  }

  ghost predicate RunEarned(s: Sys) {
    s.run.Some? && s.run.value.Running? ==> CameSoFar(s.log, s.run.value.command, s.run.value.pc)
  }

  ghost predicate RecordsEarned(r: Records, log: seq<Entry>) {
    && (r.pending.Some? && r.pending.value.machineAt.Some? ==>
          CallIssued(log, r.pending.value.commandId) && ChangeRecorded(log, r.pending.value.commandId))
    && (forall id :: id in r.receipts && Changes(r.receipts[id].kind) && r.receipts[id].status == Applied ==>
          Earned(log, id))
  }

  lemma LogGrows(log: seq<Entry>, e: Entry, id: string)
    ensures CallIssued(log + [e], id) <==> CallIssued(log, id) || (e.Issued? && e.id == id)
    ensures ChangeRecorded(log + [e], id) <==> ChangeRecorded(log, id) || (e.MachineRecorded? && e.id == id)
    ensures NewOpened(log + [e], id) <==> NewOpened(log, id) || (e.Opened? && e.id == id)
  {
    var longer := log + [e];
    assert longer[|log|] == e;
    forall i | 0 <= i < |log| ensures longer[i] == log[i] {
    }
    if CallIssued(log, id) {
      var i :| 0 <= i < |log| && log[i].Issued? && log[i].id == id;
      assert longer[i] == log[i];
    }
    if ChangeRecorded(log, id) {
      var i :| 0 <= i < |log| && log[i].MachineRecorded? && log[i].id == id;
      assert longer[i] == log[i];
    }
    if NewOpened(log, id) {
      var i :| 0 <= i < |log| && log[i].Opened? && log[i].id == id;
      assert longer[i] == log[i];
    }
  }

  lemma RecordsGrow(r: Records, log: seq<Entry>, e: Entry)
    requires RecordsEarned(r, log)
    ensures RecordsEarned(r, log + [e])
  {
    if r.pending.Some? {
      LogGrows(log, e, r.pending.value.commandId);
    }
    forall id | id in r.receipts && Changes(r.receipts[id].kind) && r.receipts[id].status == Applied
      ensures Earned(log + [e], id)
    {
      LogGrows(log, e, id);
    }
  }

  lemma OpenEarns(s: Sys)
    requires RecordsEarned(s.r, s.log) && s.run.Some? && s.run.value.Running?
    requires CallIssued(s.log, s.run.value.command.commandId) && ChangeRecorded(s.log, s.run.value.command.commandId)
    ensures RunEarned(Open(s)) && RecordsEarned(Open(s).r, Open(s).log)
  {
    var e := Opened(s.run.value.command.commandId, s.v.deletedAt);
    LogGrows(s.log, e, e.id);
    RecordsGrow(s.r, s.log, e);
  }

  lemma StartEarns(s: Sys)
    requires RecordsEarned(s.r, s.log) && s.run == Some(Starting)
    requires s.r.pending.Some? && s.r.pending.value.commandId in s.r.intents ==>
               s.r.intents[s.r.pending.value.commandId].command.commandId == s.r.pending.value.commandId
    ensures RunEarned(Start(s)) && RecordsEarned(Start(s).r, Start(s).log)
  {
    if s.r.pending.Some? && s.r.pending.value.commandId in s.r.intents && s.r.pending.value.machineAt.Some? {
      var p := s.r.pending.value;
      var intent := s.r.intents[p.commandId];
      if intent.command.kind != Connect && Scheduled(intent.command.kind) && !s.vaulted {
        OpenEarns(s.(run := Some(Running(intent.command, intent.admittedAt, p, None, Connecting))));
      }
    }
  }

  lemma CallEarns(s: Sys, now: int)
    requires RecordsEarned(s.r, s.log) && s.run.Some? && s.run.value.Running? && s.run.value.pc == Collecting
    ensures RunEarned(ResumeRun(s, Ok, now))
    ensures RecordsEarned(ResumeRun(s, Ok, now).r, ResumeRun(s, Ok, now).log)
  {
    var e := Issued(s.run.value.command.commandId, EffectOf(s.run.value.command), s.run.value.fence);
    LogGrows(s.log, e, e.id);
    RecordsGrow(s.r, s.log, e);
  }

  lemma ClearEarns(s: Sys, a: Answer, now: int)
    requires RunEarned(s) && RecordsEarned(s.r, s.log)
    requires s.run.Some? && s.run.value.Running? && s.run.value.pc == Clearing
    requires s.run.value.snapshot.commandId == s.run.value.command.commandId
    ensures RunEarned(ResumeRun(s, a, now))
    ensures RecordsEarned(ResumeRun(s, a, now).r, ResumeRun(s, a, now).log)
  {
    var run := s.run.value;
    var e := MachineRecorded(run.command.commandId);
    LogGrows(s.log, e, e.id);
    RecordsGrow(s.r, s.log, e);
    var r := s.r.(pending := Some(run.snapshot.(machineAt := Some(now))));
    assert RecordsEarned(r, s.log + [e]);
    if !s.vaulted {
      OpenEarns(s.(viewer := None, r := r, log := s.log + [e]));
    }
  }

  lemma FinishEarns(s: Sys, a: Answer, now: int)
    requires RunEarned(s) && RecordsEarned(s.r, s.log)
    requires s.run.Some? && s.run.value.Running? && s.run.value.pc.Finishing?
    ensures RecordsEarned(ResumeRun(s, a, now).r, ResumeRun(s, a, now).log)
  {
  }

  lemma ConnectingEarns(s: Sys, a: Answer, now: int)
    requires RunEarned(s) && s.run.Some? && s.run.value.Running? && s.run.value.pc == Connecting
    ensures RunEarned(ResumeRun(s, a, now))
    ensures ResumeRun(s, a, now).r == s.r && ResumeRun(s, a, now).log == s.log
  {
  }

  lemma DebtingEarns(s: Sys, a: Answer, now: int)
    requires s.run.Some? && s.run.value.Running? && Debting(s.run.value.pc) && s.run.value.pc != Connecting
    ensures RunEarned(ResumeRun(s, a, now))
    ensures ResumeRun(s, a, now).r == s.r && ResumeRun(s, a, now).log == s.log
  {
  }

  lemma CalledEarns(s: Sys, a: Answer, now: int)
    requires RunEarned(s) && s.run.Some? && s.run.value.Running? && s.run.value.pc == Calling
    ensures RunEarned(ResumeRun(s, a, now))
    ensures ResumeRun(s, a, now).r == s.r && ResumeRun(s, a, now).log == s.log
  {
  }

  lemma RefusedEarns(s: Sys, a: Answer, now: int)
    requires RunEarned(s) && s.run.Some? && s.run.value.Running?
    requires s.run.value.pc == Refusing || (s.run.value.pc == Collecting && a != Ok)
    ensures RunEarned(ResumeRun(s, a, now))
    ensures ResumeRun(s, a, now).r == s.r && ResumeRun(s, a, now).log == s.log
  {
  }

  lemma AskingEarns(s: Sys, a: Answer, now: int)
    requires RunEarned(s) && s.run.Some? && s.run.value.Running?
    requires s.run.value.pc.RestoreAsk? || s.run.value.pc.RestoreKept?
    ensures RunEarned(ResumeRun(s, a, now))
    ensures ResumeRun(s, a, now).r == s.r && ResumeRun(s, a, now).log == s.log
  {
  }

  lemma RestoringEarns(s: Sys, a: Answer, now: int)
    requires RunEarned(s) && s.run.Some? && s.run.value.Running?
    requires s.run.value.pc.Restoring? || s.run.value.pc.RestoreSettle?
    ensures RunEarned(ResumeRun(s, a, now))
    ensures ResumeRun(s, a, now).r == s.r && ResumeRun(s, a, now).log == s.log
  {
  }

  lemma OpeningEarns(s: Sys, a: Answer, now: int)
    requires RunEarned(s) && s.run.Some? && s.run.value.Running?
    requires s.run.value.pc == Opening || s.run.value.pc.Recording?
    ensures RunEarned(ResumeRun(s, a, now))
    ensures ResumeRun(s, a, now).r == s.r && ResumeRun(s, a, now).log == s.log
  {
  }

  lemma ResumeEarns(s: Sys, a: Answer, now: int)
    requires RunOk(s) && RunEarned(s) && RecordsEarned(s.r, s.log) && s.run.Some? && s.run.value.Running?
    ensures RunEarned(ResumeRun(s, a, now))
    ensures RecordsEarned(ResumeRun(s, a, now).r, ResumeRun(s, a, now).log)
  {
    var pc := s.run.value.pc;
    if pc == Clearing {
      ClearEarns(s, a, now);
    } else if pc == Collecting && a == Ok {
      CallEarns(s, now);
    } else if pc == Fence2 {
      if a == Ok && !V.DeletedSince(s.v.deletedAt, s.run.value.startedAt) {
        OpenEarns(s);
      }
    } else if pc.RestoreAsk? || pc.RestoreKept? {
      AskingEarns(s, a, now);
    } else if Restores(pc) {
      RestoringEarns(s, a, now);
    } else if pc == Opening || pc.Recording? {
      OpeningEarns(s, a, now);
    } else if pc.Finishing? {
      FinishEarns(s, a, now);
    } else if pc == Connecting {
      ConnectingEarns(s, a, now);
    } else if Debting(pc) {
      DebtingEarns(s, a, now);
    } else if pc == Calling {
      CalledEarns(s, a, now);
    } else {
      RefusedEarns(s, a, now);
    }
  }

  lemma AdmissionEarns(r: Records, userId: string, c: Command, now: int, log: seq<Entry>)
    requires RecordsEarned(r, log)
    ensures RecordsEarned(AdmitIn(r, userId, c, now).0, log)
  {
  }

  lemma StepEarns(s: Sys, e: Event)
    requires Inv(s) && RunEarned(s) && RecordsEarned(s.r, s.log)
    ensures RunEarned(Step(s, e)) && RecordsEarned(Step(s, e).r, Step(s, e).log)
  {
    match e {
      case Execute(userId, c, now) => AdmissionEarns(s.r, userId, c, now, s.log);
      case Resume(a, now) =>
        if s.run.Some? {
          if s.run.value.Starting? { StartEarns(s); } else { ResumeEarns(s, a, now); }
        }
      case _ =>
    }
  }

  lemma {:induction false} EarnedThroughout(vaulted: bool, es: seq<Event>)
    ensures RunEarned(RunAll(Initial(vaulted), es))
    ensures RecordsEarned(RunAll(Initial(vaulted), es).r, RunAll(Initial(vaulted), es).log)
    decreases |es|
  {
    if es != [] {
      var front := es[..|es| - 1];
      EarnedThroughout(vaulted, front);
      ReachableOk(Initial(vaulted), front);
      StepEarns(RunAll(Initial(vaulted), front), es[|es| - 1]);
    }
  }

  /** Over any run: an Update or a Reset is answered applied only after a machine call of its
      own was issued, the machine's change recorded, and the new machine opened. */
  lemma AppliedWasDone(vaulted: bool, es: seq<Event>, id: string)
    requires id in RunAll(Initial(vaulted), es).r.receipts
    requires Changes(RunAll(Initial(vaulted), es).r.receipts[id].kind)
    requires RunAll(Initial(vaulted), es).r.receipts[id].status == Applied
    ensures
      var log := RunAll(Initial(vaulted), es).log;
      CallIssued(log, id) && ChangeRecorded(log, id) && NewOpened(log, id)
  {
    EarnedThroughout(vaulted, es);
  }
}
