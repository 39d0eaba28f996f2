/** The Bot's scheduled Computer commands as a state machine: every storage transaction,
    vault call and machine call is one step, and the Bot may be evicted between any two. */
module ComputerProtocol {
  import opened Wrappers
  import opened ComputerRecords
  import V = LoginVault

  /** The id a machine call carries; two Bots may use one command id, so the Bot is part of it. */
  datatype Effect = Effect(botId: string, commandId: string, step: string)

  function EffectOf(c: Command): Effect {
    Effect(c.botId, c.commandId, if c.kind == ResetComputer then "reset" else "replace")
  }

  datatype Code = HumanControlActive | NotFound | Conflict | Updating

  /** Where a scheduled command is waiting. */
  datatype Pc =
    | Connecting
    | Fence1
    | Capturing
    | Keeping(capturedAt: int)
    | Owing
    | Collecting
    | Calling
    | Refusing
    | Clearing
    | Fence2
    | Opening
    | RestoreAsk(viewer: string)
    | RestoreKept(viewer: string, since: int)
    | Restoring(viewer: string, since: int, kept: int)
    | RestoreSettle(viewer: string, since: int)
    | Recording(viewer: string)
    | Finishing(status: Status)

  /** `snapshot` is the pending record as this run read it; `fence` is what the vault held
      when it recorded the debt. */
  datatype Run =
    | Starting
    | Running(command: Command, startedAt: int, snapshot: Pending, fence: Option<int>, pc: Pc)

  datatype Entry =
    | Issued(id: string, effect: Effect, deletedAt: Option<int>)
    | MachineRecorded(id: string)
    | Opened(id: string, deletedAt: Option<int>)

  /** `r` and `viewer` are durable; `live` and `run` are lost at an eviction. `v` is the
      User's ledger. `holds`: the machine's browser has the kept sign-ins. `log` is history. */
  datatype Sys = Sys(
    r: Records, viewer: Option<string>, live: Option<string>, run: Option<Run>,
    vaulted: bool, v: V.Ledger, holds: bool, log: seq<Entry>)

  /** What an awaited call came to. `Lost` threw; `applied` says whether it had its effect. */
  datatype Answer =
    | Ok
    | Lost(applied: bool)
    | Viewer(id: string)
    | Captured(at: int)
    | Changed
    | Refusal(code: Code)

  datatype Event =
    | Execute(userId: string, command: Command, now: int)
    | SettleImmediate(id: string, status: Status, now: int)
    | Defer(now: int)
    | Alarm(now: int)
    | Resume(answer: Answer, now: int)
    | Evict(landed: bool)
    | DeleteComputer(at: int)
    | KeepElsewhere(capturedAt: int)

  // ---- the steps -----------------------------------------------------------------

  function At(s: Sys, pc: Pc): Sys
    requires s.run.Some? && s.run.value.Running?
  {
    s.(run := Some(s.run.value.(pc := pc)))
  }

  function Reject(s: Sys, why: string): Sys
    requires s.run.Some? && s.run.value.Running?
  {
    At(s, Finishing(Rejected(why)))
  }

  /** A capture of this machine that the ledger kept is what the machine holds. */
  function Keep(s: Sys, capturedAt: int): Sys {
    var v' := V.KeepIn(s.v, capturedAt);
    s.(v := v', holds := s.holds || v' != s.v)
  }

  function Open(s: Sys): Sys
    requires s.run.Some? && s.run.value.Running?
  {
    At(s, Opening).(log := s.log + [Opened(s.run.value.command.commandId, s.v.deletedAt)])
  }

  /** A refusal settles the debt it recorded, but for an Update that found no machine: then
      nothing holds the sign-ins any more, and the debt stands. */
  function Refuse(s: Sys, code: Code): Sys
    requires s.run.Some? && s.run.value.Running?
  {
    var gone := code == NotFound && s.run.value.command.kind == UpdateComputer;
    var s' := s.(holds := s.holds && !(gone && s.run.value.pc == Calling));
    if s.vaulted && !gone then At(s', Refusing) else Reject(s', "refused")
  }

  function AfterRestore(s: Sys, viewer: string): Sys
    requires s.run.Some? && s.run.value.Running?
  {
    At(s, if s.run.value.command.kind == Connect then Finishing(Applied) else Recording(viewer))
  }

  function Start(s: Sys): Sys {
    if s.r.pending == None || s.r.pending.value.commandId !in s.r.intents then s.(run := None)
    else
      var p := s.r.pending.value;
      var intent := s.r.intents[p.commandId];
      if !Scheduled(intent.command.kind) then s.(run := None)
      else
        var s' := s.(run := Some(Running(intent.command, intent.admittedAt, p, None, Connecting)));
        if intent.command.kind == Connect then s'
        else if p.machineAt.Some? then (if s.vaulted then At(s', Fence2) else Open(s'))
        else At(s', if s.vaulted then Fence1 else Collecting)
  }

  function ResumeRun(s: Sys, a: Answer, now: int): Sys
    requires s.run.Some? && s.run.value.Running?
  {
    var run := s.run.value;
    var id := run.command.commandId;
    match run.pc
    case Connecting =>
      if a.Viewer? then
        var s' := s.(viewer := Some(a.id), live := Some(a.id));
        At(s', if s.vaulted then RestoreAsk(a.id) else Finishing(Applied))
      else Reject(s, "connect")
    case Fence1 =>
      if a != Ok || V.DeletedSince(s.v.deletedAt, run.startedAt) then Reject(s, "deleted") else At(s, Capturing)
    case Capturing =>
      if a.Captured? then At(s, Keeping(a.at)) else At(s, Owing)
    case Keeping(at) =>
      At(if a == Ok || a == Lost(true) then Keep(s, at) else s, Owing)
    case Owing =>
      var s' := if a == Ok || a == Lost(true) then s.(v := V.OweIn(s.v, run.startedAt)) else s;
      if a != Ok || V.DeletedSince(s.v.deletedAt, run.startedAt) then Reject(s', "deleted")
      else s'.(run := Some(run.(pc := Collecting, fence := s.v.deletedAt)))
    case Collecting =>
      if a == Ok then At(s, Calling).(log := s.log + [Issued(id, EffectOf(run.command), run.fence)])
      else if a.Refusal? then Refuse(s, a.code)
      else Reject(s, "machine")
    case Calling =>
      if a == Changed then At(s, Clearing).(holds := false, live := None)
      else if a.Refusal? then Refuse(s, a.code)
      else Reject(s.(holds := s.holds && a != Lost(true)), "machine")
    case Refusing =>
      Reject(if a == Ok || a == Lost(true) then s.(v := V.SettleIn(s.v, run.startedAt)) else s, "refused")
    case Clearing =>
      var s' := s.(viewer := None, r := s.r.(pending := Some(run.snapshot.(machineAt := Some(now)))),
                   log := s.log + [MachineRecorded(id)]);
      if s.vaulted then At(s', Fence2) else Open(s')
    case Fence2 =>
      if a != Ok || V.DeletedSince(s.v.deletedAt, run.startedAt) then Reject(s, "deleted") else Open(s)
    case Opening =>
      if a.Viewer? then At(s, if s.vaulted then RestoreAsk(a.id) else Recording(a.id)) else Reject(s, "connect")
    case RestoreAsk(viewer) =>
      if a == Ok && s.v.owedSince.Some? then At(s, RestoreKept(viewer, s.v.owedSince.value))
      else AfterRestore(s, viewer)
    case RestoreKept(viewer, since) =>
      if a != Ok then AfterRestore(s, viewer)
      else if s.v.kept == None then At(s, RestoreSettle(viewer, since))
      else At(s, Restoring(viewer, since, s.v.kept.value))
    case Restoring(viewer, since, kept) =>
      var s' := if a == Ok || a == Lost(true) then s.(holds := s.holds || s.v.kept == Some(kept)) else s;
      if a == Ok then At(s', RestoreSettle(viewer, since)) else AfterRestore(s', viewer)
    case RestoreSettle(viewer, since) =>
      AfterRestore(if a == Ok || a == Lost(true) then s.(v := V.SettleIn(s.v, since)) else s, viewer)
    case Recording(viewer) =>
      At(s.(viewer := Some(viewer), live := Some(viewer)), Finishing(Applied))
    case Finishing(status) =>
      s.(r := SettleIn(s.r, run.command, FingerprintOf(run.command), status, now).0, run := None)
  }

  function Step(s: Sys, e: Event): Sys {
    match e
    case Execute(userId, c, now) => s.(r := AdmitIn(s.r, userId, c, now).0)
    case SettleImmediate(id, status, now) =>
      if id in s.r.intents && !Scheduled(s.r.intents[id].command.kind)
      then s.(r := SettleIn(s.r, s.r.intents[id].command, s.r.intents[id].fingerprint, status, now).0)
      else s
    case Defer(now) => s.(r := PutOff(s.r, now + CONNECT_DEFERRAL_MS))
    case Alarm(now) =>
      if s.run.Some? then s else s.(r := PutOff(s.r, now + CONNECT_WATCHDOG_MS), run := Some(Starting))
    case Resume(a, now) =>
      if s.run == None then s else if s.run.value.Starting? then Start(s) else ResumeRun(s, a, now)
    case Evict(landed) =>
      var midCall := s.run.Some? && s.run.value.Running? && s.run.value.pc == Calling;
      s.(run := None, live := None, holds := s.holds && !(midCall && landed))
    case DeleteComputer(at) => s.(v := V.ForgetIn(s.v, at))
    case KeepElsewhere(at) => if s.vaulted then Keep(s, at) else s
  }

  function RunAll(s: Sys, es: seq<Event>): Sys {
    if es == [] then s else Step(RunAll(s, es[..|es| - 1]), es[|es| - 1])
  }

  function Initial(vaulted: bool): Sys {
    Sys(Records(map[], map[], None), None, None, None, vaulted, V.Ledger(None, None, None), true, [])
  }

  // ---- what every run keeps --------------------------------------------------------

  /** The points before a run has recorded that the machine changed. */
  predicate BeforeMachine(pc: Pc) {
    || pc.Fence1? || pc.Capturing? || pc.Keeping? || pc.Owing?
    || pc.Collecting? || pc.Calling? || pc.Refusing? || pc.Clearing?
  }

  /** The run in flight is the pending command's, and knows it as it was read. */
  ghost predicate RunOk(s: Sys) {
    s.run.Some? && s.run.value.Running? ==>
      var run := s.run.value;
      var id := run.command.commandId;
      && id in s.r.intents && s.r.intents[id].command == run.command && s.r.intents[id].admittedAt == run.startedAt
      && Owes(s.r, id) && s.r.pending.Some? && s.r.pending.value.commandId == id
      && run.snapshot.commandId == id && run.snapshot.userId == s.r.pending.value.userId
      && run.snapshot.admittedAt == s.r.pending.value.admittedAt
      && (BeforeMachine(run.pc) ==> s.r.pending.value.machineAt == None && run.command.kind != Connect)
      && (s.vaulted && (run.pc.Collecting? || run.pc.Calling?) ==> !V.DeletedSince(run.fence, run.startedAt))
  }

  ghost predicate EntryOk(s: Sys, e: Entry) {
    && e.id in s.r.intents
    && match e
       case Issued(id, effect, deletedAt) =>
         && effect == EffectOf(s.r.intents[id].command)
         && (s.vaulted ==> !V.DeletedSince(deletedAt, s.r.intents[id].admittedAt))
       case MachineRecorded(id) =>
         || id in s.r.receipts
         || (s.r.pending.Some? && s.r.pending.value.commandId == id && s.r.pending.value.machineAt.Some?)
       case Opened(id, deletedAt) =>
         s.vaulted ==> !V.DeletedSince(deletedAt, s.r.intents[id].admittedAt)
  }

  ghost predicate LogOk(s: Sys) {
    && (forall i {:trigger s.log[i]} :: 0 <= i < |s.log| ==> EntryOk(s, s.log[i]))
    && (forall i, j :: 0 <= i < j < |s.log| && s.log[i].MachineRecorded? && s.log[j].Issued? ==>
          s.log[i].id != s.log[j].id)
  }

  ghost predicate Inv(s: Sys) {
    Consistent(s.r) && RunOk(s) && LogOk(s)
  }

  /** What one step changes in the durable records. */
  ghost predicate StepKeeps(s: Sys, s': Sys) {
    Inv(s') && Extends(s.r, s'.r) && PendingKept(s.r, s'.r) && s'.vaulted == s.vaulted
  }

  /** A change of records that keeps everything carries the log and the run along. */
  lemma Carry(s: Sys, s': Sys)
    requires Inv(s) && Consistent(s'.r) && Extends(s.r, s'.r) && PendingKept(s.r, s'.r)
    requires s'.log == s.log && s'.vaulted == s.vaulted
    ensures LogOk(s')
  {
    forall i | 0 <= i < |s'.log| ensures EntryOk(s', s'.log[i]) {
      assert EntryOk(s, s.log[i]);
    }
  }

  lemma Logged(s: Sys, s': Sys, e: Entry)
    requires LogOk(s) && s'.r == s.r && s'.vaulted == s.vaulted && s'.log == s.log + [e]
    requires EntryOk(s', e)
    requires e.Issued? ==>
      && e.id !in s.r.receipts
      && (s.r.pending.Some? && s.r.pending.value.commandId == e.id ==> s.r.pending.value.machineAt == None)
    ensures LogOk(s')
  {
    forall i | 0 <= i < |s'.log| ensures EntryOk(s', s'.log[i]) {
      if i < |s.log| { assert EntryOk(s, s.log[i]); }
    }
    forall i | 0 <= i < |s.log| && s.log[i].MachineRecorded? && e.Issued? ensures s.log[i].id != e.id {
      assert EntryOk(s, s.log[i]);
    }
  }

  lemma OpenKeeps(s: Sys)
    requires Inv(s) && s.run.Some? && s.run.value.Running?
    requires s.vaulted ==> !V.DeletedSince(s.v.deletedAt, s.run.value.startedAt)
    ensures Inv(Open(s))
  {
    Logged(s, Open(s), Opened(s.run.value.command.commandId, s.v.deletedAt));
  }

  lemma StartKeeps(s: Sys)
    requires Inv(s) && s.run == Some(Starting)
    ensures StepKeeps(s, Start(s))
  {
    if s.r.pending.Some? && s.r.pending.value.commandId in s.r.intents {
      var p := s.r.pending.value;
      var intent := s.r.intents[p.commandId];
      assert Owes(s.r, p.commandId);
      var s' := s.(run := Some(Running(intent.command, intent.admittedAt, p, None, Connecting)));
      Carry(s, s');
      assert Inv(s');
      if intent.command.kind != Connect && p.machineAt.Some? && !s.vaulted {
        OpenKeeps(s');
      } else {
        Carry(s, Start(s));
      }
    } else {
      Carry(s, Start(s));
    }
  }

  /** Recording that the machine changed: whose command it is stays, and `machineAt` appears. */
  lemma ClearKeeps(s: Sys, a: Answer, now: int)
    requires Inv(s) && s.run.Some? && s.run.value.Running? && s.run.value.pc == Clearing
    ensures StepKeeps(s, ResumeRun(s, a, now))
  {
    var run := s.run.value;
    var id := run.command.commandId;
    var p := run.snapshot.(machineAt := Some(now));
    PendingMoved(s.r, p);
    var s1 := s.(viewer := None, r := s.r.(pending := Some(p)));
    Carry(s, s1);
    var s2 := s1.(log := s.log + [MachineRecorded(id)]);
    Logged(s1, s2, MachineRecorded(id));
    assert Owes(s2.r, id) by { assert Owes(s.r, id); }
    var s3 := At(s2, Fence2);
    Carry(s2.(run := None), s3);
    assert Inv(s3);
    if !s.vaulted {
      OpenKeeps(s3);
      assert ResumeRun(s, a, now) == Open(s3);
    }
  }

  lemma FinishKeeps(s: Sys, a: Answer, now: int)
    requires Inv(s) && s.run.Some? && s.run.value.Running? && s.run.value.pc.Finishing?
    ensures StepKeeps(s, ResumeRun(s, a, now))
    ensures s.run.value.command.commandId in ResumeRun(s, a, now).r.receipts
  {
    var id := s.run.value.command.commandId;
    SettleKeeps(s.r, id, s.run.value.pc.status, now);
    Carry(s, ResumeRun(s, a, now));
  }

  lemma CallKeeps(s: Sys, now: int)
    requires Inv(s) && s.run.Some? && s.run.value.Running? && s.run.value.pc == Collecting
    ensures StepKeeps(s, ResumeRun(s, Ok, now))
  {
    var s' := ResumeRun(s, Ok, now);
    Logged(s, s', s'.log[|s.log|]);
  }

  /** A step that only moves the run on. */
  ghost predicate MovesOn(s: Sys, s': Sys)
    requires s.run.Some? && s.run.value.Running?
  {
    && s'.r == s.r && s'.log == s.log && s'.vaulted == s.vaulted
    && s'.run.Some? && s'.run.value.Running?
    && s'.run.value.command == s.run.value.command
    && s'.run.value.startedAt == s.run.value.startedAt
    && s'.run.value.snapshot == s.run.value.snapshot
    && (BeforeMachine(s'.run.value.pc) ==> BeforeMachine(s.run.value.pc))
    && (s.vaulted && (s'.run.value.pc.Collecting? || s'.run.value.pc.Calling?) ==>
          !V.DeletedSince(s'.run.value.fence, s.run.value.startedAt))
  }

  lemma MovesOnKeeps(s: Sys, s': Sys)
    requires Inv(s) && s.run.Some? && s.run.value.Running? && MovesOn(s, s')
    ensures StepKeeps(s, s')
  {
    Carry(s, s');
  }

  predicate Debting(pc: Pc) {
    pc.Connecting? || pc.Fence1? || pc.Capturing? || pc.Keeping? || pc.Owing?
  }

  lemma DebtingMoves(s: Sys, a: Answer, now: int)
    requires s.run.Some? && s.run.value.Running? && Debting(s.run.value.pc)
    ensures MovesOn(s, ResumeRun(s, a, now))
  {
  }

  lemma MachineMoves(s: Sys, a: Answer, now: int)
    requires s.run.Some? && s.run.value.Running?
    requires s.run.value.pc.Calling? || s.run.value.pc.Refusing? || (s.run.value.pc.Collecting? && a != Ok)
    ensures MovesOn(s, ResumeRun(s, a, now))
  {
  }

  predicate Restores(pc: Pc) {
    pc.RestoreAsk? || pc.RestoreKept? || pc.Restoring? || pc.RestoreSettle?
  }

  lemma RestoreMoves(s: Sys, a: Answer, now: int)
    requires s.run.Some? && s.run.value.Running? && Restores(s.run.value.pc)
    ensures MovesOn(s, ResumeRun(s, a, now))
  {
  }

  lemma ReopenMoves(s: Sys, a: Answer, now: int)
    requires s.run.Some? && s.run.value.Running?
    requires !BeforeMachine(s.run.value.pc) && !Restores(s.run.value.pc) && !s.run.value.pc.Finishing?
    requires s.run.value.pc == Fence2 ==> a != Ok || V.DeletedSince(s.v.deletedAt, s.run.value.startedAt)
    ensures MovesOn(s, ResumeRun(s, a, now))
  {
  }

  lemma ResumeKeeps(s: Sys, a: Answer, now: int)
    requires Inv(s) && s.run.Some? && s.run.value.Running?
    ensures StepKeeps(s, ResumeRun(s, a, now))
  {
    var pc := s.run.value.pc;
    if pc == Clearing {
      ClearKeeps(s, a, now);
    } else if pc.Finishing? {
      FinishKeeps(s, a, now);
    } else if pc == Collecting && a == Ok {
      CallKeeps(s, now);
    } else if pc == Fence2 && a == Ok && !V.DeletedSince(s.v.deletedAt, s.run.value.startedAt) {
      OpenKeeps(s);
    } else {
      if Debting(pc) {
        DebtingMoves(s, a, now);
      } else if pc == Collecting || pc == Calling || pc == Refusing {
        MachineMoves(s, a, now);
      } else if Restores(pc) {
        RestoreMoves(s, a, now);
      } else {
        ReopenMoves(s, a, now);
      }
      MovesOnKeeps(s, ResumeRun(s, a, now));
    }
  }

  lemma ExecuteKeeps(s: Sys, userId: string, c: Command, now: int)
    requires Inv(s)
    ensures StepKeeps(s, s.(r := AdmitIn(s.r, userId, c, now).0))
  {
    var s' := s.(r := AdmitIn(s.r, userId, c, now).0);
    AdmitKeeps(s.r, userId, c, now);
    Carry(s, s');
    if s.run.Some? && s.run.value.Running? {
      var id := s.run.value.command.commandId;
      assert Owes(s.r, id);
      assert Owes(s'.r, id);
    }
  }

  lemma ImmediateKeeps(s: Sys, id: string, status: Status, now: int)
    requires Inv(s) && id in s.r.intents && !Scheduled(s.r.intents[id].command.kind)
    ensures StepKeeps(s, Step(s, SettleImmediate(id, status, now)))
  {
    SettleKeeps(s.r, id, status, now);
    Carry(s, Step(s, SettleImmediate(id, status, now)));
  }

  /** A put-off pending command, an eviction, and whatever happens to the ledger. */
  lemma OutsideKeeps(s: Sys, s': Sys, until: int)
    requires Inv(s) && s'.log == s.log && s'.vaulted == s.vaulted
    requires s'.r == s.r || s'.r == PutOff(s.r, until)
    requires s'.run == s.run || s'.run == None || s'.run == Some(Starting)
    ensures StepKeeps(s, s')
  {
    PutOffKeeps(s.r, until);
    Carry(s, s');
    if s'.run.Some? && s'.run.value.Running? {
      assert Owes(s.r, s'.run.value.command.commandId);
      assert Owes(s'.r, s'.run.value.command.commandId);
    }
  }

  /** Every step keeps the records consistent, what was written, and the pending record's
      own command, `machineAt` and life. */
  lemma {:induction false} StepKeepsAll(s: Sys, e: Event)
    requires Inv(s)
    ensures StepKeeps(s, Step(s, e))
  {
    match e {
      case Execute(userId, c, now) => ExecuteKeeps(s, userId, c, now);
      case SettleImmediate(id, status, now) =>
        if id in s.r.intents && !Scheduled(s.r.intents[id].command.kind) {
          ImmediateKeeps(s, id, status, now);
        }
      case Defer(now) => OutsideKeeps(s, Step(s, e), now + CONNECT_DEFERRAL_MS);
      case Alarm(now) => OutsideKeeps(s, Step(s, e), now + CONNECT_WATCHDOG_MS);
      case Resume(a, now) =>
        if s.run.Some? {
          if s.run.value.Starting? { StartKeeps(s); } else { ResumeKeeps(s, a, now); }
        }
      case Evict(_) => OutsideKeeps(s, Step(s, e), 0);
      case DeleteComputer(_) => OutsideKeeps(s, Step(s, e), 0);
      case KeepElsewhere(_) => OutsideKeeps(s, Step(s, e), 0);
    }
  }

  /** In every reachable state the records are consistent, the log is in order, and the
      run is the pending command's, through any number of evictions. */
  lemma {:induction false} ReachableOk(s: Sys, es: seq<Event>)
    requires Inv(s)
    ensures Inv(RunAll(s, es)) && Extends(s.r, RunAll(s, es).r) && RunAll(s, es).vaulted == s.vaulted
    decreases |es|
  {
    if es != [] {
      ReachableOk(s, es[..|es| - 1]);
      StepKeepsAll(RunAll(s, es[..|es| - 1]), es[|es| - 1]);
    }
  }

  lemma {:induction false} IntentStays(vaulted: bool, es: seq<Event>, m: nat, id: string)
    requires m <= |es| && id in RunAll(Initial(vaulted), es[..m]).r.intents
    ensures id in RunAll(Initial(vaulted), es).r.intents
    ensures RunAll(Initial(vaulted), es).r.intents[id] == RunAll(Initial(vaulted), es[..m]).r.intents[id]
    decreases |es|
  {
    if m == |es| {
      assert es[..m] == es;
    } else {
      var front := es[..|es| - 1];
      assert front[..m] == es[..m];
      IntentStays(vaulted, front, m, id);
      ReachableOk(Initial(vaulted), front);
      StepKeepsAll(RunAll(Initial(vaulted), front), es[|es| - 1]);
    }
  }

  /** Once a command id is taken, asking under it with another fingerprint changes no record,
      however much later and whatever ran between. */
  lemma {:induction false} ReuseChangesNothing(vaulted: bool, es: seq<Event>, m: nat, userId: string, c: Command,
                                               now: int)
    requires m <= |es| && c.commandId in RunAll(Initial(vaulted), es[..m]).r.intents
    requires FingerprintOf(c) != RunAll(Initial(vaulted), es[..m]).r.intents[c.commandId].fingerprint
    ensures Step(RunAll(Initial(vaulted), es), Execute(userId, c, now)) == RunAll(Initial(vaulted), es)
  {
    IntentStays(vaulted, es, m, c.commandId);
    ReachableOk(Initial(vaulted), es);
    ReusedIdRefused(RunAll(Initial(vaulted), es).r, userId, c, now);
  }

  /** From an empty store: the scheduled intents with no receipt are exactly the one
      pending command, none when nothing is pending. */
  lemma {:induction false} OwedIsPending(vaulted: bool, es: seq<Event>, id: string)
    ensures
      var s := RunAll(Initial(vaulted), es);
      Owes(s.r, id) <==> s.r.pending.Some? && s.r.pending.value.commandId == id
  {
    ReachableOk(Initial(vaulted), es);
    assert Owes(RunAll(Initial(vaulted), es).r, id) <==> Owes(RunAll(Initial(vaulted), es).r, id);
  }

  /** Every machine call one command issues carries one effect id, which no other command's
      call carries; and none is issued once `machineAt` is recorded. */
  lemma {:induction false} MachineCallsOnce(vaulted: bool, es: seq<Event>, i: nat, j: nat)
    requires i < j < |RunAll(Initial(vaulted), es).log|
    ensures
      var log := RunAll(Initial(vaulted), es).log;
      && (log[i].Issued? && log[j].Issued? ==> (log[i].id == log[j].id <==> log[i].effect == log[j].effect))
      && (log[i].MachineRecorded? && log[j].Issued? ==> log[i].id != log[j].id)
  {
    var s := RunAll(Initial(vaulted), es);
    ReachableOk(Initial(vaulted), es);
    assert EntryOk(s, s.log[i]) && EntryOk(s, s.log[j]);
  }

  /** A machine call is asked for by its own command: a Reset's resets, an Update's replaces. */
  lemma {:induction false} CallsAsAsked(vaulted: bool, es: seq<Event>, i: nat)
    requires i < |RunAll(Initial(vaulted), es).log| && RunAll(Initial(vaulted), es).log[i].Issued?
    ensures
      var s := RunAll(Initial(vaulted), es);
      var e := s.log[i];
      && e.id in s.r.intents && e.effect.commandId == e.id && e.effect.botId == s.r.intents[e.id].command.botId
      && e.effect.step == if s.r.intents[e.id].command.kind == ResetComputer then "reset" else "replace"
  {
    var s := RunAll(Initial(vaulted), es);
    ReachableOk(Initial(vaulted), es);
    assert EntryOk(s, s.log[i]);
  }

  /** With a vault, no machine call follows a deletion recorded before the debt, and no new
      machine is opened after one recorded before the second check. */
  lemma {:induction false} DeletionOutranks(es: seq<Event>, i: nat)
    requires i < |RunAll(Initial(true), es).log|
    ensures
      var s := RunAll(Initial(true), es);
      var e := s.log[i];
      e.id in s.r.intents && (!e.MachineRecorded? ==> !V.DeletedSince(e.deletedAt, s.r.intents[e.id].admittedAt))
  {
    var s := RunAll(Initial(true), es);
    ReachableOk(Initial(true), es);
    assert EntryOk(s, s.log[i]);
  }
}
