/** The Bot's durable command records: intents, receipts, and the one scheduled command it
    owes. Each method is one storage transaction. */
module ComputerRecords {
  import opened Wrappers

  const CONNECT_START_DELAY_MS := 1_000
  const CONNECT_DEFERRAL_MS := 15_000
  const CONNECT_WATCHDOG_MS := 60_000

  datatype Kind = Connect | UpdateComputer | ResetComputer | Immediate(name: string)

  predicate Scheduled(k: Kind) {
    !k.Immediate?
  }

  datatype Command = Command(commandId: string, botId: string, kind: Kind)

  datatype Fingerprint = Fingerprint(botId: string, kind: Kind)

  function FingerprintOf(c: Command): Fingerprint {
    Fingerprint(c.botId, c.kind)
  }

  datatype Intent = Intent(fingerprint: Fingerprint, command: Command, admittedAt: int)

  datatype Status = Applied | Rejected(failure: string)

  datatype Receipt = Receipt(fingerprint: Fingerprint, commandId: string, kind: Kind, status: Status, completedAt: int)

  datatype Pending = Pending(
    userId: string, commandId: string, admittedAt: int, deferredUntil: Option<int>, machineAt: Option<int>)

  datatype Records = Records(intents: map<string, Intent>, receipts: map<string, Receipt>, pending: Option<Pending>)

  datatype Admission =
    | Replay(receipt: Receipt)
    | Admitted(intent: Intent)
    | Joined(admittedAt: int)
    | Busy
    | Collision

  datatype Settlement = Settled(receipt: Receipt) | SettleCollision

  function Deadline(p: Pending): int {
    var d := if p.deferredUntil == None then 0 else p.deferredUntil.value;
    if p.admittedAt >= d then p.admittedAt else d
  }

  /** An overdue pending command is put off just past the command's output gate. */
  function Nudged(p: Pending, now: int): Pending {
    if Deadline(p) <= now then p.(deferredUntil := Some(now + CONNECT_START_DELAY_MS)) else p
  }

  function Alongside(r: Records, c: Command, now: int): (Records, Admission)
    requires r.pending.Some?
  {
    if c.kind == Connect
    then (r.(pending := Some(Nudged(r.pending.value, now))), Joined(r.pending.value.admittedAt))
    else (r, Busy)
  }

  function PendingFor(userId: string, id: string, admittedAt: int, now: int): Pending {
    Pending(userId, id, admittedAt, Some(now + CONNECT_START_DELAY_MS), None)
  }

  function AdmitIn(r: Records, userId: string, c: Command, now: int): (Records, Admission) {
    var id, fp := c.commandId, FingerprintOf(c);
    if id in r.receipts then
      if r.receipts[id].fingerprint != fp then (r, Collision) else (r, Replay(r.receipts[id]))
    else if id in r.intents then
      var intent := r.intents[id];
      if intent.fingerprint != fp then (r, Collision)
      else if !Scheduled(c.kind) then (r, Admitted(intent))
      else if r.pending == None then
        (r.(pending := Some(PendingFor(userId, id, intent.admittedAt, now))), Admitted(intent))
      else if r.pending.value.commandId != id then Alongside(r, c, now)
      else (r.(pending := Some(Nudged(r.pending.value, now))), Admitted(intent))
    else if Scheduled(c.kind) && r.pending.Some? && r.pending.value.commandId != id then Alongside(r, c, now)
    else
      var intent := Intent(fp, c, now);
      var r' := r.(intents := r.intents[id := intent]);
      if !Scheduled(c.kind) then (r', Admitted(intent))
      else if r.pending.Some? then (r'.(pending := Some(Nudged(r.pending.value, now))), Admitted(intent))
      else (r'.(pending := Some(PendingFor(userId, id, now, now))), Admitted(intent))
  }

  function SettleIn(r: Records, c: Command, fp: Fingerprint, status: Status, now: int): (Records, Settlement) {
    var id := c.commandId;
    if id in r.receipts then
      (r, if r.receipts[id].fingerprint != fp then SettleCollision else Settled(r.receipts[id]))
    else
      var receipt := Receipt(fp, id, c.kind, status, now);
      var r' := r.(receipts := r.receipts[id := receipt]);
      var done := Scheduled(c.kind) && r.pending.Some? && r.pending.value.commandId == id;
      (if done then r'.(pending := None) else r', Settled(receipt))
  }

  function PutOff(r: Records, until: int): Records {
    if r.pending == None then r else r.(pending := Some(r.pending.value.(deferredUntil := Some(until))))
  }

  class ComputerBotStore {
    var intents: map<string, Intent>
    var receipts: map<string, Receipt>
    var pending: Option<Pending>

    constructor ()
      ensures View() == Records(map[], map[], None)
    {
      intents, receipts, pending := map[], map[], None;
    }

    ghost function View(): Records
      reads this
    {
      Records(intents, receipts, pending)
    }

    /** Answers with the admission of the pending connect, whose turn is brought forward once it is overdue. */
    method JoinPendingConnect(p: Pending, now: int) returns (admittedAt: int)
      requires pending == Some(p)
      modifies this`pending
      ensures pending == Some(Nudged(p, now)) && admittedAt == p.admittedAt
    {
      if Deadline(p) <= now {
        pending := Some(p.(deferredUntil := Some(now + CONNECT_START_DELAY_MS)));
      }
      admittedAt := p.admittedAt;
    }

    method AlongsidePending(c: Command, now: int) returns (a: Admission)
      requires pending.Some?
      modifies this`pending
      ensures (View(), a) == Alongside(old(View()), c, now)
    {
      if c.kind != Connect { return Busy; }
      var admittedAt := JoinPendingConnect(pending.value, now);
      a := Joined(admittedAt);
    }

    method Admit(userId: string, c: Command, now: int) returns (a: Admission)
      modifies this
      ensures (View(), a) == AdmitIn(old(View()), userId, c, now)
    {
      var id := c.commandId;
      var fingerprint := FingerprintOf(c);
      if id in receipts {
        if receipts[id].fingerprint != fingerprint { return Collision; }
        return Replay(receipts[id]);
      }
      if id in intents {
        var intent := intents[id];
        if intent.fingerprint != fingerprint { return Collision; }
        if Scheduled(c.kind) {
          if pending == None {
            pending := Some(PendingFor(userId, id, intent.admittedAt, now));
          } else {
            if pending.value.commandId != id {
              a := AlongsidePending(c, now);
              return;
            }
            if Deadline(pending.value) <= now {
              pending := Some(pending.value.(deferredUntil := Some(now + CONNECT_START_DELAY_MS)));
            }
          }
        }
        return Admitted(intent);
      }
      if Scheduled(c.kind) && pending.Some? && pending.value.commandId != id {
        a := AlongsidePending(c, now);
        return;
      }
      var intent := Intent(fingerprint, c, now);
      intents := intents[id := intent];
      if Scheduled(c.kind) {
        if pending.Some? {
          if Deadline(pending.value) <= now {
            pending := Some(pending.value.(deferredUntil := Some(now + CONNECT_START_DELAY_MS)));
          }
        } else {
          pending := Some(PendingFor(userId, id, now, now));
        }
      }
      a := Admitted(intent);
    }

    method Settle(c: Command, fingerprint: Fingerprint, status: Status, now: int) returns (s: Settlement)
      modifies this
      ensures (View(), s) == SettleIn(old(View()), c, fingerprint, status, now)
    {
      var id := c.commandId;
      if id in receipts {
        if receipts[id].fingerprint != fingerprint { return SettleCollision; }
        return Settled(receipts[id]);
      }
      var receipt := Receipt(fingerprint, id, c.kind, status, now);
      receipts := receipts[id := receipt];
      if Scheduled(c.kind) && pending.Some? && pending.value.commandId == id {
        pending := None;
      }
      s := Settled(receipt);
    }

    method DeferScheduledWork(now: int)
      modifies this`pending
      ensures View() == PutOff(old(View()), now + CONNECT_DEFERRAL_MS)
    {
      if pending == None { return; }
      pending := Some(pending.value.(deferredUntil := Some(now + CONNECT_DEFERRAL_MS)));
    }

    method ArmScheduledConnectWatchdog(now: int)
      modifies this`pending
      ensures View() == PutOff(old(View()), now + CONNECT_WATCHDOG_MS)
    {
      if pending == None { return; }
      pending := Some(pending.value.(deferredUntil := Some(now + CONNECT_WATCHDOG_MS)));
    }
  }

  // ---- what the records always say -----------------------------------------------

  ghost predicate Owes(r: Records, id: string) {
    id in r.intents && Scheduled(r.intents[id].command.kind) && id !in r.receipts
  }

  /** Every receipt answers its intent, and the scheduled intents with no receipt are
      exactly the one pending command. */
  ghost predicate Consistent(r: Records) {
    && (forall id :: id in r.intents ==>
          r.intents[id].command.commandId == id && r.intents[id].fingerprint == FingerprintOf(r.intents[id].command))
    && (forall id :: id in r.receipts ==>
          && id in r.intents && r.receipts[id].commandId == id
          && r.receipts[id].fingerprint == r.intents[id].fingerprint
          && r.receipts[id].kind == r.intents[id].command.kind)
    && (forall id {:trigger Owes(r, id)} :: Owes(r, id) <==> r.pending.Some? && r.pending.value.commandId == id)
  }

  /** Nothing once written is changed. */
  ghost predicate Extends(r: Records, r': Records) {
    && (forall id :: id in r.intents ==> id in r'.intents && r'.intents[id] == r.intents[id])
    && (forall id :: id in r.receipts ==> id in r'.receipts && r'.receipts[id] == r.receipts[id])
  }

  /** The pending record loses neither whose it is nor `machineAt`, and goes only with
      its receipt. */
  ghost predicate PendingKept(r: Records, r': Records) {
    r.pending.Some? ==>
      var p := r.pending.value;
      if r'.pending.Some? then
        var q := r'.pending.value;
        && q.commandId == p.commandId && q.userId == p.userId && q.admittedAt == p.admittedAt
        && (p.machineAt.Some? ==> q.machineAt == p.machineAt)
      else p.commandId in r'.receipts && p.commandId !in r.receipts
  }

  lemma PendingMoved(r: Records, p: Pending)
    requires Consistent(r) && r.pending.Some? && p.commandId == r.pending.value.commandId
    ensures Consistent(r.(pending := Some(p)))
  {
    var r' := r.(pending := Some(p));
    forall x ensures Owes(r', x) <==> r'.pending.Some? && r'.pending.value.commandId == x {
      assert Owes(r, x) <==> r.pending.Some? && r.pending.value.commandId == x;
    }
  }

  lemma IntentAdded(r: Records, c: Command, now: int, pending: Option<Pending>)
    requires Consistent(r) && c.commandId !in r.intents
    requires if Scheduled(c.kind) then r.pending == None && pending.Some? && pending.value.commandId == c.commandId
             else pending == r.pending
    ensures Consistent(Records(r.intents[c.commandId := Intent(FingerprintOf(c), c, now)], r.receipts, pending))
  {
    var r' := Records(r.intents[c.commandId := Intent(FingerprintOf(c), c, now)], r.receipts, pending);
    assert c.commandId !in r.receipts;
    forall x ensures Owes(r', x) <==> r'.pending.Some? && r'.pending.value.commandId == x {
      assert Owes(r, x) <==> r.pending.Some? && r.pending.value.commandId == x;
    }
  }

  /** Admission keeps the records consistent. A joined or busy answer leaves no intent,
      and a replay or a collision leaves everything as it was. */
  lemma AdmitKeeps(r: Records, userId: string, c: Command, now: int)
    requires Consistent(r)
    ensures
      var (r', a) := AdmitIn(r, userId, c, now);
      && Consistent(r') && Extends(r, r') && PendingKept(r, r')
      && r'.receipts == r.receipts
      && (a.Collision? || a.Replay? || a.Busy? ==> r' == r)
      && (a.Joined? || a.Busy? ==> r'.intents == r.intents && c.commandId !in r'.intents)
      && (a.Admitted? ==> c.commandId in r'.intents && r'.intents[c.commandId] == a.intent && a.intent.command == c)
  {
    var (r', a) := AdmitIn(r, userId, c, now);
    var id := c.commandId;
    assert Owes(r, id) <==> r.pending.Some? && r.pending.value.commandId == id;
    if r.pending.Some? {
      assert Owes(r, r.pending.value.commandId);
      PendingMoved(r, Nudged(r.pending.value, now));
    }
    if id !in r.intents && id !in r.receipts && a.Admitted? {
      IntentAdded(r, c, now, r'.pending);
    }
  }

  /** A command id used again with another fingerprint changes nothing, ever. */
  lemma ReusedIdRefused(r: Records, userId: string, c: Command, now: int)
    requires Consistent(r) && c.commandId in r.intents && FingerprintOf(c) != r.intents[c.commandId].fingerprint
    ensures AdmitIn(r, userId, c, now) == (r, Collision)
  {
  }

  lemma SettleKeeps(r: Records, id: string, status: Status, now: int)
    requires Consistent(r) && id in r.intents
    ensures
      var (r', s) := SettleIn(r, r.intents[id].command, r.intents[id].fingerprint, status, now);
      && Consistent(r') && Extends(r, r') && PendingKept(r, r')
      && s.Settled? && id in r'.receipts && r'.receipts[id] == s.receipt
      && r'.intents == r.intents
      && (id in r.receipts ==> r' == r)
  {
    var (r', s) := SettleIn(r, r.intents[id].command, r.intents[id].fingerprint, status, now);
    forall x ensures Owes(r', x) <==> r'.pending.Some? && r'.pending.value.commandId == x {
      assert Owes(r, x) <==> r.pending.Some? && r.pending.value.commandId == x;
    }
  }

  lemma PutOffKeeps(r: Records, until: int)
    requires Consistent(r)
    ensures Consistent(PutOff(r, until)) && Extends(r, PutOff(r, until)) && PendingKept(r, PutOff(r, until))
  {
    var r' := PutOff(r, until);
    forall x ensures Owes(r', x) <==> r'.pending.Some? && r'.pending.value.commandId == x {
      assert Owes(r, x) <==> r.pending.Some? && r.pending.value.commandId == x;
    }
  }

  /** Which answer an asked command gets. One whose id is taken is told its receipt, or that it
      is in hand, and a collision if it is not the same command; a new one beside another
      pending command joins it if it is a connect, and is busy if it is an Update or a Reset. */
  lemma AnsweredAs(r: Records, userId: string, c: Command, now: int)
    requires Consistent(r)
    ensures
      var a := AdmitIn(r, userId, c, now).1;
      var known := c.commandId in r.intents;
      && (a == Collision <==> known && r.intents[c.commandId].command != c)
      && (a.Replay? <==> c.commandId in r.receipts && r.intents[c.commandId].command == c)
      && (a.Replay? ==> a.receipt == r.receipts[c.commandId])
      && (a.Joined? <==> !known && r.pending.Some? && c.kind == Connect)
      && (a.Joined? ==> a.admittedAt == r.pending.value.admittedAt)
      && (a == Busy <==> !known && r.pending.Some? && (c.kind == UpdateComputer || c.kind == ResetComputer))
      && (a.Admitted? ==> a.intent.admittedAt == if known then r.intents[c.commandId].admittedAt else now)
  {
    assert Owes(r, c.commandId) <==> r.pending.Some? && r.pending.value.commandId == c.commandId;
    if r.pending.Some? {
      assert Owes(r, r.pending.value.commandId);
    }
  }

  /** Its time has come: it is admitted, and put off to no later than now. */
  predicate Overdue(p: Pending, now: int) {
    && p.admittedAt <= now
    && (if p.deferredUntil.Some? then p.deferredUntil.value <= now else 0 <= now)
  }

  /** When the pending command runs after a command was asked for: the new one a second later,
      and one already pending as it was, unless it is overdue: then a second later as well. A
      replay, a collision, a busy answer and an immediate command bring nothing forward. */
  lemma DueAfter(r: Records, userId: string, c: Command, now: int)
    requires Consistent(r)
    ensures
      var (r', a) := AdmitIn(r, userId, c, now);
      if r.pending == None then
        r'.pending == if a.Admitted? && Scheduled(c.kind)
                      then Some(Pending(userId, c.commandId, a.intent.admittedAt, Some(now + 1000), None)) else None
      else
        var p := r.pending.value;
        var asked := a.Joined? || (a.Admitted? && Scheduled(c.kind));
        r'.pending == Some(if asked && Overdue(p, now) then p.(deferredUntil := Some(now + 1000)) else p)
  {
    assert Owes(r, c.commandId) <==> r.pending.Some? && r.pending.value.commandId == c.commandId;
  }

  /** A settled command keeps its first receipt: settled again under the same fingerprint it is
      answered that receipt, and under another a collision. */
  lemma SettledOnce(r: Records, c: Command, fp: Fingerprint, status: Status, now: int)
    requires c.commandId in r.receipts
    ensures SettleIn(r, c, fp, status, now) ==
            (r, if r.receipts[c.commandId].fingerprint == fp then Settled(r.receipts[c.commandId])
                else SettleCollision)
  {
  }
}
