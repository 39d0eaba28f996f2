/** The demonstrations one Bot holds: recorded, kept for the person to send, or sent. One
    command or alarm at a time, any of which an eviction may cut short; times are integers
    in milliseconds. */
module Demonstrations {
  import opened Wrappers

  const MAX_SECONDS := 600
  const RETENTION_MS := 7 * 24 * 60 * 60_000
  const COLLECT_GRACE_MS := 60_000
  const RETRY_MS := 5 * 60_000
  const ATTEMPTS := 3
  const LIMIT := 8

  datatype Demonstration =
    | Recording(id: string, ownerId: string, startedAt: int, endsAt: int, retryAt: Option<int>, attempts: nat)
    | Ready(id: string, startedAt: int, steps: nat, uploads: seq<string>, expiresAt: int)
    | Sent(id: string, startedAt: int, steps: nat, uploads: seq<string>, expiresAt: int)

  /** The person's lease on the desktop. */
  datatype Control = Control(ownerId: string, expiresAt: int)

  /** What the Computer hands back for a recording: it threw, or so many steps and the
      uploads they became (none: the store refused to keep them). `at` is the time then. */
  datatype Collection = CollectThrew | Handed(steps: nat, uploads: Option<seq<string>>, at: int)

  /** What the outside answers about one due demonstration. `deleted` asks the vault, and
      is `None` when that threw. */
  datatype Port = Port(deleted: Option<bool>, collection: Collection, removed: bool)

  function Min(a: int, b: int): int { if a <= b then a else b }

  /** When an alarm is to act on `e`: at its expiry once it is kept; while it records, at the
      retry put down, or a minute past the earlier of its cap and its owner's lease. */
  function Deadline(e: Demonstration, control: Option<Control>): int {
    if !e.Recording? then e.expiresAt
    else if e.retryAt.Some? then e.retryAt.value
    else
      var lapses :=
        if control.Some? && control.value.ownerId == e.ownerId then control.value.expiresAt else e.startedAt;
      Min(e.endsAt, lapses) + COLLECT_GRACE_MS
  }

  // ---- what a Bot may hold ---------------------------------------------------------

  function Unsent(es: seq<Demonstration>): nat {
    if es == [] then 0 else (if es[0].Sent? then 0 else 1) + Unsent(es[1..])
  }

  ghost predicate DistinctIds(es: seq<Demonstration>) {
    forall i, j :: 0 <= i < j < |es| ==> es[i].id != es[j].id
  }

  ghost predicate Bounded(es: seq<Demonstration>) {
    && |es| <= LIMIT && Unsent(es) <= 1 && DistinctIds(es)
    && forall e :: e in es && e.Recording? ==> e.attempts < ATTEMPTS
  }

  // ---- edits of the one record ------------------------------------------------------

  function Without(es: seq<Demonstration>, ids: set<string>): seq<Demonstration> {
    if es == [] then []
    else (if es[0].id in ids then [] else [es[0]]) + Without(es[1..], ids)
  }

  /** What becomes of one due demonstration; nothing when it is let go. */
  function Processed(e: Demonstration, port: Port, now: int, storing: bool): Option<Demonstration> {
    if !e.Recording? then
      if !storing || port.removed then None else Some(e.(expiresAt := now + RETRY_MS))
    else
      match Collected(e, port, storing)
      case Some(next) => next
      case None =>
        if e.attempts + 1 >= ATTEMPTS then None
        else Some(e.(attempts := e.attempts + 1, retryAt := Some(now + RETRY_MS)))
  }

  /** A recording's collection: `None` when it threw, else what it leaves. */
  function Collected(e: Demonstration, port: Port, storing: bool): Option<Option<Demonstration>>
    requires e.Recording?
  {
    if port.deleted == None then None
    else if port.deleted.value then Some(None)
    else if port.collection.CollectThrew? then None
    else if port.collection.steps == 0 || !storing then Some(None)
    else if port.collection.uploads == None then None
    else Some(Some(Kept(e, port.collection.steps, port.collection.uploads.value, port.collection.at)))
  }

  function Kept(e: Demonstration, steps: nat, uploads: seq<string>, at: int): Demonstration {
    Ready(e.id, e.startedAt, steps, uploads, at + RETENTION_MS)
  }

  /** The record after an alarm at `now`. */
  function AfterAlarm(es: seq<Demonstration>, control: Option<Control>, ports: string -> Port, now: int,
                      storing: bool): seq<Demonstration>
  {
    if es == [] then []
    else
      var front, last := es[..|es| - 1], es[|es| - 1];
      var done := AfterAlarm(front, control, ports, now, storing);
      if Deadline(last, control) > now then done + [last]
      else
        match Processed(last, ports(last.id), now, storing)
        case Some(next) => done + [next]
        case None => done
  }

  /** The record after an alarm that got through the first `reach` demonstrations before an
      eviction, or through all of them. */
  function AlarmReached(es: seq<Demonstration>, control: Option<Control>, ports: string -> Port, now: int,
                        storing: bool, reach: nat): seq<Demonstration>
  {
    var n := if reach < |es| then reach else |es|;
    AfterAlarm(es[..n], control, ports, now, storing) + es[n..]
  }

  /** The record with `next` in the place of the demonstration it came from. */
  function Replace(es: seq<Demonstration>, id: string, next: Option<Demonstration>): seq<Demonstration> {
    if es == [] then [] else Put(es[0], id, next) + Replace(es[1..], id, next)
  }

  function Put(e: Demonstration, id: string, next: Option<Demonstration>): seq<Demonstration> {
    if e.id != id then [e] else if next.Some? then [next.value] else []
  }

  lemma Associative<T>(a: seq<T>, b: seq<T>, c: seq<T>)
    ensures (a + b) + c == a + (b + c)
  {
  }

  // ---- lemmas about the edits -------------------------------------------------------

  lemma {:induction false} UnsentAppend(a: seq<Demonstration>, b: seq<Demonstration>)
    ensures Unsent(a + b) == Unsent(a) + Unsent(b)
  {
    if a == [] {
      assert a + b == b;
    } else {
      UnsentAppend(a[1..], b);
      assert (a + b)[1..] == a[1..] + b;
    }
  }

  lemma {:induction false} WithoutShape(es: seq<Demonstration>, ids: set<string>)
    ensures |Without(es, ids)| <= |es| && Unsent(Without(es, ids)) <= Unsent(es)
    ensures forall e :: e in Without(es, ids) <==> e in es && e.id !in ids
    ensures DistinctIds(es) ==> DistinctIds(Without(es, ids))
  {
    if es != [] {
      WithoutShape(es[1..], ids);
      var head := if es[0].id in ids then [] else [es[0]];
      UnsentAppend(head, Without(es[1..], ids));
      if DistinctIds(es) {
        forall e | e in Without(es[1..], ids) ensures e.id != es[0].id {
          var k :| 0 <= k < |es[1..]| && es[1..][k] == e;
          assert es[k + 1] == e;
        }
      }
    }
  }

  lemma WithoutBounded(es: seq<Demonstration>, ids: set<string>)
    requires Bounded(es)
    ensures Bounded(Without(es, ids))
  {
    WithoutShape(es, ids);
  }

  lemma {:induction false} WithoutSent(es: seq<Demonstration>, ids: set<string>)
    requires forall e :: e in es && !e.Sent? ==> e.id in ids
    ensures Unsent(Without(es, ids)) == 0
  {
    if es != [] {
      WithoutSent(es[1..], ids);
      UnsentAppend(if es[0].id in ids then [] else [es[0]], Without(es[1..], ids));
    }
  }

  lemma TailApart(es: seq<Demonstration>)
    requires es != [] && DistinctIds(es)
    ensures DistinctIds(es[1..]) && forall e :: e in es[1..] ==> e.id != es[0].id
  {
    forall e | e in es[1..] ensures e.id != es[0].id {
      var k :| 0 <= k < |es[1..]| && es[1..][k] == e;
      assert es[k + 1] == e;
    }
  }

  lemma {:induction false} ReplaceElems(es: seq<Demonstration>, id: string, next: Option<Demonstration>)
    requires next.Some? ==> next.value.id == id
    ensures forall e :: e in Replace(es, id, next) ==> (e in es && e.id != id) || Some(e) == next
    ensures |Replace(es, id, next)| <= |es|
  {
    if es != [] {
      ReplaceElems(es[1..], id, next);
    }
  }

  lemma HeadApart(head: seq<Demonstration>, rest: seq<Demonstration>)
    requires |head| <= 1 && DistinctIds(rest)
    requires head != [] ==> forall e :: e in rest ==> e.id != head[0].id
    ensures DistinctIds(head + rest)
  {
    assert forall i :: 0 <= i < |rest| ==> (head + rest)[|head| + i] == rest[i];
  }

  lemma {:induction false} ReplaceDistinct(es: seq<Demonstration>, id: string, next: Option<Demonstration>)
    requires DistinctIds(es) && (next.Some? ==> next.value.id == id)
    ensures DistinctIds(Replace(es, id, next))
  {
    if es != [] {
      TailApart(es);
      if es[0].id == id {
        ReplaceAbsent(es[1..], id, next);
      } else {
        ReplaceDistinct(es[1..], id, next);
        ReplaceElems(es[1..], id, next);
      }
      HeadApart(Put(es[0], id, next), Replace(es[1..], id, next));
    }
  }

  lemma {:induction false} ReplaceUnsent(es: seq<Demonstration>, id: string, next: Option<Demonstration>)
    requires DistinctIds(es)
    requires next.Some? && !next.value.Sent? ==> forall e :: e in es && e.id == id ==> !e.Sent?
    ensures Unsent(Replace(es, id, next)) <= Unsent(es)
  {
    if es != [] {
      TailApart(es);
      assert es[0] in es;
      if es[0].id == id {
        ReplaceAbsent(es[1..], id, next);
      } else {
        ReplaceUnsent(es[1..], id, next);
      }
      UnsentAppend(Put(es[0], id, next), Replace(es[1..], id, next));
    }
  }

  lemma ReplaceShape(es: seq<Demonstration>, id: string, next: Option<Demonstration>)
    requires DistinctIds(es) && (next.Some? ==> next.value.id == id)
    requires next.Some? && !next.value.Sent? ==> exists e :: e in es && e.id == id && !e.Sent?
    ensures |Replace(es, id, next)| <= |es| && Unsent(Replace(es, id, next)) <= Unsent(es)
    ensures DistinctIds(Replace(es, id, next))
    ensures forall e :: e in Replace(es, id, next) ==> (e in es && e.id != id) || Some(e) == next
  {
    ReplaceElems(es, id, next);
    ReplaceDistinct(es, id, next);
    forall e, f | e in es && f in es && e.id == id && f.id == id ensures e == f {
      var i :| 0 <= i < |es| && es[i] == e;
      var j :| 0 <= j < |es| && es[j] == f;
    }
    ReplaceUnsent(es, id, next);
  }

  lemma {:induction false} ReplaceAbsent(es: seq<Demonstration>, id: string, next: Option<Demonstration>)
    requires forall e :: e in es ==> e.id != id
    ensures Replace(es, id, next) == es
  {
    if es != [] {
      ReplaceAbsent(es[1..], id, next);
    }
  }

  lemma {:induction false} ReplaceAppend(a: seq<Demonstration>, b: seq<Demonstration>, id: string,
                                         next: Option<Demonstration>)
    ensures Replace(a + b, id, next) == Replace(a, id, next) + Replace(b, id, next)
  {
    if a == [] {
      assert a + b == b;
      assert [] + Replace(b, id, next) == Replace(b, id, next);
    } else {
      ReplaceAppend(a[1..], b, id, next);
      assert (a + b)[1..] == a[1..] + b;
      Associative(Put(a[0], id, next), Replace(a[1..], id, next), Replace(b, id, next));
    }
  }

  // ---- what an alarm leaves ----------------------------------------------------------

  ghost predicate PortsLater(ports: string -> Port, now: int) {
    forall id :: ports(id).collection.Handed? ==> ports(id).collection.at >= now
  }

  /** After an alarm no remaining deadline is in its past: nothing wakes the object for ever. */
  lemma {:induction false} NoDeadlinePast(es: seq<Demonstration>, control: Option<Control>, ports: string -> Port,
                                          now: int, storing: bool)
    requires PortsLater(ports, now)
    ensures forall e :: e in AfterAlarm(es, control, ports, now, storing) ==> Deadline(e, control) > now
    decreases |es|
  {
    if es != [] {
      NoDeadlinePast(es[..|es| - 1], control, ports, now, storing);
    }
  }

  lemma ProcessedShape(e: Demonstration, port: Port, now: int, storing: bool)
    ensures
      var next := Processed(e, port, now, storing);
      next.Some? ==>
        && next.value.id == e.id && (next.value.Sent? <==> e.Sent?)
        && (next.value.Recording? ==> next.value.attempts < ATTEMPTS)
  {
  }

  lemma LastApart(front: seq<Demonstration>, last: Demonstration, e: Demonstration)
    requires DistinctIds(front + [last]) && e in front
    ensures e.id != last.id
  {
    var k :| 0 <= k < |front| && front[k] == e;
    assert (front + [last])[k].id != (front + [last])[|front|].id;
  }

  lemma PushOne(front: seq<Demonstration>, last: Demonstration, done: seq<Demonstration>, next: Demonstration)
    requires DistinctIds(front + [last]) && DistinctIds(done) && next.id == last.id
    requires forall e :: e in done ==> exists f :: f in front && f.id == e.id
    ensures DistinctIds(done + [next])
    ensures forall e :: e in done + [next] ==> exists f :: f in front + [last] && f.id == e.id
  {
    forall i | 0 <= i < |done| ensures done[i].id != next.id && exists f :: f in front + [last] && f.id == done[i].id {
      assert done[i] in done;
      var f :| f in front && f.id == done[i].id;
      assert f in front + [last];
      LastApart(front, last, f);
    }
    assert last in front + [last];
  }

  /** An alarm only keeps, retries or drops what was there. */
  lemma {:induction false} AlarmShape(es: seq<Demonstration>, control: Option<Control>, ports: string -> Port,
                                      now: int, storing: bool)
    requires DistinctIds(es) && forall e :: e in es && e.Recording? ==> e.attempts < ATTEMPTS
    ensures
      var r := AfterAlarm(es, control, ports, now, storing);
      && |r| <= |es| && Unsent(r) <= Unsent(es) && DistinctIds(r)
      && (forall e :: e in r && e.Recording? ==> e.attempts < ATTEMPTS)
      && (forall e :: e in r ==> exists f :: f in es && f.id == e.id)
    decreases |es|
  {
    if es != [] {
      var front, last := es[..|es| - 1], es[|es| - 1];
      assert es == front + [last];
      AlarmShape(front, control, ports, now, storing);
      var done := AfterAlarm(front, control, ports, now, storing);
      ProcessedShape(last, ports(last.id), now, storing);
      UnsentAppend(front, [last]);
      var next := if Deadline(last, control) > now then Some(last) else Processed(last, ports(last.id), now, storing);
      if next.Some? {
        UnsentAppend(done, [next.value]);
        assert Unsent([next.value]) == Unsent([last]);
        PushOne(front, last, done, next.value);
        assert AfterAlarm(es, control, ports, now, storing) == done + [next.value];
      } else {
        assert AfterAlarm(es, control, ports, now, storing) == done;
      }
    }
  }

  /** What one alarm does to one demonstration, whatever the others are. */
  lemma {:induction false} AlarmOne(es: seq<Demonstration>, control: Option<Control>, ports: string -> Port, now: int,
                                    storing: bool, e: Demonstration)
    requires DistinctIds(es) && e in es
    ensures
      var r := AfterAlarm(es, control, ports, now, storing);
      if Deadline(e, control) > now then e in r
      else
        match Processed(e, ports(e.id), now, storing)
        case Some(next) => next in r
        case None => forall f :: f in r ==> f.id != e.id
    decreases |es|
  {
    var front, last := es[..|es| - 1], es[|es| - 1];
    assert es == front + [last];
    if e in front {
      assert forall i :: 0 <= i < |front| ==> es[i] == front[i];
      AlarmOne(front, control, ports, now, storing, e);
      LastApart(front, last, e);
    } else {
      AlarmIds(front, control, ports, now, storing);
      forall f | f in AfterAlarm(front, control, ports, now, storing) ensures f.id != e.id {
        var h :| h in front && h.id == f.id;
        LastApart(front, last, h);
      }
    }
  }

  /** The alarm is to act: on what is kept once it expires; on a recording at the retry put down
      for it, or a minute past its cap or past its owner's lease, whichever is first. A lease
      that is gone or another's lapsed when the recording started. */
  predicate ComesDue(e: Demonstration, control: Option<Control>, now: int) {
    if !e.Recording? then e.expiresAt <= now
    else if e.retryAt.Some? then e.retryAt.value <= now
    else
      || e.endsAt + 60000 <= now
      || (if control.Some? && control.value.ownerId == e.ownerId then control.value.expiresAt + 60000 <= now
          else e.startedAt + 60000 <= now)
  }

  ghost predicate IsGone(r: seq<Demonstration>, id: string) {
    forall f :: f in r ==> f.id != id
  }

  /** What an alarm does to one demonstration, by the numbers: nothing before it is due; what is
      kept goes, or is tried again in five minutes when its files would not go; a recording is
      kept for a week when it was collected with something in it and stored, goes when there
      was nothing or it was deleted, and otherwise is tried again, twice. */
  lemma AlarmTold(es: seq<Demonstration>, control: Option<Control>, ports: string -> Port, now: int, storing: bool,
                  e: Demonstration)
    requires DistinctIds(es) && e in es
    ensures
      var r, p := AfterAlarm(es, control, ports, now, storing), ports(e.id);
      if !ComesDue(e, control, now) then e in r
      else if !e.Recording? then
        if storing && !p.removed then e.(expiresAt := now + 300000) in r else IsGone(r, e.id)
      else if p.deleted == Some(true) then IsGone(r, e.id)
      else if p.deleted == Some(false) && p.collection.Handed? && (p.collection.steps == 0 || !storing) then
        IsGone(r, e.id)
      else if p.deleted == Some(false) && p.collection.Handed? && p.collection.uploads.Some? then
        Ready(e.id, e.startedAt, p.collection.steps, p.collection.uploads.value, p.collection.at + 604800000) in r
      else if e.attempts >= 2 then IsGone(r, e.id)
      else e.(attempts := e.attempts + 1, retryAt := Some(now + 300000)) in r
  {
    AlarmOne(es, control, ports, now, storing, e);
  }

  lemma {:induction false} AlarmIds(es: seq<Demonstration>, control: Option<Control>, ports: string -> Port, now: int,
                                    storing: bool)
    ensures forall e :: e in AfterAlarm(es, control, ports, now, storing) ==> exists f :: f in es && f.id == e.id
    decreases |es|
  {
    if es != [] {
      AlarmIds(es[..|es| - 1], control, ports, now, storing);
      assert es == es[..|es| - 1] + [es[|es| - 1]];
      assert es[|es| - 1] in es;
    }
  }

  /** One alarm: its time, the lease then, and what the outside answers. */
  datatype AlarmEvent = AlarmEvent(now: int, control: Option<Control>, ports: string -> Port)

  ghost predicate FindsDue(e: Demonstration, a: AlarmEvent) {
    Deadline(e, a.control) <= a.now
  }

  /** The alarm does not collect the recording: it is not due yet, or collecting it fails. */
  ghost predicate Uncollected(es: seq<Demonstration>, a: AlarmEvent, id: string, storing: bool) {
    forall e :: e in es && e.id == id && FindsDue(e, a) ==> e.Recording? && Collected(e, a.ports(id), storing) == None
  }

  ghost function AfterAlarms(es: seq<Demonstration>, alarms: seq<AlarmEvent>, storing: bool): seq<Demonstration>
    decreases |alarms|
  {
    if alarms == [] then es
    else AfterAlarms(AfterAlarm(es, alarms[0].control, alarms[0].ports, alarms[0].now, storing), alarms[1..], storing)
  }

  ghost predicate NeverCollected(es: seq<Demonstration>, alarms: seq<AlarmEvent>, id: string, storing: bool)
    decreases |alarms|
  {
    alarms == [] ||
    (Uncollected(es, alarms[0], id, storing)
     && NeverCollected(AfterAlarm(es, alarms[0].control, alarms[0].ports, alarms[0].now, storing), alarms[1..], id,
                       storing))
  }

  /** How many of the alarms find the recording due. */
  ghost function TimesDue(es: seq<Demonstration>, alarms: seq<AlarmEvent>, id: string, storing: bool): nat
    decreases |alarms|
  {
    if alarms == [] then 0
    else
      (if exists e :: e in es && e.id == id && FindsDue(e, alarms[0]) then 1 else 0)
      + TimesDue(AfterAlarm(es, alarms[0].control, alarms[0].ports, alarms[0].now, storing), alarms[1..], id, storing)
  }

  lemma {:induction false} GoneStaysGone(es: seq<Demonstration>, alarms: seq<AlarmEvent>, id: string, storing: bool)
    requires forall e :: e in es ==> e.id != id
    ensures forall e :: e in AfterAlarms(es, alarms, storing) ==> e.id != id
    ensures TimesDue(es, alarms, id, storing) == 0
    decreases |alarms|
  {
    if alarms != [] {
      var a := alarms[0];
      AlarmIds(es, a.control, a.ports, a.now, storing);
      GoneStaysGone(AfterAlarm(es, a.control, a.ports, a.now, storing), alarms[1..], id, storing);
    }
  }

  /** What such an alarm leaves of the recording: itself before it is due, and then one more
      attempt or nothing. */
  function OneMoreAttempt(e: Demonstration, a: AlarmEvent): Option<Demonstration>
    requires e.Recording?
  {
    if Deadline(e, a.control) > a.now then Some(e)
    else if e.attempts + 1 >= ATTEMPTS then None
    else Some(e.(attempts := e.attempts + 1, retryAt := Some(a.now + RETRY_MS)))
  }

  lemma UncollectedOnce(es: seq<Demonstration>, a: AlarmEvent, storing: bool, e: Demonstration)
    requires Bounded(es) && e in es && e.Recording? && Uncollected(es, a, e.id, storing)
    ensures
      var r := AfterAlarm(es, a.control, a.ports, a.now, storing);
      && Bounded(r)
      && match OneMoreAttempt(e, a)
         case Some(next) => next in r
         case None => forall f :: f in r ==> f.id != e.id
    ensures (exists f :: f in es && f.id == e.id && FindsDue(f, a)) <==> FindsDue(e, a)
  {
    AlarmOne(es, a.control, a.ports, a.now, storing, e);
    AlarmShape(es, a.control, a.ports, a.now, storing);
    forall f | f in es && f.id == e.id ensures f == e {
      var i :| 0 <= i < |es| && es[i] == e;
      var j :| 0 <= j < |es| && es[j] == f;
    }
  }

  /** Uncollected, a recording stays through its first two failures and goes with the third,
      however many alarms that do not find it due come in between. */
  lemma {:induction false} ThirdRefusalLetsGo(es: seq<Demonstration>, alarms: seq<AlarmEvent>, storing: bool,
                                              e: Demonstration)
    requires Bounded(es) && e in es && e.Recording?
    requires NeverCollected(es, alarms, e.id, storing)
    ensures
      var r, due := AfterAlarms(es, alarms, storing), TimesDue(es, alarms, e.id, storing);
      if e.attempts + due < ATTEMPTS
      then exists f :: f in r && f.id == e.id && f.Recording? && f.attempts == e.attempts + due
      else e.attempts + due == ATTEMPTS && forall f :: f in r ==> f.id != e.id
    decreases |alarms|
  {
    if alarms != [] {
      var a := alarms[0];
      var r := AfterAlarm(es, a.control, a.ports, a.now, storing);
      UncollectedOnce(es, a, storing, e);
      var next := OneMoreAttempt(e, a);
      if next.Some? {
        ThirdRefusalLetsGo(r, alarms[1..], storing, next.value);
      } else {
        GoneStaysGone(r, alarms[1..], e.id, storing);
      }
    }
  }

  // ---- starting, sending, forgetting --------------------------------------------------

  function SentOf(es: seq<Demonstration>): seq<Demonstration> {
    if es == [] then [] else (if es[0].Sent? then [es[0]] else []) + SentOf(es[1..])
  }

  function IdSet(es: seq<Demonstration>): set<string> {
    set e | e in es :: e.id
  }

  function UnsentIds(es: seq<Demonstration>): set<string> {
    set e | e in es && !e.Sent? :: e.id
  }

  /** What a new recording replaces: everything unsent, and the oldest sent beyond the limit. */
  function Replaced(es: seq<Demonstration>): set<string> {
    var sent := SentOf(es);
    UnsentIds(es) + IdSet(sent[..if |sent| > LIMIT - 1 then |sent| - (LIMIT - 1) else 0])
  }

  function MarkSent(es: seq<Demonstration>, uploadIds: set<string>): seq<Demonstration> {
    if es == [] then []
    else
      var e := es[0];
      [if e.Ready? && exists u :: u in e.uploads && u in uploadIds
       then Sent(e.id, e.startedAt, e.steps, e.uploads, e.expiresAt) else e] + MarkSent(es[1..], uploadIds)
  }

  lemma {:induction false} MarkSentShape(es: seq<Demonstration>, uploadIds: set<string>)
    ensures |MarkSent(es, uploadIds)| == |es| && Unsent(MarkSent(es, uploadIds)) <= Unsent(es)
    ensures forall i :: 0 <= i < |es| ==> MarkSent(es, uploadIds)[i].id == es[i].id
    ensures forall i :: 0 <= i < |es| ==> (MarkSent(es, uploadIds)[i].Recording? <==> es[i].Recording?)
    ensures forall i :: 0 <= i < |es| && es[i].Recording? ==> MarkSent(es, uploadIds)[i] == es[i]
  {
    if es != [] {
      MarkSentShape(es[1..], uploadIds);
    }
  }

  /** What is sent: the demonstrations kept for sending one of whose uploads was taken, and
      nothing else of the record changes. */
  lemma {:induction false} MarkSentTold(es: seq<Demonstration>, uploadIds: set<string>, i: nat)
    requires i < |es|
    ensures i < |MarkSent(es, uploadIds)| == |es|
    ensures
      var e := es[i];
      MarkSent(es, uploadIds)[i] ==
      if e.Ready? && Elements(e.uploads) * uploadIds != {} then Sent(e.id, e.startedAt, e.steps, e.uploads, e.expiresAt)
      else e
  {
    if i > 0 {
      MarkSentTold(es[1..], uploadIds, i - 1);
    } else {
      MarkSentShape(es, uploadIds);
      if es[0].Ready? {
        Overlap(es[0].uploads, uploadIds);
      }
    }
  }

  function Elements(s: seq<string>): set<string> {
    set x | x in s
  }

  lemma Overlap(s: seq<string>, ids: set<string>)
    ensures (exists u :: u in s && u in ids) <==> Elements(s) * ids != {}
  {
    if u :| u in s && u in ids {
      assert u in Elements(s) * ids;
    }
  }

  lemma MarkSentBounded(es: seq<Demonstration>, uploadIds: set<string>)
    requires Bounded(es)
    ensures Bounded(MarkSent(es, uploadIds))
  {
    MarkSentShape(es, uploadIds);
    var r := MarkSent(es, uploadIds);
    forall e | e in r && e.Recording? ensures e.attempts < ATTEMPTS {
      var i :| 0 <= i < |r| && r[i] == e;
      assert es[i] in es;
    }
  }

  lemma {:induction false} SentOfWithin(es: seq<Demonstration>)
    ensures forall e :: e in SentOf(es) <==> e in es && e.Sent?
    ensures |SentOf(es)| + Unsent(es) == |es|
  {
    if es != [] {
      SentOfWithin(es[1..]);
      assert es == [es[0]] + es[1..];
    }
  }

  lemma {:induction false} WithoutAtMostSent(es: seq<Demonstration>, ids: set<string>)
    requires UnsentIds(es) <= ids
    ensures |Without(es, ids)| <= |SentOf(es)|
  {
    if es != [] {
      assert es[0] in es;
      assert UnsentIds(es[1..]) <= UnsentIds(es);
      WithoutAtMostSent(es[1..], ids);
    }
  }

  lemma {:induction false} WithoutShrinks(es: seq<Demonstration>, ids: set<string>, e: Demonstration)
    requires e in es && e.id in ids
    ensures |Without(es, ids)| < |es|
  {
    if es[0] == e {
      WithoutShape(es[1..], ids);
    } else {
      WithoutShrinks(es[1..], ids, e);
    }
  }

  /** Making room leaves at most seven, all sent. */
  lemma RoomMade(es: seq<Demonstration>)
    requires Bounded(es)
    ensures |Without(es, Replaced(es))| <= LIMIT - 1 && Unsent(Without(es, Replaced(es))) == 0
    ensures Bounded(Without(es, Replaced(es)))
  {
    var sent, ids := SentOf(es), Replaced(es);
    SentOfWithin(es);
    WithoutBounded(es, ids);
    WithoutAtMostSent(es, ids);
    WithoutSent(es, ids);
    if |sent| > LIMIT - 1 {
      assert sent[0] in sent[..|sent| - (LIMIT - 1)];
      WithoutShrinks(es, ids, sent[0]);
    }
  }

  lemma StartBounded(es: seq<Demonstration>, e: Demonstration)
    requires Bounded(es) && e.Recording? && e.attempts == 0 && forall f :: f in es ==> f.id != e.id
    ensures Bounded(Without(es, Replaced(es)) + [e])
  {
    var rest := Without(es, Replaced(es));
    RoomMade(es);
    WithoutShape(es, Replaced(es));
    UnsentAppend(rest, [e]);
    forall i | 0 <= i < |rest| ensures rest[i].id != e.id {
      assert rest[i] in rest;
    }
  }

  lemma {:induction false} WithoutIsReplace(es: seq<Demonstration>, id: string)
    ensures Without(es, {id}) == Replace(es, id, None)
  {
    if es != [] {
      WithoutIsReplace(es[1..], id);
    }
  }

  lemma ReplaceBounded(es: seq<Demonstration>, e: Demonstration, next: Option<Demonstration>)
    requires Bounded(es) && e in es && !e.Sent?
    requires next.Some? ==> next.value.id == e.id && (next.value.Recording? ==> next.value.attempts < ATTEMPTS)
    ensures Bounded(Replace(es, e.id, next))
  {
    ReplaceShape(es, e.id, next);
  }

  /** Replacing one demonstration in the middle touches only it. */
  lemma ReplaceMiddle(done: seq<Demonstration>, e: Demonstration, rest: seq<Demonstration>, next: Option<Demonstration>)
    requires forall f :: f in done ==> f.id != e.id
    requires forall f :: f in rest ==> f.id != e.id
    ensures Replace(done + [e] + rest, e.id, next) == (if next.Some? then done + [next.value] else done) + rest
  {
    ReplaceAppend(done + [e], rest, e.id, next);
    ReplaceAppend(done, [e], e.id, next);
    ReplaceAbsent(done, e.id, next);
    ReplaceAbsent(rest, e.id, next);
    var only := if next.Some? then [next.value] else [];
    assert [e][1..] == [];
    assert Replace([e], e.id, next) == only + Replace([e][1..], e.id, next) == only;
    assert done + [] == done;
  }

  lemma UndoStart(es: seq<Demonstration>, e: Demonstration)
    requires forall f :: f in es ==> f.id != e.id
    ensures Without(Without(es, Replaced(es)) + [e], {e.id}) == Without(es, Replaced(es))
  {
    var rest := Without(es, Replaced(es));
    WithoutShape(es, Replaced(es));
    WithoutIsReplace(rest + [e], e.id);
    ReplaceMiddle(rest, e, [], None);
    assert rest + [e] + [] == rest + [e] && rest + [] == rest;
  }

  /** What the alarm's loop does at one demonstration of its snapshot. */
  lemma SettleStep(es: seq<Demonstration>, control: Option<Control>, ports: string -> Port, now: int, storing: bool,
                   i: nat)
    requires DistinctIds(es) && i < |es|
    ensures
      var before := AfterAlarm(es[..i], control, ports, now, storing) + es[i..];
      var after := AfterAlarm(es[..i + 1], control, ports, now, storing) + es[i + 1..];
      after == if Deadline(es[i], control) > now then before
               else Replace(before, es[i].id, Processed(es[i], ports(es[i].id), now, storing))
  {
    var e, done, rest := es[i], AfterAlarm(es[..i], control, ports, now, storing), es[i + 1..];
    assert es[..i + 1][..|es[..i + 1]| - 1] == es[..i];
    assert es[i..] == [e] + rest;
    assert done + es[i..] == done + [e] + rest;
    OthersApart(es, control, ports, now, storing, i);
    ReplaceMiddle(done, e, rest, Processed(e, ports(e.id), now, storing));
  }

  // ---- commands, alarms and evictions -------------------------------------------------

  /** What became of asking the Computer to record: it did, it refused, or an eviction came
      between the record and its answer. */
  datatype Answer = Agreed | Refused | Evicted

  datatype Event =
    | Start(id: string, control: Option<Control>, now: int, removed: bool, answer: Answer)
    | Stop(collection: Collection)
    | Release(ownerId: string, collection: Collection)
    | Discard(removed: bool)
    | Delete(id: string, removed: bool)
    | NoteSent(uploadIds: set<string>)
    | Alarm(control: Option<Control>, ports: string -> Port, now: int, reach: nat)

  function First(es: seq<Demonstration>, p: Demonstration -> bool): (e: Option<Demonstration>)
    ensures e.Some? ==> e.value in es && p(e.value)
    ensures e == None ==> forall f :: f in es ==> !p(f)
  {
    if es == [] then None else if p(es[0]) then Some(es[0]) else First(es[1..], p)
  }

  function Last(es: seq<Demonstration>, p: Demonstration -> bool): (e: Option<Demonstration>)
    ensures e.Some? ==> e.value in es && p(e.value)
    ensures e == None ==> forall f :: f in es ==> !p(f)
  {
    if es == [] then None
    else
      assert es == es[..|es| - 1] + [es[|es| - 1]];
      if p(es[|es| - 1]) then Some(es[|es| - 1]) else Last(es[..|es| - 1], p)
  }

  predicate IsRecording(e: Demonstration) {
    e.Recording?
  }

  predicate IsUnsent(e: Demonstration) {
    !e.Sent?
  }

  function OwnedBy(ownerId: string): Demonstration -> bool {
    (e: Demonstration) => e.Recording? && e.ownerId == ownerId
  }

  function Named(id: string): Demonstration -> bool {
    (e: Demonstration) => e.id == id
  }

  function NewRecording(id: string, control: Control, now: int): Demonstration {
    Recording(id, control.ownerId, now, now + MAX_SECONDS * 1000, None, 0)
  }

  /** The record a start leaves. The new recording is on it before the Computer answers, and
      only a refusal takes it off: an eviction does not. */
  function Started(es: seq<Demonstration>, e: Event, storing: bool): seq<Demonstration>
    requires e.Start?
  {
    if !storing || e.control == None || e.control.value.expiresAt <= e.now || e.id in IdSet(es) then es
    else if !e.removed && (exists f :: f in es && f.id in Replaced(es) && !f.Recording?) then es
    else Without(es, Replaced(es)) + if e.answer.Refused? then [] else [NewRecording(e.id, e.control.value, e.now)]
  }

  function Collecting(es: seq<Demonstration>, found: Option<Demonstration>, c: Collection,
                      storing: bool): seq<Demonstration>
    requires found.Some? ==> found.value.Recording?
  {
    if found == None then es
    else
      match Collected(found.value, Port(Some(false), c, true), storing)
      case None => es
      case Some(next) => Replace(es, found.value.id, next)
  }

  function Forgetting(es: seq<Demonstration>, found: Option<Demonstration>, removed: bool,
                      storing: bool): seq<Demonstration> {
    if found == None || (!found.value.Recording? && storing && !removed) then es else Replace(es, found.value.id, None)
  }

  function After(es: seq<Demonstration>, e: Event, storing: bool): seq<Demonstration> {
    match e
    case Start(_, _, _, _, _) => Started(es, e, storing)
    case Stop(c) => Collecting(es, Last(es, IsRecording), c, storing)
    case Release(ownerId, c) => Collecting(es, First(es, OwnedBy(ownerId)), c, storing)
    case Discard(removed) => Forgetting(es, Last(es, IsUnsent), removed, storing)
    case Delete(id, removed) =>
      var found := First(es, Named(id));
      if found.Some? && found.value.Sent? then Forgetting(es, found, removed, storing) else es
    case NoteSent(uploadIds) => MarkSent(es, uploadIds)
    case Alarm(control, ports, now, reach) => AlarmReached(es, control, ports, now, storing, reach)
  }

  function RunAll(es: seq<Demonstration>, events: seq<Event>, storing: bool): seq<Demonstration>
    decreases |events|
  {
    if events == [] then es else RunAll(After(es, events[0], storing), events[1..], storing)
  }

  lemma CollectingBounded(es: seq<Demonstration>, found: Option<Demonstration>, c: Collection, storing: bool)
    requires Bounded(es) && (found.Some? ==> found.value in es && found.value.Recording?)
    ensures Bounded(Collecting(es, found, c, storing))
  {
    if found.Some? && Collected(found.value, Port(Some(false), c, true), storing).Some? {
      ReplaceBounded(es, found.value, Collected(found.value, Port(Some(false), c, true), storing).value);
    }
  }

  lemma ForgettingBounded(es: seq<Demonstration>, found: Option<Demonstration>, removed: bool, storing: bool)
    requires Bounded(es)
    ensures Bounded(Forgetting(es, found, removed, storing))
  {
    if found.Some? {
      WithoutBounded(es, {found.value.id});
      WithoutIsReplace(es, found.value.id);
    }
  }

  lemma StartedBounded(es: seq<Demonstration>, e: Event, storing: bool)
    requires Bounded(es) && e.Start?
    ensures Bounded(Started(es, e, storing))
  {
    var after := Started(es, e, storing);
    if after != es {
      RoomMade(es);
      if e.answer.Refused? {
        assert after == Without(es, Replaced(es));
      } else {
        var recording := NewRecording(e.id, e.control.value, e.now);
        forall f | f in es ensures f.id != recording.id {
          assert f.id in IdSet(es);
        }
        StartBounded(es, recording);
      }
    }
  }

  /** Joining what an alarm has settled to what it has not reached. */
  lemma AlarmReachedBounded(es: seq<Demonstration>, control: Option<Control>, ports: string -> Port, now: int,
                            storing: bool, reach: nat)
    requires Bounded(es)
    ensures Bounded(AlarmReached(es, control, ports, now, storing, reach))
  {
    var n := if reach < |es| then reach else |es|;
    var front, rest := es[..n], es[n..];
    assert es == front + rest;
    UnsentAppend(front, rest);
    AlarmShape(front, control, ports, now, storing);
    var done := AfterAlarm(front, control, ports, now, storing);
    UnsentAppend(done, rest);
    SettledApart(front, rest, done);
  }

  lemma SettledApart(front: seq<Demonstration>, rest: seq<Demonstration>, done: seq<Demonstration>)
    requires DistinctIds(front + rest) && DistinctIds(done)
    requires forall e :: e in done ==> exists f :: f in front && f.id == e.id
    ensures DistinctIds(done + rest)
  {
    var r, es := done + rest, front + rest;
    forall i, j | 0 <= i < j < |r| ensures r[i].id != r[j].id {
      if i < |done| <= j {
        assert done[i] in done;
        var f :| f in front && f.id == done[i].id;
        var k :| 0 <= k < |front| && front[k] == f;
        assert es[k] == f && es[|front| + (j - |done|)] == r[j];
      } else if |done| <= i {
        assert es[|front| + (i - |done|)] == r[i] && es[|front| + (j - |done|)] == r[j];
      }
    }
  }

  lemma AfterBounded(es: seq<Demonstration>, e: Event, storing: bool)
    requires Bounded(es)
    ensures Bounded(After(es, e, storing))
  {
    match e
    case Start(_, _, _, _, _) => StartedBounded(es, e, storing);
    case Stop(c) => CollectingBounded(es, Last(es, IsRecording), c, storing);
    case Release(ownerId, c) => CollectingBounded(es, First(es, OwnedBy(ownerId)), c, storing);
    case Discard(removed) => ForgettingBounded(es, Last(es, IsUnsent), removed, storing);
    case Delete(id, removed) => ForgettingBounded(es, First(es, Named(id)), removed, storing);
    case NoteSent(uploadIds) => MarkSentBounded(es, uploadIds);
    case Alarm(control, ports, now, reach) => AlarmReachedBounded(es, control, ports, now, storing, reach);
  }

  /** Whatever commands, alarms and evictions come, in whatever order: at most eight
      demonstrations, at most one of them unsent, and no recording past its attempts. */
  lemma {:induction false} StaysBounded(es: seq<Demonstration>, events: seq<Event>, storing: bool)
    requires Bounded(es)
    ensures Bounded(RunAll(es, events, storing))
    decreases |events|
  {
    if events != [] {
      AfterBounded(es, events[0], storing);
      StaysBounded(After(es, events[0], storing), events[1..], storing);
    }
  }

  lemma Unheld(es: seq<Demonstration>, id: string)
    requires !exists e :: e in es && e.id == id
    ensures id !in IdSet(es) && forall f :: f in es ==> f.id != id
  {
  }

  /** A start that gets as far as the record. */
  lemma StartedRecords(es: seq<Demonstration>, e: Event, storing: bool)
    requires e.Start? && storing && e.control.Some? && e.control.value.expiresAt > e.now && e.id !in IdSet(es)
    requires e.removed || forall f :: f in es && f.id in Replaced(es) ==> f.Recording?
    ensures Started(es, e, storing) ==
      if e.answer.Refused? then Without(es, Replaced(es))
      else Without(es, Replaced(es)) + [NewRecording(e.id, e.control.value, e.now)]
    ensures e.id in IdSet(Started(es, e, storing)) <==> !e.answer.Refused?
  {
    WithoutShape(es, Replaced(es));
    var after := Started(es, e, storing);
    if !e.answer.Refused? {
      assert NewRecording(e.id, e.control.value, e.now) == after[|after| - 1];
    } else {
      assert after == Without(es, Replaced(es));
    }
  }

  /** A start cut short by an eviction has recorded itself, so the same start again takes it
      for begun, though the Computer may never have been asked. */
  lemma EvictedStartHolds(es: seq<Demonstration>, e: Event, storing: bool, again: Event)
    requires Bounded(es) && e.Start? && e.answer.Evicted? && again.Start? && again.id == e.id
    requires Started(es, e, storing) != es
    ensures exists f :: f in Started(es, e, storing) && f.Recording? && f.id == e.id
    ensures Started(Started(es, e, storing), again, storing) == Started(es, e, storing)
  {
    var after := Started(es, e, storing);
    var recording := NewRecording(e.id, e.control.value, e.now);
    assert after[|after| - 1] == recording;
    assert recording in after;
    assert e.id in IdSet(after);
  }

  // ---- what a start keeps --------------------------------------------------------------

  function SentFrom(es: seq<Demonstration>): nat {
    if es == [] then 0 else (if es[0].Sent? then 1 else 0) + SentFrom(es[1..])
  }

  /** Sent, with fewer than seven sent after it. */
  predicate AmongLastSent(es: seq<Demonstration>, i: nat)
    requires i < |es|
  {
    es[i].Sent? && SentFrom(es[i + 1..]) < 7
  }

  /** Those of `es` from the `i`th on, each in its place among the rest. */
  function LastSent(es: seq<Demonstration>, i: nat): seq<Demonstration>
    requires i <= |es|
    decreases |es| - i
  {
    if i == |es| then [] else (if AmongLastSent(es, i) then [es[i]] else []) + LastSent(es, i + 1)
  }

  lemma {:induction false} SentCount(es: seq<Demonstration>)
    ensures |SentOf(es)| == SentFrom(es)
  {
    if es != [] {
      SentCount(es[1..]);
    }
  }

  lemma {:induction false} SentSplit(es: seq<Demonstration>, i: nat)
    requires i <= |es|
    ensures SentOf(es) == SentOf(es[..i]) + SentOf(es[i..])
  {
    if i == 0 {
      assert es[0..] == es;
    } else {
      SentSplit(es[1..], i - 1);
      assert es[..i][1..] == es[1..][..i - 1] && es[i..] == es[1..][i - 1..];
    }
  }

  /** Of the sent, the replaced are those before the last seven. */
  lemma ReplacedTold(es: seq<Demonstration>, i: nat)
    requires DistinctIds(es) && i < |es|
    ensures es[i].id in Replaced(es) <==> !AmongLastSent(es, i)
  {
    var sent := SentOf(es);
    var n := if |sent| > LIMIT - 1 then |sent| - (LIMIT - 1) else 0;
    SentCount(es[i + 1..]);
    SentCount(es[i..]);
    SentCount(es);
    SentSplit(es, i);
    assert es[i..][1..] == es[i + 1..];
    var at := |SentOf(es[..i])|;
    if es[i].Sent? {
      assert sent[at] == SentOf(es[i..])[0] == es[i];
      forall k | 0 <= k < |sent| && sent[k].id == es[i].id ensures k == at {
        SentPlaces(es, k, at);
      }
      if at < n {
        assert sent[..n][at] == es[i];
      }
      if es[i].id in IdSet(sent[..n]) {
        var f :| f in sent[..n] && f.id == es[i].id;
        var k :| 0 <= k < n && sent[..n][k] == f;
        assert sent[k].id == es[i].id;
      }
      UnsentApart(es, i);
    } else {
      assert es[i] in es;
    }
  }

  lemma UnsentApart(es: seq<Demonstration>, i: nat)
    requires DistinctIds(es) && i < |es| && es[i].Sent?
    ensures es[i].id !in UnsentIds(es)
  {
    forall e | e in es && !e.Sent? ensures e.id != es[i].id {
      var k :| 0 <= k < |es| && es[k] == e;
    }
  }

  lemma {:induction false} SentDistinct(es: seq<Demonstration>)
    requires DistinctIds(es)
    ensures DistinctIds(SentOf(es))
  {
    if es != [] {
      TailApart(es);
      SentDistinct(es[1..]);
      SentOfWithin(es[1..]);
      HeadApart(if es[0].Sent? then [es[0]] else [], SentOf(es[1..]));
    }
  }

  lemma SentPlaces(es: seq<Demonstration>, k: nat, at: nat)
    requires DistinctIds(es) && k < |SentOf(es)| && at < |SentOf(es)| && SentOf(es)[k].id == SentOf(es)[at].id
    ensures k == at
  {
    SentDistinct(es);
  }

  lemma {:induction false} WithoutIsLastSent(es: seq<Demonstration>, ids: set<string>, i: nat)
    requires i <= |es| && forall k :: i <= k < |es| ==> (es[k].id in ids <==> !AmongLastSent(es, k))
    ensures Without(es[i..], ids) == LastSent(es, i)
    decreases |es| - i
  {
    if i < |es| {
      WithoutIsLastSent(es, ids, i + 1);
      assert es[i..][1..] == es[i + 1..];
    }
  }

  /** A start gets onto the record: its person holds control, it is not on it yet, and every
      file that makes way for it could be removed. */
  predicate ReachesRecord(es: seq<Demonstration>, e: Event, storing: bool)
    requires e.Start?
  {
    && storing && e.control.Some? && e.control.value.expiresAt > e.now
    && (forall k :: 0 <= k < |es| ==> es[k].id != e.id)
    && (e.removed || forall k :: 0 <= k < |es| && !AmongLastSent(es, k) ==> es[k].Recording?)
  }

  lemma HeldTold(es: seq<Demonstration>, id: string)
    ensures id in IdSet(es) <==> exists k :: 0 <= k < |es| && es[k].id == id
  {
    if k :| 0 <= k < |es| && es[k].id == id {
      assert es[k] in es;
    }
  }

  lemma FilesTold(es: seq<Demonstration>)
    requires DistinctIds(es)
    ensures (exists f :: f in es && f.id in Replaced(es) && !f.Recording?) <==>
      exists k :: 0 <= k < |es| && !AmongLastSent(es, k) && !es[k].Recording?
  {
    forall k | 0 <= k < |es| ensures es[k].id in Replaced(es) <==> !AmongLastSent(es, k) {
      ReplacedTold(es, k);
    }
    if f :| f in es && f.id in Replaced(es) && !f.Recording? {
      var k :| 0 <= k < |es| && es[k] == f;
    }
    if k :| 0 <= k < |es| && !AmongLastSent(es, k) && !es[k].Recording? {
      assert es[k] in es;
    }
  }

  lemma WithoutReplaced(es: seq<Demonstration>)
    requires DistinctIds(es)
    ensures Without(es, Replaced(es)) == LastSent(es, 0)
  {
    forall k | 0 <= k < |es| ensures es[k].id in Replaced(es) <==> !AmongLastSent(es, k) {
      ReplacedTold(es, k);
    }
    WithoutIsLastSent(es, Replaced(es), 0);
    assert es[0..] == es;
  }

  /** A start that gets onto the record keeps of it exactly the sent with fewer than seven sent
      after them, in their places, and puts its own recording last unless it was refused; any
      other leaves the record as it was. */
  lemma StartKeeps(es: seq<Demonstration>, e: Event, storing: bool)
    requires DistinctIds(es) && e.Start?
    ensures After(es, e, storing) ==
      if !ReachesRecord(es, e, storing) then es
      else if e.answer.Refused? then LastSent(es, 0)
      else LastSent(es, 0) + [Recording(e.id, e.control.value.ownerId, e.now, e.now + 600_000, None, 0)]
  {
    HeldTold(es, e.id);
    FilesTold(es);
    WithoutReplaced(es);
    assert LastSent(es, 0) + [] == LastSent(es, 0);
  }

  // ---- what the Computer agreed to -----------------------------------------------------

  function RecordingIds(es: seq<Demonstration>): set<string> {
    set e | e in es && e.Recording? :: e.id
  }

  /** The start gets onto the record and is cut short there. */
  predicate EvictsStart(es: seq<Demonstration>, e: Event, storing: bool) {
    e.Start? && e.answer.Evicted? && After(es, e, storing) != es
  }

  /** The ids whose latest recording the Computer agreed to, after one more event. */
  function AgreedNext(agreed: set<string>, es: seq<Demonstration>, e: Event, storing: bool): set<string> {
    if !e.Start? || After(es, e, storing) == es then agreed
    else if e.answer.Agreed? then agreed + {e.id}
    else if e.answer.Evicted? then agreed - {e.id}
    else agreed
  }

  /** And over a run; the recordings it begins with count as agreed to. */
  function AgreedIds(es: seq<Demonstration>, events: seq<Event>, storing: bool): set<string>
    decreases |events|
  {
    if events == [] then RecordingIds(es)
    else
      var before, last := events[..|events| - 1], events[|events| - 1];
      AgreedNext(AgreedIds(es, before, storing), RunAll(es, before, storing), last, storing)
  }

  /** Every recording on the record after the run is one the Computer agreed to. */
  predicate AllAgreed(es: seq<Demonstration>, events: seq<Event>, storing: bool) {
    RecordingIds(RunAll(es, events, storing)) <= AgreedIds(es, events, storing)
  }

  lemma {:induction false} RunSplit(es: seq<Demonstration>, events: seq<Event>, last: Event, storing: bool)
    ensures RunAll(es, events + [last], storing) == After(RunAll(es, events, storing), last, storing)
    decreases |events|
  {
    if events == [] {
      assert ([] + [last])[1..] == [];
    } else {
      assert (events + [last])[1..] == events[1..] + [last];
      RunSplit(After(es, events[0], storing), events[1..], last, storing);
    }
  }

  lemma RecordingsJoin(a: seq<Demonstration>, b: seq<Demonstration>)
    ensures RecordingIds(a + b) == RecordingIds(a) + RecordingIds(b)
  {
    forall e | e in a + b ensures e in a || e in b {
    }
    forall e | e in a || e in b ensures e in a + b {
    }
  }

  lemma OneRecording(e: Demonstration, port: Port, now: int, storing: bool)
    ensures Processed(e, port, now, storing).Some? ==>
      RecordingIds([Processed(e, port, now, storing).value]) <= RecordingIds([e])
  {
    assert e in [e];
  }

  lemma {:induction false} AlarmRecordings(es: seq<Demonstration>, control: Option<Control>, ports: string -> Port,
                                           now: int, storing: bool)
    ensures RecordingIds(AfterAlarm(es, control, ports, now, storing)) <= RecordingIds(es)
    decreases |es|
  {
    if es != [] {
      var front, last := es[..|es| - 1], es[|es| - 1];
      assert es == front + [last];
      AlarmRecordings(front, control, ports, now, storing);
      RecordingsJoin(front, [last]);
      OneRecording(last, ports(last.id), now, storing);
      var done := AfterAlarm(front, control, ports, now, storing);
      RecordingsJoin(done, [last]);
      var next := Processed(last, ports(last.id), now, storing);
      if next.Some? {
        RecordingsJoin(done, [next.value]);
      }
    }
  }

  lemma ReplaceRecordings(es: seq<Demonstration>, id: string, next: Option<Demonstration>)
    requires next.Some? ==> next.value.id == id && !next.value.Recording?
    ensures RecordingIds(Replace(es, id, next)) <= RecordingIds(es)
  {
    ReplaceElems(es, id, next);
  }

  lemma CollectingRecordings(es: seq<Demonstration>, found: Option<Demonstration>, c: Collection, storing: bool)
    requires found.Some? ==> found.value.Recording?
    ensures RecordingIds(Collecting(es, found, c, storing)) <= RecordingIds(es)
  {
    if found.Some? && Collected(found.value, Port(Some(false), c, true), storing).Some? {
      ReplaceRecordings(es, found.value.id, Collected(found.value, Port(Some(false), c, true), storing).value);
    }
  }

  lemma ReachedRecordings(es: seq<Demonstration>, control: Option<Control>, ports: string -> Port, now: int,
                          storing: bool, reach: nat)
    ensures RecordingIds(AlarmReached(es, control, ports, now, storing, reach)) <= RecordingIds(es)
  {
    var n := if reach < |es| then reach else |es|;
    AlarmRecordings(es[..n], control, ports, now, storing);
    RecordingsJoin(es[..n], es[n..]);
    RecordingsJoin(AfterAlarm(es[..n], control, ports, now, storing), es[n..]);
    assert es == es[..n] + es[n..];
  }

  lemma SentRecordings(es: seq<Demonstration>, uploadIds: set<string>)
    ensures RecordingIds(MarkSent(es, uploadIds)) <= RecordingIds(es)
  {
    MarkSentShape(es, uploadIds);
    var r := MarkSent(es, uploadIds);
    forall e | e in r && e.Recording? ensures e in es {
      var i :| 0 <= i < |r| && r[i] == e;
      assert es[i] in es;
    }
  }

  /** No event but a start puts a recording on the record. */
  lemma OthersRecordNothing(es: seq<Demonstration>, e: Event, storing: bool)
    requires !e.Start?
    ensures RecordingIds(After(es, e, storing)) <= RecordingIds(es)
  {
    match e
    case Stop(c) => CollectingRecordings(es, Last(es, IsRecording), c, storing);
    case Release(ownerId, c) => CollectingRecordings(es, First(es, OwnedBy(ownerId)), c, storing);
    case Discard(removed) => ForgettingRecordings(es, Last(es, IsUnsent), removed, storing);
    case Delete(id, removed) => ForgettingRecordings(es, First(es, Named(id)), removed, storing);
    case NoteSent(uploadIds) => SentRecordings(es, uploadIds);
    case Alarm(control, ports, now, reach) => ReachedRecordings(es, control, ports, now, storing, reach);
  }

  lemma ForgettingRecordings(es: seq<Demonstration>, found: Option<Demonstration>, removed: bool, storing: bool)
    ensures RecordingIds(Forgetting(es, found, removed, storing)) <= RecordingIds(es)
  {
    if found.Some? {
      ReplaceRecordings(es, found.value.id, None);
    }
  }

  /** A start that changes the record leaves its own recording there, and no other new one,
      unless the Computer refused. */
  lemma StartRecords(es: seq<Demonstration>, e: Event, storing: bool)
    requires e.Start? && After(es, e, storing) != es
    ensures e.id !in IdSet(es)
    ensures RecordingIds(After(es, e, storing)) <= RecordingIds(es) + if e.answer.Refused? then {} else {e.id}
    ensures !e.answer.Refused? ==> e.id in RecordingIds(After(es, e, storing))
  {
    StartedRecords(es, e, storing);
    WithoutShape(es, Replaced(es));
    var after := After(es, e, storing);
    if !e.answer.Refused? {
      assert after[|after| - 1] == NewRecording(e.id, e.control.value, e.now);
      assert after[|after| - 1] in after;
    }
  }

  /** One event keeps every recording agreed to exactly when it is no start cut short. */
  lemma StepAgreed(agreed: set<string>, es: seq<Demonstration>, e: Event, storing: bool)
    requires RecordingIds(es) <= agreed
    ensures RecordingIds(After(es, e, storing)) <= AgreedNext(agreed, es, e, storing) <==> !EvictsStart(es, e, storing)
  {
    if !e.Start? {
      OthersRecordNothing(es, e, storing);
    } else if After(es, e, storing) != es {
      StartRecords(es, e, storing);
      assert e.id !in RecordingIds(es);
    }
  }

  /** No start of the run is cut short on the record. */
  predicate NoStartEvicted(es: seq<Demonstration>, events: seq<Event>, storing: bool) {
    forall n :: 0 <= n < |events| ==> !EvictsStart(RunAll(es, events[..n], storing), events[n], storing)
  }

  lemma {:induction false} StaysAgreed(es: seq<Demonstration>, events: seq<Event>, storing: bool)
    requires NoStartEvicted(es, events, storing)
    ensures AllAgreed(es, events, storing)
    decreases |events|
  {
    if events != [] {
      var before, last := events[..|events| - 1], events[|events| - 1];
      assert forall n :: 0 <= n < |before| ==> before[..n] == events[..n];
      StaysAgreed(es, before, storing);
      StepAgreed(AgreedIds(es, before, storing), RunAll(es, before, storing), last, storing);
      RunSplit(es, before, last, storing);
      assert before + [last] == events;
    }
  }

  /** Whatever commands, alarms and evictions come: at every point of a run each recording on
      the record is one the Computer agreed to, if and only if no start is cut short by an
      eviction once it is recorded. */
  lemma AgreedExactly(es: seq<Demonstration>, events: seq<Event>, storing: bool)
    ensures (forall n :: 0 <= n <= |events| ==> AllAgreed(es, events[..n], storing)) <==>
            NoStartEvicted(es, events, storing)
  {
    if forall n :: 0 <= n <= |events| ==> AllAgreed(es, events[..n], storing) {
      forall n | 0 <= n < |events|
        ensures !EvictsStart(RunAll(es, events[..n], storing), events[n], storing)
      {
        var before, after := events[..n], events[..n + 1];
        assert after == before + [events[n]] && after[..|after| - 1] == before;
        assert AllAgreed(es, before, storing) && AllAgreed(es, after, storing);
        RunSplit(es, before, events[n], storing);
        StepAgreed(AgreedIds(es, before, storing), RunAll(es, before, storing), events[n], storing);
      }
    }
    if NoStartEvicted(es, events, storing) {
      forall n | 0 <= n <= |events|
        ensures AllAgreed(es, events[..n], storing)
      {
        assert forall m :: 0 <= m < n ==> events[..n][..m] == events[..m];
        StaysAgreed(es, events[..n], storing);
      }
    }
  }

  /** The Bot's demonstrations record. A command answers whether it was applied. */
  class ComputerDemonstrations {
    var entries: seq<Demonstration>
    const storing: bool

    constructor (storing: bool)
      ensures this.storing == storing && entries == [] && Bounded(entries)
    {
      this.storing := storing;
      entries := [];
    }

    /** Starts recording, replacing whatever was never sent. `removed`: every replaced file
        could be deleted; `answer` is the Computer's. */
    method Start(id: string, control: Option<Control>, now: int, removed: bool, answer: Answer) returns (applied: bool)
      requires Bounded(entries)
      modifies this
      ensures Bounded(entries)
      ensures entries == After(old(entries), Event.Start(id, control, now, removed, answer), storing)
      ensures applied <==>
        && storing && control.Some? && control.value.expiresAt > now
        && (id in IdSet(old(entries)) || (answer.Agreed? && id in IdSet(entries)))
    {
      ghost var event := Event.Start(id, control, now, removed, answer);
      StartedBounded(entries, event, storing);
      if !storing { return false; }
      if control == None || control.value.expiresAt <= now { return false; }
      if exists e :: e in entries && e.id == id { return true; }
      Unheld(entries, id);
      var replaced := Replaced(entries);
      if !removed && exists e :: e in entries && e.id in replaced && !e.Recording? { return false; }
      StartedRecords(entries, event, storing);
      ghost var after := Started(entries, event, storing);
      var e := NewRecording(id, control.value, now);
      entries := Without(entries, replaced) + [e];
      applied := answer.Agreed?;
      if answer.Refused? {
        UndoStart(old(entries), e);
        entries := Without(entries, {id});
      }
      assert entries == after;
    }

    /** Stops a recording and keeps what it captured. `None` leaves it as it was: the Computer
        threw, or the store would not keep the files; otherwise whether anything was kept. */
    method Collect(e: Demonstration, c: Collection) returns (kept: Option<bool>)
      requires e.Recording?
      modifies this
      ensures old(Bounded(entries) && e in entries) ==> Bounded(entries)
      ensures
        var next := Collected(e, Port(Some(false), c, true), storing);
        && (next == None <==> kept == None)
        && (kept == None ==> entries == old(entries))
        && (kept.Some? ==> entries == Replace(old(entries), e.id, next.value) && (kept.value <==> next.value.Some?))
    {
      if c.CollectThrew? { return None; }
      if c.steps == 0 || !storing {
        WithoutIsReplace(entries, e.id);
        if Bounded(entries) { WithoutBounded(entries, {e.id}); }
        entries := Without(entries, {e.id});
        return Some(false);
      }
      if c.uploads == None { return None; }
      var next := Kept(e, c.steps, c.uploads.value, c.at);
      if Bounded(entries) && e in entries { ReplaceBounded(entries, e, Some(next)); }
      entries := Replace(entries, e.id, Some(next));
      kept := Some(true);
    }

    /** Takes `e` off the record; once it has files, only when they could be removed first. */
    method Forget(e: Demonstration, removed: bool) returns (gone: bool)
      modifies this
      ensures old(Bounded(entries)) ==> Bounded(entries)
      ensures gone <==> e.Recording? || !storing || removed
      ensures entries == if gone then Replace(old(entries), e.id, None) else old(entries)
    {
      if !e.Recording? && storing && !removed { return false; }
      if Bounded(entries) { WithoutBounded(entries, {e.id}); }
      WithoutIsReplace(entries, e.id);
      entries := Without(entries, {e.id});
      gone := true;
    }

    /** The newest demonstration that `p` picks. */
    method FindLast(p: Demonstration -> bool) returns (found: Option<Demonstration>)
      ensures found == Last(entries, p)
    {
      var i := |entries|;
      assert entries[..i] == entries;
      while i > 0
        invariant 0 <= i <= |entries|
        invariant Last(entries, p) == Last(entries[..i], p)
      {
        i := i - 1;
        assert entries[..i + 1][..i] == entries[..i];
        if p(entries[i]) { return Some(entries[i]); }
      }
      found := None;
    }

    /** The oldest demonstration that `p` picks. */
    method FindFirst(p: Demonstration -> bool) returns (found: Option<Demonstration>)
      ensures found == First(entries, p)
    {
      assert entries[0..] == entries;
      for i := 0 to |entries|
        invariant First(entries, p) == First(entries[i..], p)
      {
        assert entries[i..][1..] == entries[i + 1..];
        if p(entries[i]) { return Some(entries[i]); }
      }
      found := None;
    }

    /** Collects the recording there is; stopping one that kept nothing is not applied. */
    method Stop(c: Collection) returns (applied: bool)
      requires Bounded(entries)
      modifies this
      ensures Bounded(entries) && entries == After(old(entries), Event.Stop(c), storing)
      ensures applied ==> forall e :: e in old(entries) && e.Recording? ==> e !in entries
      ensures applied <==>
        || (forall e :: e in old(entries) ==> !e.Recording?)
        || (c.Handed? && c.steps > 0 && storing && c.uploads.Some?)
    {
      var recording := FindLast(IsRecording);
      if recording == None { return true; }
      var e := recording.value;
      OneUnsent(entries, e);
      var kept := Collect(e, c);
      if kept.Some? {
        ReplaceShape(old(entries), e.id, Collected(e, Port(Some(false), c, true), storing).value);
      }
      applied := kept == Some(true);
    }

    /** Letting go of control collects what its holder records; failing to is the alarm's to mend. */
    method Release(ownerId: string, c: Collection)
      requires Bounded(entries)
      modifies this
      ensures Bounded(entries) && entries == After(old(entries), Event.Release(ownerId, c), storing)
    {
      var recording := FindFirst(OwnedBy(ownerId));
      if recording == None { return; }
      var _ := Collect(recording.value, c);
    }

    method Discard(removed: bool) returns (applied: bool)
      requires Bounded(entries)
      modifies this
      ensures Bounded(entries) && entries == After(old(entries), Event.Discard(removed), storing)
      ensures applied ==> Unsent(entries) == 0
      ensures !applied ==> entries == old(entries)
    {
      var found := FindLast(IsUnsent);
      if found == None {
        NoneUnsent(entries);
        return true;
      }
      ForgottenLeavesSent(entries, found.value);
      applied := Forget(found.value, removed);
    }

    /** Deletes a demonstration the Bot was sent, and no other. */
    method Delete(id: string, removed: bool) returns (deleted: bool)
      requires Bounded(entries)
      modifies this
      ensures Bounded(entries) && entries == After(old(entries), Event.Delete(id, removed), storing)
      ensures deleted ==> forall e :: e in entries ==> e.id != id
    {
      var found := FindFirst(Named(id));
      if found == None || !found.value.Sent? { return false; }
      deleted := Forget(found.value, removed);
      if deleted {
        ReplaceElems(old(entries), id, None);
      }
    }

    method NoteSent(uploadIds: set<string>)
      requires Bounded(entries)
      modifies this
      ensures Bounded(entries) && entries == After(old(entries), Event.NoteSent(uploadIds), storing)
    {
      MarkSentBounded(entries, uploadIds);
      entries := MarkSent(entries, uploadIds);
    }

    /** One alarm: every demonstration whose deadline has come is collected, let go or put
        off, up to an eviction if one comes. */
    method Settle(control: Option<Control>, ports: string -> Port, now: int, reach: nat)
      requires Bounded(entries) && PortsLater(ports, now)
      modifies this
      ensures Bounded(entries)
      ensures entries == After(old(entries), Alarm(control, ports, now, reach), storing)
      ensures reach >= |old(entries)| ==> forall e :: e in entries ==> Deadline(e, control) > now
    {
      ghost var before := entries;
      SettleSnapshot(entries, control, ports, now, reach);
      AlarmReachedBounded(before, control, ports, now, storing, reach);
      if reach >= |before| {
        assert before[..|before|] == before && before[|before|..] == [];
        NoDeadlinePast(before, control, ports, now, storing);
      }
    }

    method SettleSnapshot(snapshot: seq<Demonstration>, control: Option<Control>, ports: string -> Port, now: int,
                          reach: nat)
      requires entries == snapshot && DistinctIds(snapshot)
      modifies this
      ensures entries == AlarmReached(snapshot, control, ports, now, storing, reach)
    {
      assert [] + snapshot == snapshot;
      for i := 0 to |snapshot|
        invariant i <= reach
        invariant entries == AfterAlarm(snapshot[..i], control, ports, now, storing) + snapshot[i..]
      {
        if i == reach { return; }
        SettleStep(snapshot, control, ports, now, storing, i);
        if Deadline(snapshot[i], control) > now { continue; }
        SettleOne(snapshot[i], ports(snapshot[i].id), now);
      }
    }

    /** One due demonstration: collected or forgotten, or put off when that failed. */
    method SettleOne(e: Demonstration, port: Port, now: int)
      modifies this
      ensures entries == Replace(old(entries), e.id, Processed(e, port, now, storing))
    {
      var settled := false;
      if e.Recording? {
        if port.deleted == Some(true) {
          settled := Forget(e, port.removed);
        } else if port.deleted == Some(false) {
          var kept := Collect(e, port.collection);
          settled := kept.Some?;
        }
      } else {
        settled := Forget(e, port.removed);
      }
      assert entries == if settled then Replace(old(entries), e.id, Processed(e, port, now, storing)) else old(entries);
      if settled { return; }
      if !e.Recording? {
        entries := Replace(entries, e.id, Some(e.(expiresAt := now + RETRY_MS)));
      } else if e.attempts + 1 >= ATTEMPTS {
        entries := Replace(entries, e.id, None);
      } else {
        entries := Replace(entries, e.id, Some(e.(attempts := e.attempts + 1, retryAt := Some(now + RETRY_MS))));
      }
    }
  }

  lemma OthersApart(es: seq<Demonstration>, control: Option<Control>, ports: string -> Port, now: int, storing: bool,
                    i: nat)
    requires DistinctIds(es) && i < |es|
    ensures forall f :: f in AfterAlarm(es[..i], control, ports, now, storing) ==> f.id != es[i].id
    ensures forall f :: f in es[i + 1..] ==> f.id != es[i].id
  {
    AlarmIds(es[..i], control, ports, now, storing);
    forall f | f in AfterAlarm(es[..i], control, ports, now, storing) ensures f.id != es[i].id {
      var h :| h in es[..i] && h.id == f.id;
      var k :| 0 <= k < i && es[..i][k] == h;
      assert es[k].id != es[i].id;
    }
    forall f | f in es[i + 1..] ensures f.id != es[i].id {
      var k :| 0 <= k < |es[i + 1..]| && es[i + 1..][k] == f;
      assert es[i].id != es[i + 1 + k].id;
    }
  }

  lemma {:induction false} NoneUnsent(es: seq<Demonstration>)
    requires forall e :: e in es ==> e.Sent?
    ensures Unsent(es) == 0
  {
    if es != [] {
      assert es[0] in es;
      NoneUnsent(es[1..]);
    }
  }

  /** The one unsent demonstration is the only one. */
  lemma {:induction false} OneUnsent(es: seq<Demonstration>, e: Demonstration)
    requires Unsent(es) <= 1 && e in es && !e.Sent?
    ensures forall f :: f in es && !f.Sent? ==> f == e
  {
    if es[0].Sent? {
      OneUnsent(es[1..], e);
    } else {
      if exists f :: f in es[1..] && !f.Sent? {
        var f :| f in es[1..] && !f.Sent?;
        SomeUnsent(es[1..], f);
      }
    }
  }

  lemma ForgottenLeavesSent(es: seq<Demonstration>, e: Demonstration)
    requires Bounded(es) && e in es && !e.Sent?
    ensures Unsent(Replace(es, e.id, None)) == 0
  {
    OneUnsent(es, e);
    ReplaceElems(es, e.id, None);
    NoneUnsent(Replace(es, e.id, None));
  }

  lemma {:induction false} SomeUnsent(es: seq<Demonstration>, e: Demonstration)
    requires e in es && !e.Sent?
    ensures Unsent(es) >= 1
  {
    if es[0] != e {
      SomeUnsent(es[1..], e);
    }
  }
}
