/** A Bot's background-process records: a cap, kept by forgetting finished records, and the
    rule that says what a record's process has come to. */
module ProcessStore {
  import opened Sequences
  import opened Wrappers

  const LIMIT := 100

  datatype Status = Starting | Running | Exited | Unknown

  /** A stored value: a record the codec accepts, or one it refuses. Ids stand in the order
      storage lists their keys in; start times stand in the order of their text. */
  datatype Row = Sound(status: Status, startedAt: nat, generation: nat, exitCode: Option<int>) | Broken

  datatype Outcome = Recorded | OverLimit | Refused

  /** What a row's process has come to leaves nothing to reconcile. */
  predicate Prunable(r: Row) {
    r == Broken || r.status == Exited || r.status == Unknown
  }

  /** When it started; a refused row sorts before any. */
  function Age(r: Row): int {
    if r == Broken then -1 else r.startedAt
  }

  /** `k` goes before `j`: older, or as old and listed first. */
  predicate Before(store: map<nat, Row>, k: nat, j: nat)
    requires k in store && j in store
  {
    Age(store[k]) < Age(store[j]) || (Age(store[k]) == Age(store[j]) && k < j)
  }

  predicate Ascending(keys: seq<nat>) {
    forall i, j :: 0 <= i < j < |keys| ==> keys[i] < keys[j]
  }

  /** The keys of a listing, ascending. */
  method ListKeys(store: map<nat, Row>) returns (keys: seq<nat>)
    ensures Ascending(keys) && forall k :: k in keys <==> k in store
  {
    keys := [];
    var left := store.Keys;
    while left != {}
      invariant left <= store.Keys
      invariant Ascending(keys) && forall k :: k in keys <==> k in store && k !in left
      invariant forall k, l :: k in keys && l in left ==> k < l
      decreases |left|
    {
      var least :| least in left;
      var rest := left - {least};
      while rest != {}
        invariant rest <= left && least in left
        invariant forall l :: l in left && l !in rest ==> least <= l
        decreases |rest|
      {
        var k :| k in rest;
        if k < least { least := k; }
        rest := rest - {k};
      }
      assert forall i :: 0 <= i < |keys| ==> keys[i] in keys;
      keys := keys + [least];
      left := left - {least};
    }
  }

  /** A sorted list of prunable rows, oldest first and in listing order among equals. */
  ghost predicate OldestFirst(store: map<nat, Row>, keys: seq<nat>) {
    && (forall i :: 0 <= i < |keys| ==> keys[i] in store && Prunable(store[keys[i]]))
    && forall i, j :: 0 <= i < j < |keys| ==> Before(store, keys[i], keys[j])
  }

  function Insert(store: map<nat, Row>, sorted: seq<nat>, key: nat): (r: seq<nat>)
    requires key in store && forall k :: k in sorted ==> k in store
    ensures forall k :: k in r <==> k in sorted || k == key
  {
    if sorted == [] then [key]
    else if Age(store[sorted[|sorted| - 1]]) <= Age(store[key]) then sorted + [key]
    else Insert(store, sorted[..|sorted| - 1], key) + [sorted[|sorted| - 1]]
  }

  lemma {:induction false} InsertSorts(store: map<nat, Row>, sorted: seq<nat>, key: nat)
    requires OldestFirst(store, sorted) && key in store && Prunable(store[key])
    requires forall k :: k in sorted ==> k < key
    ensures OldestFirst(store, Insert(store, sorted, key))
  {
    if sorted != [] && !(Age(store[sorted[|sorted| - 1]]) <= Age(store[key])) {
      var n := |sorted| - 1;
      assert forall k :: k in sorted[..n] ==> k in sorted;
      InsertSorts(store, sorted[..n], key);
      var front := Insert(store, sorted[..n], key);
      var r := front + [sorted[n]];
      forall i, j | 0 <= i < j < |r|
        ensures Before(store, r[i], r[j])
      {
        assert r[i] in front;
        if j == |front| && r[i] != key {
          assert r[i] in sorted[..n];
          var m :| 0 <= m < n && sorted[m] == r[i];
        }
      }
    } else if sorted != [] {
      var n := |sorted| - 1;
      forall i | 0 <= i < |sorted|
        ensures Before(store, sorted[i], key)
      {
        assert sorted[i] in sorted;
        if i < n {
          assert Before(store, sorted[i], sorted[n]);
        }
      }
    }
  }

  /** A listing: the rows of the first keys, one more of them than the cap. */
  ghost predicate IsListing(rows: map<nat, Row>, held: map<nat, Row>) {
    && held.Keys <= rows.Keys && (forall k :: k in held ==> held[k] == rows[k])
    && |held| == (if |rows| <= LIMIT then |rows| else LIMIT + 1)
    && forall k, l :: k in held && l in rows && l !in held ==> k < l
  }

  /** The rows that go to make room for `incoming`: prunable ones, the oldest, and as many as
      bring the listing under the cap, or all there are. */
  ghost predicate MakesRoom(held: map<nat, Row>, incoming: nat, gone: set<nat>) {
    && gone <= held.Keys && incoming !in gone
    && (forall k :: k in gone ==> Prunable(held[k]))
    && (forall k, j :: k in gone && j in held && j !in gone && j != incoming && Prunable(held[j]) ==>
          Before(held, k, j))
    && if |held| < LIMIT then gone == {}
       else |held| - |gone| == LIMIT - 1 || (|held| - |gone| >= LIMIT && NoneLeft(held, incoming, gone))
  }

  ghost predicate NoneLeft(held: map<nat, Row>, incoming: nat, gone: set<nat>) {
    forall j :: j in held && j != incoming && Prunable(held[j]) ==> j in gone
  }

  lemma {:induction false} AscendingCount(keys: seq<nat>)
    requires Ascending(keys)
    ensures |Elems(keys)| == |keys|
  {
    if keys != [] {
      var front, last := keys[..|keys| - 1], keys[|keys| - 1];
      AscendingCount(front);
      assert keys == front + [last];
      assert Elems(keys) == Elems(front) + {last};
    }
  }

  lemma FrontLower(keys: seq<nat>, n: nat, k: nat, l: nat)
    requires Ascending(keys) && n <= |keys| && k in keys[..n] && l in keys && l !in keys[..n]
    ensures k < l
  {
    var i :| 0 <= i < n && keys[..n][i] == k;
    assert keys[..n] + keys[n..] == keys;
    var j :| 0 <= j < |keys| - n && keys[n..][j] == l;
  }

  lemma ListingIs(rows: map<nat, Row>, keys: seq<nat>, n: nat, held: map<nat, Row>)
    requires Ascending(keys) && Elems(keys) == rows.Keys && n == if |keys| <= LIMIT then |keys| else LIMIT + 1
    requires held.Keys == Elems(keys[..n]) && forall k :: k in held ==> k in rows && held[k] == rows[k]
    ensures IsListing(rows, held)
  {
    AscendingCount(keys);
    AscendingCount(keys[..n]);
    assert |rows.Keys| == |rows| && |held.Keys| == |held|;
    forall k, l | k in held && l in rows && l !in held ensures k < l {
      assert k in Elems(keys[..n]) && l in Elems(keys) && l !in Elems(keys[..n]);
      FrontLower(keys, n, k, l);
    }
  }

  class ComputerProcessStore {
    var rows: map<nat, Row>

    constructor ()
      ensures rows == map[]
    {
      rows := map[];
    }

    method List() returns (held: map<nat, Row>)
      ensures IsListing(rows, held)
    {
      var keys := ListKeys(rows);
      var n := if |keys| <= LIMIT then |keys| else LIMIT + 1;
      assert forall k :: k in keys[..n] ==> k in keys;
      held := map k | k in keys[..n] :: rows[k];
      ListingIs(rows, keys, n, held);
    }

    /** Finished rows go, oldest first, until there is room. */
    method Prune(held: map<nat, Row>, incoming: nat) returns (remaining: map<nat, Row>, ghost gone: set<nat>)
      requires held.Keys <= rows.Keys && forall k :: k in held ==> held[k] == rows[k]
      modifies this
      ensures MakesRoom(held, incoming, gone) && remaining == held - gone && rows == old(rows) - gone
    {
      var terminal := Terminal(held, incoming);
      remaining, gone := held, {};
      TakenNone(held);
      TakenNone(rows);
      ghost var was := rows;
      for i := 0 to |terminal|
        invariant Gone(held, terminal, i, gone)
        invariant remaining == held - gone && |remaining| == |held| - i
        invariant i > 0 ==> |remaining| >= LIMIT - 1
        invariant rows == was - gone
      {
        if |remaining| < LIMIT {
          GoneMakeRoom(held, incoming, terminal, i, gone);
          return;
        }
        OneMoreGone(held, terminal, i, gone);
        TakenMore(held, gone, terminal[i]);
        TakenMore(was, gone, terminal[i]);
        rows := rows - {terminal[i]};
        remaining := remaining - {terminal[i]};
        gone := gone + {terminal[i]};
      }
      GoneMakeRoom(held, incoming, terminal, |terminal|, gone);
    }

    /** Writes the intent to launch. */
    method Record(processId: nat, intent: Row) returns (outcome: Outcome, ghost held: map<nat, Row>,
                  ghost gone: set<nat>)
      modifies this
      ensures outcome == Refused <==> intent == Broken
      ensures IsListing(old(rows), held)
      ensures if intent != Broken && |held| >= LIMIT
        && processId !in held then MakesRoom(held, processId, gone) else gone == {}
      ensures outcome == OverLimit <==> intent != Broken && processId !in held && |held| - |gone| >= LIMIT
      ensures rows == if outcome == Recorded then (old(rows) - gone)[processId := intent] else old(rows) - gone
      ensures |rows| <= LIMIT || |rows| <= |old(rows)|
      ensures |old(rows)| <= LIMIT && outcome != Recorded ==> rows == old(rows)
    {
      var listed := List();
      held, gone := listed, {};
      TakenNone(rows);
      TakenNone(listed);
      if intent == Broken { return Refused, held, gone; }
      var remaining := listed;
      if |listed| >= LIMIT && processId !in listed {
        remaining, gone := Prune(listed, processId);
      }
      SizeLeft(listed, gone);
      if |remaining| >= LIMIT && processId !in remaining { return OverLimit, held, gone; }
      RecordFits(rows, old(rows), listed, gone, processId, intent);
      rows := rows[processId := intent];
      outcome := Recorded;
    }

    method Delete(processId: nat)
      modifies this
      ensures rows == old(rows) - {processId}
    {
      rows := rows - {processId};
    }

    /** Replaces one record, held or not: the cap is kept exactly when it was held or there was room. */
    method Update(processId: nat, next: Row) returns (ok: bool)
      modifies this
      ensures ok <==> next != Broken
      ensures rows == if ok then old(rows)[processId := next] else old(rows)
      ensures |rows| <= LIMIT <==> |old(rows)| < LIMIT || (|old(rows)| == LIMIT && (!ok || processId in old(rows)))
    {
      if next == Broken { return false; }
      GrowsByOne(rows, processId, next);
      rows := rows[processId := next];
      ok := true;
    }
  }

  /** The prunable rows but the incoming one, sorted. */
  method Terminal(held: map<nat, Row>, incoming: nat) returns (terminal: seq<nat>)
    ensures OldestFirst(held, terminal)
    ensures forall k :: k in terminal <==> k in held && k != incoming && Prunable(held[k])
  {
    var keys := ListKeys(held);
    terminal := [];
    for i := 0 to |keys|
      invariant OldestFirst(held, terminal)
      invariant forall k :: k in terminal <==> k in keys[..i] && k != incoming && Prunable(held[k])
    {
      var key := keys[i];
      assert keys[..i + 1] == keys[..i] + [key] && key in keys;
      if key != incoming && Prunable(held[key]) {
        assert forall k :: k in terminal ==> k < key;
        InsertSorts(held, terminal, key);
        terminal := Insert(held, terminal, key);
      }
    }
    assert keys[..|keys|] == keys;
  }

  /** The first `n` of the sorted rows. */
  ghost predicate Gone(held: map<nat, Row>, terminal: seq<nat>, n: nat, gone: set<nat>) {
    && n <= |terminal| && OldestFirst(held, terminal)
    && gone == Elems(terminal[..n]) && |gone| == n
  }

  lemma BeforeOnce(held: map<nat, Row>, terminal: seq<nat>, n: nat)
    requires OldestFirst(held, terminal) && n < |terminal|
    ensures terminal[n] !in terminal[..n]
  {
    forall i | 0 <= i < n ensures terminal[..n][i] != terminal[n] {
      assert Before(held, terminal[i], terminal[n]);
    }
  }

  lemma OneMoreGone(held: map<nat, Row>, terminal: seq<nat>, n: nat, gone: set<nat>)
    requires Gone(held, terminal, n, gone) && n < |terminal|
    ensures terminal[n] in held && terminal[n] !in gone && Gone(held, terminal, n + 1, gone + {terminal[n]})
  {
    BeforeOnce(held, terminal, n);
    assert terminal[..n + 1] == terminal[..n] + [terminal[n]];
  }

  lemma GoneBefore(held: map<nat, Row>, terminal: seq<nat>, n: nat, k: nat, j: nat)
    requires OldestFirst(held, terminal) && n <= |terminal| && k in terminal[..n] && j in terminal
      && j !in terminal[..n]
    ensures k in held && j in held && Before(held, k, j)
  {
    var i :| 0 <= i < n && terminal[..n][i] == k;
    assert terminal[..n] + terminal[n..] == terminal;
    var m :| 0 <= m < |terminal| - n && terminal[n..][m] == j;
  }

  lemma GoneMakeRoom(held: map<nat, Row>, incoming: nat, terminal: seq<nat>, n: nat, gone: set<nat>)
    requires Gone(held, terminal, n, gone)
    requires forall k :: k in terminal <==> k in held && k != incoming && Prunable(held[k])
    requires n > 0 ==> |held| - n >= LIMIT - 1
    requires |held| - n < LIMIT || n == |terminal|
    ensures MakesRoom(held, incoming, gone)
  {
    forall k | k in gone ensures k in terminal {
      assert k in terminal[..n];
    }
    forall k, j | k in gone && j in held && j !in gone && j != incoming && Prunable(held[j])
      ensures Before(held, k, j)
    {
      assert j in terminal;
      GoneBefore(held, terminal, n, k, j);
    }
    if n == |terminal| {
      assert terminal[..n] == terminal;
    }
  }

  lemma TakenNone(m: map<nat, Row>)
    ensures m - {} == m
  {
  }

  lemma TakenMore(m: map<nat, Row>, gone: set<nat>, key: nat)
    ensures m - gone - {key} == m - (gone + {key})
    ensures key in m && key !in gone ==> |m - gone - {key}| == |m - gone| - 1
  {
    if key in m - gone {
      DropOne(m - gone, key);
    }
  }

  lemma SizeLeft(held: map<nat, Row>, gone: set<nat>)
    requires gone <= held.Keys
    ensures |held - gone| == |held| - |gone|
  {
    assert (held - gone).Keys == held.Keys - gone;
  }

  /** Writing past a listing with room leaves the cap kept, or the store no larger than it was. */
  lemma RecordFits(rows: map<nat, Row>, was: map<nat, Row>, held: map<nat, Row>, gone: set<nat>, key: nat, row: Row)
    requires IsListing(was, held) && gone <= held.Keys && rows == was - gone
    requires |held| - |gone| < LIMIT || key in held
    ensures |rows[key := row]| <= LIMIT || |rows[key := row]| <= |was|
  {
    SizeLeft(was, gone);
    GrowsByOne(rows, key, row);
    if key in held {
      assert key in was;
    }
  }

  lemma DropOne(was: map<nat, Row>, key: nat)
    requires key in was
    ensures |was - {key}| == |was| - 1
  {
    assert (was - {key}).Keys == was.Keys - {key};
  }

  lemma GrowsByOne(rows: map<nat, Row>, key: nat, row: Row)
    ensures |rows[key := row]| == |rows| + if key in rows then 0 else 1
  {
    assert rows[key := row].Keys == rows.Keys + {key};
  }

  /** Making room takes only records past running, and none while fewer than a hundred are listed. */
  lemma LiveRowsStay(was: map<nat, Row>, held: map<nat, Row>, incoming: nat, gone: set<nat>, k: nat)
    requires IsListing(was, held) && MakesRoom(held, incoming, gone)
    requires k in was && was[k].Sound? && (was[k].status == Starting || was[k].status == Running)
    ensures k in was - gone && (was - gone)[k] == was[k]
    ensures |held| < 100 ==> gone == {}
  {
  }

  /** Who goes when some that might are kept: a row the codec refuses before any other, then the
      earliest started, and of those started together the first listed. */
  lemma OldestGo(held: map<nat, Row>, incoming: nat, gone: set<nat>, k: nat, j: nat)
    requires MakesRoom(held, incoming, gone) && k in gone && j in held && j !in gone && j != incoming
    requires held[j] == Broken || held[j].status == Exited || held[j].status == Unknown
    ensures held[j] == Broken ==> held[k] == Broken && k < j
    ensures held[j].Sound? && held[k].Sound? ==>
      held[k].startedAt < held[j].startedAt || (held[k].startedAt == held[j].startedAt && k < j)
  {
    assert Before(held, k, j);
  }

  /** A hundred are held at most: where the listing cannot be brought below that, every row
      left in it but the incoming one is starting or running. */
  lemma RoomLacks(held: map<nat, Row>, incoming: nat, gone: set<nat>, j: nat)
    requires MakesRoom(held, incoming, gone) && |held| - |gone| >= 100
    requires j in held && j !in gone && j != incoming
    ensures held[j].Sound? && (held[j].status == Starting || held[j].status == Running)
  {
    assert NoneLeft(held, incoming, gone);
    assert !Prunable(held[j]);
  }

  /** Room is made in one way: which rows go is settled by what is held. */
  lemma RoomIsOne(held: map<nat, Row>, incoming: nat, a: set<nat>, b: set<nat>)
    requires MakesRoom(held, incoming, a) && MakesRoom(held, incoming, b)
    ensures a == b
  {
    if a <= b {
      Larger(a, b);
    } else {
      var k :| k in a && k !in b;
      forall j | j in b ensures j in a {
        assert j !in a ==> Before(held, k, j) && Before(held, j, k);
      }
      Larger(b, a);
    }
  }

  lemma Larger(a: set<nat>, b: set<nat>)
    requires a <= b
    ensures |a| <= |b| && (|a| == |b| ==> a == b)
  {
    assert b == a + (b - a);
  }

  /** A record that making room has forgotten, updated by someone who still had it, takes a
      full store past its cap. */
  lemma UpdateOutgrows(was: map<nat, Row>, held: map<nat, Row>, gone: set<nat>, id: nat, intent: Row, k: nat, next: Row)
    requires |was| == LIMIT && IsListing(was, held) && id !in was && MakesRoom(held, id, gone) && k in gone
    ensures |(was - gone)[id := intent]| == LIMIT
    ensures |(was - gone)[id := intent][k := next]| == LIMIT + 1
  {
    SizeLeft(was, gone);
    GrowsByOne(was - gone, id, intent);
    GrowsByOne((was - gone)[id := intent], k, next);
  }

  // ---- what a process has come to ------------------------------------------------------

  datatype Check = Check(currentGeneration: nat, alive: bool, exitCode: Option<int>)

  /** The reconciliation rule, applied to one answer of the Computer. */
  function Reconciled(r: Row, check: Check): Row
    requires r != Broken
  {
    if r.status == Exited then r
    else if check.exitCode.Some? then r.(status := Exited, exitCode := check.exitCode)
    else if check.currentGeneration == r.generation && check.alive then r.(status := Running, exitCode := None)
    else r.(status := Unknown, exitCode := None)
  }

  function AfterChecks(r: Row, checks: seq<Check>): (s: Row)
    requires r != Broken
    ensures s != Broken && s.generation == r.generation
  {
    if checks == [] then r else Reconciled(AfterChecks(r, checks[..|checks| - 1]), checks[|checks| - 1])
  }

  /** The first exit code any check reported, if one did. */
  function FirstExit(checks: seq<Check>): Option<int> {
    if checks == [] then None else if checks[0].exitCode.Some? then checks[0].exitCode else FirstExit(checks[1..])
  }

  lemma {:induction false} FirstExitMore(checks: seq<Check>, last: Check)
    ensures FirstExit(checks + [last]) == if FirstExit(checks).Some? then FirstExit(checks) else last.exitCode
  {
    if checks == [] {
      assert [last][1..] == [] && [] + [last] == [last];
    } else {
      FirstExitMore(checks[1..], last);
      assert (checks + [last])[1..] == checks[1..] + [last];
    }
  }

  /** Over any checks: an exit stands, with the first exit code reported and no other, whatever
      generation reported it; running is said only of the launching generation, by a check
      that found it alive. */
  lemma {:induction false} StatusOverChecks(r: Row, checks: seq<Check>)
    requires r != Broken && checks != []
    ensures var s := AfterChecks(r, checks);
      var last := checks[|checks| - 1];
      if r.status == Exited then s == r
      else
        && (s.status == Exited <==> FirstExit(checks).Some?)
        && s.exitCode == FirstExit(checks)
        && (s.status == Running <==> FirstExit(checks) == None && last.alive && last.currentGeneration == r.generation)
        && s.status != Starting
  {
    var n := |checks| - 1;
    assert checks == checks[..n] + [checks[n]];
    FirstExitMore(checks[..n], checks[n]);
    if n > 0 {
      StatusOverChecks(r, checks[..n]);
    }
  }
}
