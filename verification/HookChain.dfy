/** The hook chain of the generated index: one event, every Plugin that hooks it, one deadline. */
module HookChain {
  import opened Wrappers

  const MIN_SLICE_MS := 25
  const MAX_DEADLINE_MS := 60000

  datatype Hooked = Hooked(id: string, ok: bool, hooks: seq<string>)

  datatype Invocation = Invocation(event: string, enabled: seq<string>, deadlineMs: int, carriesValue: bool)

  datatype Outcome<+V> = Returned(value: Option<V>) | Raised(reason: string)

  /** How a handler behaves once called: when it settles, if ever, and how. `first` says
      which comes first when it settles in the very millisecond its time is up. */
  datatype Behaviour<+V> = Behaviour(after: Option<nat>, first: bool, outcome: Outcome<V>)

  /** What a handler does, given the value earlier Plugins left (`None`: the payload as it
      came) and the time it has. */
  type Handlers<!V> = (Hooked, Option<V>, int) -> Behaviour<V>

  datatype Why = Exhausted | OutOfRange | TimedOut(ms: int) | CannotReplace | Because(reason: string)

  datatype HookFailure = HookFailure(id: string, why: Why)

  datatype Chain<+V> = Chain(elapsed: nat, replacement: Option<V>, failures: seq<HookFailure>)

  predicate Called(p: Hooked, inv: Invocation) {
    p.ok && p.id in inv.enabled && inv.event in p.hooks
  }

  // ---- one handler under its deadline --------------------------------------------------

  predicate InTime<V>(b: Behaviour<V>, deadlineMs: int) {
    b.after.Some? && (b.after.value < deadlineMs || (b.after.value == deadlineMs && b.first))
  }

  /** A Plugin's turn: what it answered in time, or why nothing of it counts. */
  datatype Turn<+V> = Uncalled | Failed(why: Why) | Answered(value: Option<V>)

  /** What racing the handler against its deadline settles as, and how long that takes. */
  function Raced<V>(b: Behaviour<V>, deadlineMs: int): (r: (Turn<V>, nat))
    ensures r.0 != Uncalled && (deadlineMs > 0 ==> r.1 <= deadlineMs)
  {
    if !(0 < deadlineMs <= MAX_DEADLINE_MS) then (Failed(OutOfRange), 0)
    else if !InTime(b, deadlineMs) then (Failed(TimedOut(deadlineMs)), deadlineMs)
    else (if b.outcome.Returned? then Answered(b.outcome.value) else Failed(Because(b.outcome.reason)), b.after.value)
  }

  // ---- the chain, stated apart from the loop -------------------------------------------

  function TurnOf<V>(handlers: Handlers<V>, inv: Invocation, p: Hooked, before: Chain<V>): Turn<V> {
    if !Called(p, inv) then Uncalled
    else
      var remaining := inv.deadlineMs - before.elapsed;
      if remaining < MIN_SLICE_MS then Failed(Exhausted)
      else
        var turn := Raced(handlers(p, before.replacement, remaining), remaining).0;
        if turn.Answered? && turn.value.Some? && !inv.carriesValue then Failed(CannotReplace) else turn
  }

  function TimeOf<V>(handlers: Handlers<V>, inv: Invocation, p: Hooked, before: Chain<V>): nat {
    var remaining := inv.deadlineMs - before.elapsed;
    if !Called(p, inv) || remaining < MIN_SLICE_MS then 0
    else Raced(handlers(p, before.replacement, remaining), remaining).1
  }

  function Next<V>(handlers: Handlers<V>, inv: Invocation, p: Hooked, before: Chain<V>): Chain<V> {
    var turn := TurnOf(handlers, inv, p, before);
    Chain(
      before.elapsed + TimeOf(handlers, inv, p, before),
      if turn.Answered? && turn.value.Some? then turn.value else before.replacement,
      if turn.Failed? then before.failures + [HookFailure(p.id, turn.why)] else before.failures)
  }

  /** The chain after the first `n` Plugins. */
  function After<V>(handlers: Handlers<V>, inv: Invocation, plugins: seq<Hooked>, n: nat): Chain<V>
    requires n <= |plugins|
  {
    if n == 0 then Chain(0, None, [])
    else Next(handlers, inv, plugins[n - 1], After(handlers, inv, plugins, n - 1))
  }

  method RunHookChain<V>(plugins: seq<Hooked>, inv: Invocation, handlers: Handlers<V>)
    returns (replacement: Option<V>, failures: seq<HookFailure>, elapsed: nat)
    ensures Chain(elapsed, replacement, failures) == After(handlers, inv, plugins, |plugins|)
  {
    replacement, failures, elapsed := None, [], 0;
    for i := 0 to |plugins|
      invariant Chain(elapsed, replacement, failures) == After(handlers, inv, plugins, i)
    {
      var plugin := plugins[i];
      if !plugin.ok || plugin.id !in inv.enabled { continue; }
      if inv.event !in plugin.hooks { continue; }
      var remaining := inv.deadlineMs - elapsed;
      if remaining < MIN_SLICE_MS {
        failures := failures + [HookFailure(plugin.id, Exhausted)];
        continue;
      }
      var (turn, took) := Raced(handlers(plugin, replacement, remaining), remaining);
      elapsed := elapsed + took;
      if turn.Failed? {
        failures := failures + [HookFailure(plugin.id, turn.why)];
        continue;
      }
      if turn.value.Some? {
        if !inv.carriesValue {
          failures := failures + [HookFailure(plugin.id, CannotReplace)];
          continue;
        }
        replacement := turn.value;
      }
    }
  }

  // ---- what the chain comes to ---------------------------------------------------------

  /** The Plugins that returned a value, each with the time it was given. */
  function Contributors<V>(handlers: Handlers<V>, inv: Invocation, plugins: seq<Hooked>, n: nat): seq<(Hooked, int)>
    requires n <= |plugins|
  {
    if n == 0 then []
    else
      var before := After(handlers, inv, plugins, n - 1);
      var turn := TurnOf(handlers, inv, plugins[n - 1], before);
      Contributors(handlers, inv, plugins, n - 1) +
      if turn.Answered? && turn.value.Some? then [(plugins[n - 1], inv.deadlineMs - before.elapsed)] else []
  }

  /** The value folded through the contributors, in order. */
  function Folded<V>(handlers: Handlers<V>, contributors: seq<(Hooked, int)>): Option<V> {
    if contributors == [] then None
    else
      var n := |contributors| - 1;
      var outcome := handlers(contributors[n].0, Folded(handlers, contributors[..n]), contributors[n].1).outcome;
      if outcome.Returned? then outcome.value else None
  }

  lemma FoldedNext<V>(handlers: Handlers<V>, cs: seq<(Hooked, int)>, p: Hooked, remaining: int, value: Option<V>)
    requires handlers(p, Folded(handlers, cs), remaining).outcome == Returned(value)
    ensures Folded(handlers, cs + [(p, remaining)]) == value
  {
    assert (cs + [(p, remaining)])[..|cs|] == cs;
  }

  /** What counts of a turn is what the handler returned. */
  lemma AnsweredIs<V>(handlers: Handlers<V>, inv: Invocation, p: Hooked, before: Chain<V>)
    requires TurnOf(handlers, inv, p, before).Answered?
    ensures handlers(p, before.replacement, inv.deadlineMs - before.elapsed).outcome ==
            Returned(TurnOf(handlers, inv, p, before).value)
  {
  }

  lemma FoldStep<V>(handlers: Handlers<V>, inv: Invocation, p: Hooked, before: Chain<V>, cs: seq<(Hooked, int)>)
    requires before.replacement == Folded(handlers, cs)
    ensures
      var turn := TurnOf(handlers, inv, p, before);
      Next(handlers, inv, p, before).replacement ==
      Folded(handlers, if turn.Answered? && turn.value.Some? then cs + [(p, inv.deadlineMs - before.elapsed)] else cs)
  {
    var turn := TurnOf(handlers, inv, p, before);
    if turn.Answered? && turn.value.Some? {
      AnsweredIs(handlers, inv, p, before);
      FoldedNext(handlers, cs, p, inv.deadlineMs - before.elapsed, turn.value);
    }
  }

  /** The chain's value is the left fold of the contributors: failed and skipped Plugins leave no trace in it. */
  lemma {:induction false} ChainIsFold<V>(handlers: Handlers<V>, inv: Invocation, plugins: seq<Hooked>, n: nat)
    requires n <= |plugins|
    ensures After(handlers, inv, plugins, n).replacement == Folded(handlers, Contributors(handlers, inv, plugins, n))
  {
    if n > 0 {
      ChainIsFold(handlers, inv, plugins, n - 1);
      var cs := Contributors(handlers, inv, plugins, n - 1);
      FoldStep(handlers, inv, plugins[n - 1], After(handlers, inv, plugins, n - 1), cs);
      assert cs + [] == cs;
    }
  }

  predicate FailedIn<V>(c: Chain<V>, id: string) {
    exists i :: 0 <= i < |c.failures| && c.failures[i].id == id
  }

  lemma {:induction false} FailuresStay<V>(handlers: Handlers<V>, inv: Invocation, plugins: seq<Hooked>, m: nat, n: nat)
    requires m <= n <= |plugins|
    ensures After(handlers, inv, plugins, m).failures <= After(handlers, inv, plugins, n).failures
  {
    if m < n {
      FailuresStay(handlers, inv, plugins, m, n - 1);
    }
  }

  /** Every enabled, mounted Plugin that hooks the event either answered in its time or is
      named in the failures; and only such Plugins are named. */
  lemma EveryPluginAccounted<V>(handlers: Handlers<V>, inv: Invocation, plugins: seq<Hooked>, k: nat)
    requires k < |plugins|
    ensures Called(plugins[k], inv) ==>
      || TurnOf(handlers, inv, plugins[k], After(handlers, inv, plugins, k)).Answered?
      || FailedIn(After(handlers, inv, plugins, |plugins|), plugins[k].id)
  {
    if Called(plugins[k], inv) {
      var before, after, end :=
        After(handlers, inv, plugins, k), After(handlers, inv, plugins, k + 1),
        After(handlers, inv, plugins, |plugins|);
      FailuresStay(handlers, inv, plugins, k + 1, |plugins|);
      var turn := TurnOf(handlers, inv, plugins[k], before);
      if turn.Failed? {
        var i := |before.failures|;
        assert after.failures[i] == end.failures[i];
      }
    }
  }

  predicate FailedTurn<V>(handlers: Handlers<V>, inv: Invocation, plugins: seq<Hooked>, k: nat)
    requires k < |plugins|
  {
    Called(plugins[k], inv) && TurnOf(handlers, inv, plugins[k], After(handlers, inv, plugins, k)).Failed?
  }

  lemma {:induction false} OnlyCalledFail<V>(handlers: Handlers<V>, inv: Invocation, plugins: seq<Hooked>, n: nat,
                                             id: string)
    requires n <= |plugins| && FailedIn(After(handlers, inv, plugins, n), id)
    ensures exists k :: 0 <= k < n && plugins[k].id == id && FailedTurn(handlers, inv, plugins, k)
  {
    var c := After(handlers, inv, plugins, n);
    var i :| 0 <= i < |c.failures| && c.failures[i].id == id;
    var before := After(handlers, inv, plugins, n - 1);
    if i < |before.failures| {
      assert before.failures[i] == c.failures[i];
      OnlyCalledFail(handlers, inv, plugins, n - 1, id);
    } else {
      assert plugins[n - 1].id == id && FailedTurn(handlers, inv, plugins, n - 1);
    }
  }

  /** A notification leaves no replacement, whatever its handlers return. */
  lemma {:induction false} NotificationsReplaceNothing<V>(handlers: Handlers<V>, inv: Invocation, plugins: seq<Hooked>,
                                                          n: nat)
    requires n <= |plugins| && !inv.carriesValue
    ensures After(handlers, inv, plugins, n).replacement == None
  {
    if n > 0 {
      NotificationsReplaceNothing(handlers, inv, plugins, n - 1);
    }
  }

  /** Handlers that never settle included, the chain ends within its deadline. */
  lemma {:induction false} WithinDeadline<V>(handlers: Handlers<V>, inv: Invocation, plugins: seq<Hooked>, n: nat)
    requires n <= |plugins|
    ensures After(handlers, inv, plugins, n).elapsed <= if inv.deadlineMs > 0 then inv.deadlineMs else 0
  {
    if n > 0 {
      WithinDeadline(handlers, inv, plugins, n - 1);
    }
  }

  lemma NextExhausted<V>(handlers: Handlers<V>, inv: Invocation, p: Hooked, before: Chain<V>)
    requires inv.deadlineMs - before.elapsed < MIN_SLICE_MS
    ensures Next(handlers, inv, p, before).elapsed == before.elapsed
    ensures Called(p, inv) ==> TurnOf(handlers, inv, p, before) == Failed(Exhausted)
  {
  }

  /** Once less than the least slice is left, no later handler runs at all: each is named as out of time. */
  lemma {:induction false} NothingRunsLate<V>(handlers: Handlers<V>, inv: Invocation, plugins: seq<Hooked>, k: nat,
                                              m: nat)
    requires k <= m < |plugins|
    requires inv.deadlineMs - After(handlers, inv, plugins, k).elapsed < MIN_SLICE_MS
    ensures After(handlers, inv, plugins, m).elapsed == After(handlers, inv, plugins, k).elapsed
    ensures Called(plugins[m], inv) ==>
      TurnOf(handlers, inv, plugins[m], After(handlers, inv, plugins, m)) == Failed(Exhausted)
  {
    if k < m {
      NothingRunsLate(handlers, inv, plugins, k, m - 1);
      NextExhausted(handlers, inv, plugins[m - 1], After(handlers, inv, plugins, m - 1));
    }
    NextExhausted(handlers, inv, plugins[m], After(handlers, inv, plugins, m));
  }

  /** Every Plugin's turn, told by when its handler settles. One that is not asked for leaves the
      chain as it was; with less than 25 ms left it is out of time; one that settles before its
      time is up is counted, whatever it comes to; any other has used the chain's whole time. */
  lemma TurnsTold<V>(handlers: Handlers<V>, inv: Invocation, plugins: seq<Hooked>, k: nat)
    requires k < |plugins|
    ensures
      var p, c, d := plugins[k], After(handlers, inv, plugins, k), After(handlers, inv, plugins, k + 1);
      var left := inv.deadlineMs - c.elapsed;
      var b := handlers(p, c.replacement, left);
      && d.failures <= After(handlers, inv, plugins, |plugins|).failures
      && (if !p.ok || p.id !in inv.enabled || inv.event !in p.hooks then d == c
          else if left < 25 then d == c.(failures := c.failures + [HookFailure(p.id, Exhausted)])
          else if left > 60000 then d == c.(failures := c.failures + [HookFailure(p.id, OutOfRange)])
          else if b.after == None || b.after.value > left || (b.after.value == left && !b.first) then
            d == Chain(inv.deadlineMs, c.replacement, c.failures + [HookFailure(p.id, TimedOut(left))])
          else
            && d.elapsed == c.elapsed + b.after.value
            && match b.outcome
               case Raised(why) =>
                 d.failures == c.failures + [HookFailure(p.id, Because(why))] && d.replacement == c.replacement
               case Returned(None) => d.failures == c.failures && d.replacement == c.replacement
               case Returned(Some(v)) =>
                 if inv.carriesValue then d.failures == c.failures && d.replacement == Some(v)
                 else d.failures == c.failures + [HookFailure(p.id, CannotReplace)] && d.replacement == c.replacement)
  {
    FailuresStay(handlers, inv, plugins, k + 1, |plugins|);
  }
}
