/** The User's ledger of browser sign-ins: the capture kept, the debt since when the Computer
    lacks them, and the latest deletion. Times are integers; a capture is named by when it
    was made. */
module LoginVault {
  import opened Wrappers

  datatype Ledger = Ledger(kept: Option<int>, owedSince: Option<int>, deletedAt: Option<int>)

  datatype KeepOutcome = Kept | Stale | Owed | TooLarge

  datatype OweOutcome = OwedNow | Deleted

  /** Whether the Computer was deleted at or after `at`. */
  predicate DeletedSince(deletedAt: Option<int>, at: int) {
    deletedAt.Some? && deletedAt.value >= at
  }

  function KeepIn(v: Ledger, capturedAt: int): Ledger {
    if v.owedSince.Some? || DeletedSince(v.deletedAt, capturedAt) || (v.kept.Some? && v.kept.value >= capturedAt)
    then v
    else v.(kept := Some(capturedAt))
  }

  function OweIn(v: Ledger, at: int): Ledger {
    if DeletedSince(v.deletedAt, at) || v.owedSince.Some? then v else v.(owedSince := Some(at))
  }

  function SettleIn(v: Ledger, owedSince: int): Ledger {
    if v.owedSince == Some(owedSince) then v.(owedSince := None) else v
  }

  function ForgetIn(v: Ledger, at: int): Ledger {
    Ledger(None, None, if DeletedSince(v.deletedAt, at) then v.deletedAt else Some(at))
  }

  class ComputerLoginsLedger {
    var kept: Option<int>
    var owedSince: Option<int>
    var deletedAt: Option<int>

    constructor ()
      ensures View() == Ledger(None, None, None)
    {
      kept, owedSince, deletedAt := None, None, None;
    }

    ghost function View(): Ledger
      reads this
    {
      Ledger(kept, owedSince, deletedAt)
    }

    method Keep(capturedAt: int, fits: bool) returns (outcome: KeepOutcome)
      modifies this
      ensures View() == if fits then KeepIn(old(View()), capturedAt) else old(View())
      ensures outcome == Kept ==> kept == Some(capturedAt) && owedSince == None
      ensures outcome == TooLarge <==> !fits
      ensures outcome == Owed <==> fits && old(owedSince).Some?
      ensures outcome == Stale ==> DeletedSince(deletedAt, capturedAt) || (kept.Some? && kept.value >= capturedAt)
      ensures outcome != Kept ==> View() == old(View())
    {
      if !fits { return TooLarge; }
      if owedSince.Some? { return Owed; }
      if DeletedSince(deletedAt, capturedAt) { return Stale; }
      if kept.Some? && kept.value >= capturedAt { return Stale; }
      kept := Some(capturedAt);
      outcome := Kept;
    }

    method Owe(at: int) returns (outcome: OweOutcome)
      modifies this
      ensures View() == OweIn(old(View()), at)
      ensures outcome == Deleted <==> DeletedSince(old(deletedAt), at)
      ensures outcome == OwedNow ==> owedSince.Some?
    {
      if DeletedSince(deletedAt, at) { return Deleted; }
      if owedSince.Some? { return OwedNow; }
      owedSince := Some(at);
      outcome := OwedNow;
    }

    method Settle(since: int)
      modifies this
      ensures View() == SettleIn(old(View()), since)
      ensures old(owedSince) != Some(since) ==> View() == old(View())
    {
      if owedSince != Some(since) { return; }
      owedSince := None;
    }

    method Forget(at: int)
      modifies this
      ensures View() == ForgetIn(old(View()), at)
      ensures DeletedSince(deletedAt, at)
      ensures old(deletedAt).Some? ==> deletedAt.value >= old(deletedAt).value
    {
      var last := if DeletedSince(deletedAt, at) then deletedAt else Some(at);
      kept, owedSince, deletedAt := None, None, last;
    }
  }
}
