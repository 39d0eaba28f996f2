/** The sign-in ledger over whole histories: what is kept, owed and deleted, told by what was asked of it. */
module LoginVaultLaws {
  import opened Wrappers
  import opened LoginVault

  datatype Ask = Capture(at: int) | Debt(at: int) | Settlement(since: int) | Deletion(at: int)

  function Asked(v: Ledger, a: Ask): Ledger {
    match a
    case Capture(at) => KeepIn(v, at)
    case Debt(at) => OweIn(v, at)
    case Settlement(since) => SettleIn(v, since)
    case Deletion(at) => ForgetIn(v, at)
  }

  /** The ledger after the first `n` of what was asked of an empty one. */
  function After(asks: seq<Ask>, n: nat): Ledger
    requires n <= |asks|
  {
    if n == 0 then Ledger(None, None, None) else Asked(After(asks, n - 1), asks[n - 1])
  }

  ghost predicate DeletedAt(asks: seq<Ask>, n: nat, at: int)
    requires n <= |asks|
  {
    exists i :: 0 <= i < n && asks[i] == Deletion(at)
  }

  /** The latest deletion among the first `n`. */
  ghost predicate LatestDeletion(asks: seq<Ask>, n: nat, latest: Option<int>)
    requires n <= |asks|
  {
    && (latest.Some? ==> DeletedAt(asks, n, latest.value))
    && (forall i :: 0 <= i < n && asks[i].Deletion? ==> latest.Some? && asks[i].at <= latest.value)
  }

  /** A deletion whose time is `at` or later came among the first `n`. */
  ghost predicate DeletedBy(asks: seq<Ask>, n: nat, at: int)
    requires n <= |asks|
  {
    exists i :: 0 <= i < n && asks[i].Deletion? && asks[i].at >= at
  }

  lemma {:induction false} DeletionTold(asks: seq<Ask>, n: nat)
    requires n <= |asks|
    ensures LatestDeletion(asks, n, After(asks, n).deletedAt)
  {
    if n > 0 {
      DeletionTold(asks, n - 1);
      var last := After(asks, n - 1).deletedAt;
      if last.Some? {
        var i :| 0 <= i < n - 1 && asks[i] == Deletion(last.value);
        assert 0 <= i < n;
      }
      if asks[n - 1].Deletion? {
        assert DeletedAt(asks, n, asks[n - 1].at);
      }
    }
  }

  lemma DeletedSinceTold(asks: seq<Ask>, n: nat, at: int)
    requires n <= |asks|
    ensures DeletedSince(After(asks, n).deletedAt, at) <==> DeletedBy(asks, n, at)
  {
    DeletionTold(asks, n);
  }

  /** Ask `i` recorded the debt of `at`, and nothing settled or forgot it before ask `n`. */
  ghost predicate OwedSince(asks: seq<Ask>, n: nat, i: nat, at: int)
    requires n <= |asks|
  {
    && i < n && asks[i] == Debt(at)
    && After(asks, i).owedSince == None && !DeletedBy(asks, i, at)
    && forall j :: i < j < n ==> !asks[j].Deletion? && asks[j] != Settlement(at)
  }

  ghost predicate Owed(asks: seq<Ask>, n: nat, at: int)
    requires n <= |asks|
  {
    exists i :: OwedSince(asks, n, i, at)
  }

  /** A debt stands exactly when it was recorded while none stood and no deletion outranked it,
      and neither its own settlement nor a deletion has come since. */
  lemma {:induction false} DebtTold(asks: seq<Ask>, n: nat, at: int)
    requires n <= |asks|
    ensures After(asks, n).owedSince == Some(at) <==> Owed(asks, n, at)
  {
    if n > 0 {
      DebtTold(asks, n - 1, at);
      var v, a := After(asks, n - 1), asks[n - 1];
      DeletedSinceTold(asks, n - 1, at);
      if After(asks, n).owedSince == Some(at) {
        if v.owedSince == Some(at) {
          var i: nat :| OwedSince(asks, n - 1, i, at);
          assert OwedSince(asks, n, i, at);
        } else {
          assert OwedSince(asks, n, n - 1, at);
        }
      }
      if Owed(asks, n, at) {
        var i: nat :| OwedSince(asks, n, i, at);
        if i < n - 1 {
          assert OwedSince(asks, n - 1, i, at);
        }
      }
    }
  }

  /** Ask `i` kept the capture of `at`: nothing was owed, no deletion outranked it and it was
      newer than what was kept; and since then no deletion came, nor a newer capture while
      nothing was owed. */
  ghost predicate KeptSince(asks: seq<Ask>, n: nat, i: nat, at: int)
    requires n <= |asks|
  {
    && i < n && asks[i] == Capture(at)
    && After(asks, i).owedSince == None && !DeletedBy(asks, i, at)
    && (After(asks, i).kept.Some? ==> After(asks, i).kept.value < at)
    && (forall j :: i < j < n ==> !asks[j].Deletion?)
    && (forall j :: i < j < n && asks[j].Capture? && asks[j].at > at ==> After(asks, j).owedSince.Some?)
  }

  ghost predicate Keeps(asks: seq<Ask>, n: nat, at: int)
    requires n <= |asks|
  {
    exists i :: KeptSince(asks, n, i, at)
  }

  /** Nothing deleted since a capture was kept outranks a newer one. */
  lemma NewerOutlives(asks: seq<Ask>, n: nat, i: nat, at: int, later: int)
    requires n <= |asks| && KeptSince(asks, n, i, at) && later > at
    ensures !DeletedSince(After(asks, n).deletedAt, later)
  {
    DeletedSinceTold(asks, n, later);
  }

  lemma StaysKept(asks: seq<Ask>, n: nat, i: nat, at: int)
    requires 0 < n <= |asks| && i < n - 1 && KeptSince(asks, n, i, at) && After(asks, n - 1).kept == Some(at)
    ensures After(asks, n).kept == Some(at)
  {
  }

  lemma NewlyKept(asks: seq<Ask>, n: nat, at: int)
    requires 0 < n <= |asks| && After(asks, n).kept == Some(at) && After(asks, n - 1).kept != Some(at)
    ensures KeptSince(asks, n, n - 1, at)
  {
    DeletedSinceTold(asks, n - 1, at);
  }

  lemma StillKept(asks: seq<Ask>, n: nat, i: nat, at: int)
    requires 0 < n <= |asks| && KeptSince(asks, n - 1, i, at)
    requires After(asks, n - 1).kept == Some(at) && After(asks, n).kept == Some(at)
    ensures KeptSince(asks, n, i, at)
  {
    var a := asks[n - 1];
    if a.Capture? && a.at > at {
      NewerOutlives(asks, n - 1, i, at, a.at);
    }
  }

  /** What is kept is the newest capture that came while nothing was owed and no deletion
      outranked it, and that no deletion has taken since. */
  lemma {:induction false} KeptTold(asks: seq<Ask>, n: nat, at: int)
    requires n <= |asks|
    ensures After(asks, n).kept == Some(at) <==> Keeps(asks, n, at)
  {
    if n > 0 {
      KeptTold(asks, n - 1, at);
      if After(asks, n).kept == Some(at) {
        if After(asks, n - 1).kept == Some(at) {
          var i: nat :| KeptSince(asks, n - 1, i, at);
          StillKept(asks, n, i, at);
        } else {
          NewlyKept(asks, n, at);
        }
      }
      if Keeps(asks, n, at) {
        var i: nat :| KeptSince(asks, n, i, at);
        if i < n - 1 {
          assert KeptSince(asks, n - 1, i, at);
          StaysKept(asks, n, i, at);
        } else {
          DeletedSinceTold(asks, n - 1, at);
        }
      }
    }
  }
}
