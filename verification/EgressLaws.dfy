/** What one exec call's egress keeps under every interleaving of its requests. */
module EgressLaws {
  import opened Wrappers
  import opened Egress

  // ---- the invariant -------------------------------------------------------------------

  ghost predicate ReaderOk(cfg: Config, s: State, t: Ticket, r: nat) {
    && cfg.isRead(t.request) && t.stage != Permitting
    && r < |s.reviews| && s.reviews[r].purpose == Reads(ReadKeyOf(cfg, t.request))
  }

  ghost predicate WriterOk(cfg: Config, s: State, n: nat, t: Ticket, r: nat) {
    && !cfg.isRead(t.request) && t.stage != Permitting
    && WriteKeyOf(t.request) in s.writes && s.writes[WriteKeyOf(t.request)] == n
    && r < |s.reviews| && s.reviews[r].purpose == OneWrite(n) && s.reviews[r].content == ContentOf(t.request, t.account)
  }

  ghost predicate TwinOk(cfg: Config, s: State, t: Ticket, o: nat) {
    && !cfg.isRead(t.request) && (t.stage == Waiting || t.stage.Answered?)
    && WriteKeyOf(t.request) in s.writes && s.writes[WriteKeyOf(t.request)] == o
    && o < |s.tickets| && s.tickets[o].role.Writer?
    && (t.stage.Answered? ==> s.tickets[o].stage == t.stage)
  }

  ghost predicate TicketOk(cfg: Config, s: State, n: nat)
    requires n < |s.tickets|
  {
    var t := s.tickets[n];
    match t.role
    case Unplaced => t.stage == Permitting || t.stage.Answered?
    case Reader(r) => ReaderOk(cfg, s, t, r)
    case Writer(r) => WriterOk(cfg, s, n, t, r)
    case Twin(o) => TwinOk(cfg, s, t, o)
    case AsksJev(k) => k < s.jevSequence && (t.stage == Sending || t.stage.Answered?)
  }

  /** The request has gone to its account: exactly when it is being sent or was answered past an undenied review. */
  ghost predicate SentOk(s: State, n: nat)
    requires n < |s.tickets|
  {
    var t := s.tickets[n];
    && (n in s.sends ==>
          && ReviewOf(t).Some? && ReviewOf(t).value < |s.reviews|
          && s.reviews[ReviewOf(t).value].progress == Decided(None)
          && (t.stage == Sending || t.stage.Answered?))
    && (t.stage == Sending && !t.role.AsksJev? ==> n in s.sends)
  }

  ghost predicate ReviewOk(cfg: Config, s: State, r: nat)
    requires r < |s.reviews|
  {
    var v := s.reviews[r];
    && (v.progress == Digesting ==> v.id == None)
    && (v.progress == Deciding ==> v.id.Some?)
    && (v.id.Some? ==>
          && v.id.value.digest == cfg.digest(v.content)
          && v.id.value.digest in s.repeats && v.id.value.repeat < s.repeats[v.id.value.digest])
    && (!cfg.reviewed ==> v.progress == Decided(Some(UNSUPERVISED)))
    && (v.purpose.Reads? ==> v.content.verb == v.purpose.key.verb && cfg.place(v.content.url) == v.purpose.key.place)
  }

  ghost predicate IdsDistinct(s: State) {
    forall q, r :: 0 <= q < r < |s.reviews| && s.reviews[q].id.Some? && s.reviews[r].id.Some? ==>
      s.reviews[q].id != s.reviews[r].id
  }

  ghost predicate JevDistinct(s: State) {
    forall m, n :: 0 <= m < n < |s.tickets| && s.tickets[m].role.AsksJev? ==> s.tickets[m].role != s.tickets[n].role
  }

  ghost predicate SendsOnce(s: State) {
    && (forall i :: 0 <= i < |s.sends| ==> s.sends[i] < |s.tickets|)
    && forall i, j :: 0 <= i < j < |s.sends| ==> s.sends[i] != s.sends[j]
  }

  ghost predicate MapsOk(cfg: Config, s: State) {
    && (forall key :: key in s.writes ==>
          && s.writes[key] < |s.tickets| && s.tickets[s.writes[key]].role.Writer?
          && WriteKeyOf(s.tickets[s.writes[key]].request) == key)
    && forall key :: key in s.readReviews ==>
         s.readReviews[key] < |s.reviews| && s.reviews[s.readReviews[key]].purpose == Reads(key)
  }

  ghost predicate Inv(cfg: Config, s: State) {
    && (forall n :: 0 <= n < |s.tickets| ==> TicketOk(cfg, s, n) && SentOk(s, n))
    && (forall r :: 0 <= r < |s.reviews| ==> ReviewOk(cfg, s, r))
    && IdsDistinct(s) && JevDistinct(s) && SendsOnce(s) && MapsOk(cfg, s)
  }

  lemma ReviewsStand(cfg: Config, s: State, z: State)
    requires z.reviews == s.reviews && z.repeats == s.repeats
    requires forall r :: 0 <= r < |s.reviews| ==> ReviewOk(cfg, s, r)
    ensures forall r :: 0 <= r < |z.reviews| ==> ReviewOk(cfg, z, r)
  {
    forall r | 0 <= r < |z.reviews|
      ensures ReviewOk(cfg, z, r)
    {
      assert ReviewOk(cfg, s, r);
    }
  }

  // ---- each step keeps it --------------------------------------------------------------

  lemma EndKeeps(cfg: Config, s: State, n: nat, answer: Answer)
    requires Inv(cfg, s) && n < |s.tickets| && !s.tickets[n].stage.Answered?
    requires s.tickets[n].stage == Waiting ==> n !in s.sends
    requires s.tickets[n].role.Twin? ==>
      s.tickets[n].role.owner < |s.tickets| && s.tickets[s.tickets[n].role.owner].stage == Answered(answer)
    ensures Inv(cfg, End(s, n, answer))
  {
    var z := End(s, n, answer);
    assert TicketOk(cfg, s, n);
    ReviewsStand(cfg, s, z);
    forall m | 0 <= m < |z.tickets|
      ensures TicketOk(cfg, z, m) && SentOk(z, m)
    {
      EndOk(cfg, s, n, answer, m);
    }
  }

  lemma EndOk(cfg: Config, s: State, n: nat, answer: Answer, m: nat)
    requires Inv(cfg, s) && n < |s.tickets| && !s.tickets[n].stage.Answered? && m < |s.tickets|
    requires s.tickets[n].stage == Waiting ==> n !in s.sends
    requires s.tickets[n].role.Twin? ==>
      s.tickets[n].role.owner < |s.tickets| && s.tickets[s.tickets[n].role.owner].stage == Answered(answer)
    ensures TicketOk(cfg, End(s, n, answer), m) && SentOk(End(s, n, answer), m)
  {
    assert TicketOk(cfg, s, m) && SentOk(s, m);
    if m != n && s.tickets[m].role.Twin? {
      EndTwin(cfg, s, n, answer, m);
    }
  }

  lemma EndTwin(cfg: Config, s: State, n: nat, answer: Answer, m: nat)
    requires n < |s.tickets| && !s.tickets[n].stage.Answered? && m < |s.tickets| && m != n
    requires s.tickets[m].role.Twin? && TwinOk(cfg, s, s.tickets[m], s.tickets[m].role.owner)
    ensures TwinOk(cfg, End(s, n, answer), s.tickets[m], s.tickets[m].role.owner)
  {
  }

  /** Taking a place behind a review or a write already begun. */
  lemma JoinKeeps(cfg: Config, s: State, n: nat, role: Role)
    requires Inv(cfg, s) && n < |s.tickets| && s.tickets[n].role == Unplaced && s.tickets[n].stage == Permitting
    requires role.Reader? || role.Twin?
    requires role.Reader? ==> ReaderOk(cfg, s, s.tickets[n].(stage := Waiting), role.review)
    requires role.Twin? ==> TwinOk(cfg, s, s.tickets[n].(stage := Waiting), role.owner)
    ensures Inv(cfg, Put(s, n, s.tickets[n].(role := role, stage := Waiting)))
  {
    var z := Put(s, n, s.tickets[n].(role := role, stage := Waiting));
    assert SentOk(s, n);
    forall m | 0 <= m < |z.tickets|
      ensures TicketOk(cfg, z, m) && SentOk(z, m)
    {
      assert TicketOk(cfg, s, m) && SentOk(s, m);
    }
    ReviewsStand(cfg, s, z);
  }

  /** A review more changes nothing of what is there. */
  lemma ReviewMoreKeeps(cfg: Config, s: State, purpose: Purpose, content: Content)
    requires Inv(cfg, s)
    requires purpose.Reads? ==> content.verb == purpose.key.verb && cfg.place(content.url) == purpose.key.place
    ensures Inv(cfg, s.(reviews := s.reviews + [Begun(cfg, purpose, content)]))
  {
    var z := s.(reviews := s.reviews + [Begun(cfg, purpose, content)]);
    forall m | 0 <= m < |z.tickets|
      ensures TicketOk(cfg, z, m) && SentOk(z, m)
    {
      assert TicketOk(cfg, s, m) && SentOk(s, m);
    }
    forall r | 0 <= r < |z.reviews|
      ensures ReviewOk(cfg, z, r)
    {
      if r < |s.reviews| {
        assert ReviewOk(cfg, s, r);
      }
    }
  }

  lemma PathKeeps(cfg: Config, s: State, key: ReadKey, r: nat)
    requires Inv(cfg, s) && r < |s.reviews| && s.reviews[r].purpose == Reads(key)
    ensures Inv(cfg, s.(readReviews := s.readReviews[key := r]))
  {
    var z := s.(readReviews := s.readReviews[key := r]);
    forall m | 0 <= m < |z.tickets|
      ensures TicketOk(cfg, z, m) && SentOk(z, m)
    {
      assert TicketOk(cfg, s, m) && SentOk(s, m);
    }
    ReviewsStand(cfg, s, z);
  }

  /** A write begun: its key, its review and its place are taken together. */
  lemma WriteKeeps(cfg: Config, s: State, n: nat, r: nat)
    requires Inv(cfg, s) && n < |s.tickets| && s.tickets[n].role == Unplaced && s.tickets[n].stage == Permitting
    requires !cfg.isRead(s.tickets[n].request) && WriteKeyOf(s.tickets[n].request) !in s.writes
    requires r < |s.reviews| && s.reviews[r].purpose == OneWrite(n)
      && s.reviews[r].content == ContentOf(s.tickets[n].request, s.tickets[n].account)
    ensures var t := s.tickets[n].(role := Writer(r), stage := Waiting);
      Inv(cfg, Put(s, n, t).(writes := s.writes[WriteKeyOf(t.request) := n]))
  {
    var t := s.tickets[n].(role := Writer(r), stage := Waiting);
    var z := Put(s, n, t).(writes := s.writes[WriteKeyOf(t.request) := n]);
    assert SentOk(s, n);
    forall m | 0 <= m < |z.tickets|
      ensures TicketOk(cfg, z, m) && SentOk(z, m)
    {
      assert TicketOk(cfg, s, m) && SentOk(s, m);
    }
    ReviewsStand(cfg, s, z);
  }

  lemma PlacedKeeps(cfg: Config, s: State, n: nat)
    requires Inv(cfg, s) && n < |s.tickets| && s.tickets[n].role == Unplaced && s.tickets[n].stage == Permitting
    ensures Inv(cfg, Placed(cfg, s, n))
  {
    var t := s.tickets[n];
    var content := ContentOf(t.request, t.account);
    if cfg.isRead(t.request) {
      var key := ReadKeyOf(cfg, t.request);
      if key in s.readReviews {
        JoinKeeps(cfg, s, n, Reader(s.readReviews[key]));
      } else {
        ReviewMoreKeeps(cfg, s, Reads(key), content);
        var more := s.(reviews := s.reviews + [Begun(cfg, Reads(key), content)]);
        PathKeeps(cfg, more, key, |s.reviews|);
        JoinKeeps(cfg, more.(readReviews := s.readReviews[key := |s.reviews|]), n, Reader(|s.reviews|));
      }
    } else if WriteKeyOf(t.request) in s.writes {
      JoinKeeps(cfg, s, n, Twin(s.writes[WriteKeyOf(t.request)]));
    } else {
      ReviewMoreKeeps(cfg, s, OneWrite(n), content);
      WriteKeeps(cfg, s.(reviews := s.reviews + [Begun(cfg, OneWrite(n), content)]), n, |s.reviews|);
    }
  }

  lemma NewTicketKeeps(cfg: Config, s: State, t: Ticket)
    requires Inv(cfg, s)
    requires t.role == Unplaced && (t.stage == Permitting || t.stage.Answered?)
    ensures Inv(cfg, s.(tickets := s.tickets + [t]))
  {
    var z := s.(tickets := s.tickets + [t]);
    forall m | 0 <= m < |z.tickets|
      ensures TicketOk(cfg, z, m) && SentOk(z, m)
    {
      if m < |s.tickets| {
        assert TicketOk(cfg, s, m) && SentOk(s, m);
      }
    }
    ReviewsStand(cfg, s, z);
  }

  lemma JevTicketKeeps(cfg: Config, s: State, t: Ticket)
    requires Inv(cfg, s) && t.role == AsksJev(s.jevSequence) && t.stage == Sending
    ensures Inv(cfg, s.(tickets := s.tickets + [t], jevSequence := s.jevSequence + 1))
  {
    var z := s.(tickets := s.tickets + [t], jevSequence := s.jevSequence + 1);
    forall m | 0 <= m < |z.tickets|
      ensures TicketOk(cfg, z, m) && SentOk(z, m)
    {
      if m < |s.tickets| {
        assert TicketOk(cfg, s, m) && SentOk(s, m);
      }
    }
    ReviewsStand(cfg, s, z);
    forall m, k | 0 <= m < k < |z.tickets| && z.tickets[m].role.AsksJev?
      ensures z.tickets[m].role != z.tickets[k].role
    {
      assert TicketOk(cfg, s, m);
    }
  }

  lemma ArrivedKeeps(cfg: Config, s: State, r: Request, account: Option<Account>)
    requires Inv(cfg, s)
    ensures Inv(cfg, Arrived(cfg, s, r, account))
  {
    var nobody := Ticket(r, Account("", false), Unplaced, Permitting);
    if cfg.isJev(r.url) {
      if !cfg.jev {
        NewTicketKeeps(cfg, s, nobody.(stage := Answered(JevAbsent)));
      } else if r.verb != "POST" || !cfg.jevPath(r.url) {
        NewTicketKeeps(cfg, s, nobody.(stage := Answered(JevMisasked)));
      } else {
        JevTicketKeeps(cfg, s, nobody.(role := AsksJev(s.jevSequence), stage := Sending));
      }
    } else if !cfg.routed(r.url) {
      NewTicketKeeps(cfg, s, nobody.(stage := Answered(NoSuchRoute)));
    } else if account.None? {
      NewTicketKeeps(cfg, s, nobody.(stage := Answered(NoAccount)));
    } else {
      NewTicketKeeps(cfg, s, nobody.(account := account.value));
      if !account.value.hasPermit {
        PlacedKeeps(cfg, s.(tickets := s.tickets + [nobody.(account := account.value)]), |s.tickets|);
      }
    }
  }

  /** A change to one review that leaves what it is of, and never reopens an undenied one. */
  lemma ReviewChangeKeeps(cfg: Config, s: State, z: State, r: nat)
    requires Inv(cfg, s) && r < |s.reviews| && |z.reviews| == |s.reviews|
    requires z.tickets == s.tickets && z.writes == s.writes && z.readReviews == s.readReviews
    requires z.jevSequence == s.jevSequence && z.sends == s.sends
    requires forall q :: 0 <= q < |s.reviews| && q != r ==> z.reviews[q] == s.reviews[q]
    requires z.reviews[r].purpose == s.reviews[r].purpose && z.reviews[r].content == s.reviews[r].content
    requires s.reviews[r].progress != Decided(None)
    requires forall q :: 0 <= q < |z.reviews| ==> ReviewOk(cfg, z, q)
    requires IdsDistinct(z)
    ensures Inv(cfg, z)
  {
    forall m | 0 <= m < |z.tickets|
      ensures TicketOk(cfg, z, m) && SentOk(z, m)
    {
      assert TicketOk(cfg, s, m) && SentOk(s, m);
    }
  }

  lemma DigestedKeeps(cfg: Config, s: State, r: nat)
    requires Inv(cfg, s) && r < |s.reviews| && s.reviews[r].progress == Digesting
    ensures Inv(cfg, Digested(cfg, s, r))
  {
    var z := Digested(cfg, s, r);
    forall q | 0 <= q < |z.reviews|
      ensures ReviewOk(cfg, z, q)
    {
      assert ReviewOk(cfg, s, q);
    }
    forall p, q | 0 <= p < q < |z.reviews| && z.reviews[p].id.Some? && z.reviews[q].id.Some?
      ensures z.reviews[p].id != z.reviews[q].id
    {
      assert ReviewOk(cfg, s, p) && ReviewOk(cfg, s, q);
    }
    ReviewChangeKeeps(cfg, s, z, r);
  }

  lemma RuledKeeps(cfg: Config, s: State, r: nat, verdict: Option<Option<string>>)
    requires Inv(cfg, s) && r < |s.reviews| && s.reviews[r].progress == Deciding
    ensures Inv(cfg, Ruled(s, r, verdict))
  {
    var z := Ruled(s, r, verdict);
    forall q | 0 <= q < |z.reviews|
      ensures ReviewOk(cfg, z, q)
    {
      assert ReviewOk(cfg, s, q);
    }
    ReviewChangeKeeps(cfg, s, z, r);
  }

  lemma SendKeeps(cfg: Config, s: State, n: nat)
    requires Inv(cfg, s) && n < |s.tickets| && s.tickets[n].stage == Waiting
    requires ReviewOf(s.tickets[n]).Some? && ReviewOf(s.tickets[n]).value < |s.reviews|
    requires s.reviews[ReviewOf(s.tickets[n]).value].progress == Decided(None)
    ensures Inv(cfg, Put(s, n, s.tickets[n].(stage := Sending)).(sends := s.sends + [n]))
  {
    var z := Put(s, n, s.tickets[n].(stage := Sending)).(sends := s.sends + [n]);
    assert SentOk(s, n);
    forall m | 0 <= m < |z.tickets|
      ensures TicketOk(cfg, z, m) && SentOk(z, m)
    {
      assert TicketOk(cfg, s, m) && SentOk(s, m);
    }
    ReviewsStand(cfg, s, z);
    forall i | 0 <= i < |s.sends|
      ensures s.sends[i] != n
    {
      assert s.sends[i] in s.sends;
    }
  }

  /** Every step of every request keeps the invariant. */
  lemma StepKeeps(cfg: Config, s: State, e: Event)
    requires Inv(cfg, s) && Enabled(s, e)
    ensures Inv(cfg, Step(cfg, s, e))
  {
    match e
    case Arrive(r, account) => ArrivedKeeps(cfg, s, r, account);
    case Permit(n, permit) =>
      assert TicketOk(cfg, s, n);
      if permit == Granted {
        PlacedKeeps(cfg, s, n);
      } else {
        EndKeeps(cfg, s, n, Permitted(cfg, s, n, permit).tickets[n].stage.answer);
      }
    case Digest(r) => DigestedKeeps(cfg, s, r);
    case Rule(r, verdict) => RuledKeeps(cfg, s, r, verdict);
    case Resume(n) =>
      assert TicketOk(cfg, s, n) && SentOk(s, n);
      var r := ReviewOf(s.tickets[n]).value;
      if s.reviews[r].progress == Decided(None) {
        SendKeeps(cfg, s, n);
      } else {
        var progress := s.reviews[r].progress;
        EndKeeps(cfg, s, n, if progress == ReviewThrew then Rejected else Refused(progress.refusal.value));
      }
    case Reply(n, response) =>
      assert TicketOk(cfg, s, n);
      EndKeeps(cfg, s, n, Replied(s, n, response).tickets[n].stage.answer);
    case Share(n) =>
      assert TicketOk(cfg, s, n) && SentOk(s, n);
      EndKeeps(cfg, s, n, s.tickets[s.tickets[n].role.owner].stage.answer);
  }

  lemma {:induction false} RunKeeps(cfg: Config, s: State, events: seq<Event>)
    requires Inv(cfg, s)
    ensures Inv(cfg, RunAll(cfg, s, events))
    decreases |events|
  {
    if events != [] {
      if Enabled(s, events[0]) {
        StepKeeps(cfg, s, events[0]);
        RunKeeps(cfg, Step(cfg, s, events[0]), events[1..]);
      } else {
        RunKeeps(cfg, s, events[1..]);
      }
    }
  }

  // ---- what every interleaving keeps ---------------------------------------------------

  ghost predicate Reachable(cfg: Config, s: State) {
    exists events :: s == RunAll(cfg, Opened, events)
  }

  lemma ReachableKeeps(cfg: Config, s: State)
    requires Reachable(cfg, s)
    ensures Inv(cfg, s)
  {
    var events :| s == RunAll(cfg, Opened, events);
    RunKeeps(cfg, Opened, events);
  }

  predicate Bodyless(r: Request) {
    r.body == None || r.body == Some("")
  }

  /** One method, URL and body; no body and an empty one are the same. */
  predicate SameWrite(a: Request, b: Request) {
    a.verb == b.verb && a.url == b.url && (a.body == b.body || (Bodyless(a) && Bodyless(b)))
  }

  /** Nothing is sent twice, and of the requests that are one write at most one is sent. */
  lemma WritesSentOnce(cfg: Config, s: State, i: nat, j: nat)
    requires Reachable(cfg, s) && i < |s.sends| && j < |s.sends|
    ensures s.sends[i] < |s.tickets| && s.sends[j] < |s.tickets|
    ensures s.sends[i] == s.sends[j] ==> i == j
    ensures var a, b := s.tickets[s.sends[i]].request, s.tickets[s.sends[j]].request;
      !cfg.isRead(a) && !cfg.isRead(b) && SameWrite(a, b) ==> i == j
  {
    ReachableKeeps(cfg, s);
    var m, n := s.sends[i], s.sends[j];
    assert m in s.sends && n in s.sends;
    assert TicketOk(cfg, s, m) && TicketOk(cfg, s, n) && SentOk(s, m) && SentOk(s, n);
  }

  /** Every permitted repeat of one write has one answer, the one its first sending got. */
  lemma RepeatsShareOneAnswer(cfg: Config, s: State, m: nat, n: nat)
    requires Reachable(cfg, s) && m < |s.tickets| && n < |s.tickets|
    requires s.tickets[m].role.Writer? || s.tickets[m].role.Twin?
    requires s.tickets[n].role.Writer? || s.tickets[n].role.Twin?
    requires SameWrite(s.tickets[m].request, s.tickets[n].request)
    requires s.tickets[m].stage.Answered? && s.tickets[n].stage.Answered?
    ensures s.tickets[m].stage == s.tickets[n].stage
  {
    ReachableKeeps(cfg, s);
    assert TicketOk(cfg, s, m) && TicketOk(cfg, s, n);
  }

  /** Whatever was sent had a review that completed and denied nothing: a write its own, of
      exactly its account, method, URL and body; a read one of the same method and path.
      Without supervision nothing is sent. */
  lemma SendsAreReviewed(cfg: Config, s: State, n: nat)
    requires Reachable(cfg, s) && n in s.sends
    ensures cfg.reviewed && n < |s.tickets| && ReviewOf(s.tickets[n]).Some?
      && ReviewOf(s.tickets[n]).value < |s.reviews|
    ensures var t := s.tickets[n];
      var v := s.reviews[ReviewOf(t).value];
      && v.progress == Decided(None)
      && (!cfg.isRead(t.request) ==> v.purpose == OneWrite(n))
      && (!cfg.isRead(t.request) ==>
            v.content == Content(t.account.name, t.request.verb, t.request.url, t.request.body))
      && (cfg.isRead(t.request) ==>
            v.content.verb == t.request.verb && cfg.place(v.content.url) == cfg.place(t.request.url))
  {
    ReachableKeeps(cfg, s);
    assert TicketOk(cfg, s, n) && SentOk(s, n);
    assert ReviewOk(cfg, s, ReviewOf(s.tickets[n]).value);
  }

  /** The step that finds the review awaited by `n` decided, and nothing refused. */
  ghost predicate Clears(s: State, e: Event, n: nat) {
    && Enabled(s, e) && e == Resume(n)
    && s.reviews[ReviewOf(s.tickets[n]).value].progress == Decided(None)
  }

  lemma SendStep(cfg: Config, s: State, e: Event)
    requires Enabled(s, e)
    ensures var z := Step(cfg, s, e);
      z.sends == s.sends || (e.Resume? && Clears(s, e, e.n) && z.sends == s.sends + [e.n])
  {
    if !e.Resume? {
      OthersSendNothing(cfg, s, e);
    }
  }

  lemma OthersSendNothing(cfg: Config, s: State, e: Event)
    requires Enabled(s, e) && !e.Resume?
    ensures Step(cfg, s, e).sends == s.sends
  {
  }

  lemma {:induction false} RunSplit(cfg: Config, s: State, events: seq<Event>, last: Event)
    ensures var z := RunAll(cfg, s, events);
      RunAll(cfg, s, events + [last]) == if Enabled(z, last) then Step(cfg, z, last) else z
    decreases |events|
  {
    if events == [] {
      assert [last][1..] == [];
    } else {
      assert (events + [last])[1..] == events[1..] + [last];
      RunSplit(cfg, if Enabled(s, events[0]) then Step(cfg, s, events[0]) else s, events[1..], last);
    }
  }

  /** Every send of a run was made by one of its events, which found the review that its
      request awaits decided with no refusal. */
  lemma {:induction false} SendFollowsReview(cfg: Config, events: seq<Event>, i: nat)
    requires i < |RunAll(cfg, Opened, events).sends|
    ensures exists k ::
      && 0 <= k < |events|
      && Clears(RunAll(cfg, Opened, events[..k]), events[k], RunAll(cfg, Opened, events).sends[i])
      && |RunAll(cfg, Opened, events[..k]).sends| == i
    decreases |events|
  {
    if events != [] {
      var before, last := events[..|events| - 1], events[|events| - 1];
      var s, n := RunAll(cfg, Opened, before), RunAll(cfg, Opened, events).sends[i];
      assert before + [last] == events;
      RunSplit(cfg, Opened, before, last);
      if Enabled(s, last) {
        SendStep(cfg, s, last);
      }
      if i < |s.sends| {
        SendFollowsReview(cfg, before, i);
        var k :| 0 <= k < |before| && Clears(RunAll(cfg, Opened, before[..k]), before[k], s.sends[i])
          && |RunAll(cfg, Opened, before[..k]).sends| == i;
        assert before[..k] == events[..k] && before[k] == events[k];
      } else {
        assert Clears(RunAll(cfg, Opened, events[..|before|]), events[|before|], n);
      }
    }
  }

  /** No two reviews share an id, and with a digest that tells contents apart the id tells the content. */
  lemma ReviewIdsDistinct(cfg: Config, s: State, q: nat, r: nat)
    requires Reachable(cfg, s) && q < |s.reviews| && r < |s.reviews|
    requires s.reviews[q].id.Some? && s.reviews[r].id.Some?
    ensures s.reviews[q].id == s.reviews[r].id <==> q == r
    ensures s.reviews[q].id.value.digest == cfg.digest(s.reviews[q].content)
  {
    ReachableKeeps(cfg, s);
    assert ReviewOk(cfg, s, q);
  }

  /** The step is of request `n` itself, or of the review it awaits. */
  predicate MovesRequest(s: State, e: Event, n: nat)
    requires n < |s.tickets|
  {
    match e
    case Arrive(_, _) => false
    case Digest(r) => ReviewOf(s.tickets[n]) == Some(r)
    case Rule(r, _) => ReviewOf(s.tickets[n]) == Some(r)
    case _ => e.n == n
  }

  /** The request that `n` waits on: the write it follows until that is answered, else itself. */
  function Behind(s: State, n: nat): (b: nat)
    requires n < |s.tickets|
    ensures b < |s.tickets|
  {
    var role := s.tickets[n].role;
    if role.Twin? && role.owner < |s.tickets| && !s.tickets[role.owner].stage.Answered? then role.owner else n
  }

  /** No request waits on nothing: of one not yet answered a step can run, its own or its
      review's, or, of a write that follows another, that other's. */
  lemma NoneStuck(cfg: Config, s: State, n: nat)
    requires Reachable(cfg, s) && n < |s.tickets| && !s.tickets[n].stage.Answered?
    ensures exists e :: Enabled(s, e) && MovesRequest(s, e, Behind(s, n))
  {
    ReachableKeeps(cfg, s);
    assert TicketOk(cfg, s, n);
    var b := Behind(s, n);
    if s.tickets[b].role.Twin? {
      assert Enabled(s, Share(n)) && MovesRequest(s, Share(n), n);
    } else {
      OwnMove(cfg, s, b);
    }
  }

  lemma OwnMove(cfg: Config, s: State, n: nat)
    requires Inv(cfg, s) && n < |s.tickets| && !s.tickets[n].stage.Answered? && !s.tickets[n].role.Twin?
    ensures exists e :: Enabled(s, e) && MovesRequest(s, e, n)
  {
    assert TicketOk(cfg, s, n);
    var e := OwnStep(s, n);
    assert Enabled(s, e) && MovesRequest(s, e, n);
  }

  function OwnStep(s: State, n: nat): Event
    requires n < |s.tickets|
    requires s.tickets[n].stage == Waiting ==>
      ReviewOf(s.tickets[n]).Some? && ReviewOf(s.tickets[n]).value < |s.reviews|
  {
    var t := s.tickets[n];
    if t.stage == Permitting then Permit(n, Granted)
    else if t.stage != Waiting then Reply(n, None)
    else
      match s.reviews[ReviewOf(t).value].progress
      case Digesting => Digest(ReviewOf(t).value)
      case Deciding => Rule(ReviewOf(t).value, None)
      case _ => Resume(n)
  }

  // ---- what is settled stays settled ---------------------------------------------------

  ghost predicate Later(s: State, z: State) {
    && |s.tickets| <= |z.tickets| && |s.reviews| <= |z.reviews| && s.sends <= z.sends
    && (forall n :: 0 <= n < |s.tickets| ==>
          && z.tickets[n].request == s.tickets[n].request
          && (s.tickets[n].role != Unplaced ==> z.tickets[n].role == s.tickets[n].role)
          && (s.tickets[n].stage.Answered? ==> z.tickets[n] == s.tickets[n]))
    && (forall r :: 0 <= r < |s.reviews| ==>
          && z.reviews[r].content == s.reviews[r].content
          && (s.reviews[r].id.Some? ==> z.reviews[r].id == s.reviews[r].id)
          && (s.reviews[r].progress.Decided? ==> z.reviews[r] == s.reviews[r]))
    && (forall key :: key in s.writes ==> key in z.writes && z.writes[key] == s.writes[key])
  }

  /** One ticket moved on, perhaps with a review, a write or a send more. */
  lemma MoveLater(s: State, z: State, n: nat)
    requires n < |s.tickets| && |z.tickets| == |s.tickets| && !s.tickets[n].stage.Answered?
    requires forall m :: 0 <= m < |s.tickets| && m != n ==> z.tickets[m] == s.tickets[m]
    requires z.tickets[n].request == s.tickets[n].request
    requires s.tickets[n].role != Unplaced ==> z.tickets[n].role == s.tickets[n].role
    requires s.reviews <= z.reviews && s.sends <= z.sends
    requires forall key :: key in s.writes ==> key in z.writes && z.writes[key] == s.writes[key]
    ensures Later(s, z)
  {
  }

  /** One review moved on. */
  lemma ReviewLater(s: State, z: State, r: nat)
    requires r < |s.reviews| && |z.reviews| == |s.reviews| && !s.reviews[r].progress.Decided?
    requires forall q :: 0 <= q < |s.reviews| && q != r ==> z.reviews[q] == s.reviews[q]
    requires z.reviews[r].content == s.reviews[r].content
    requires s.reviews[r].id.Some? ==> z.reviews[r].id == s.reviews[r].id
    requires z.tickets == s.tickets && z.sends == s.sends && z.writes == s.writes
    ensures Later(s, z)
  {
  }

  lemma PlacedLater(cfg: Config, s: State, n: nat)
    requires n < |s.tickets| && s.tickets[n].role == Unplaced && s.tickets[n].stage == Permitting
    ensures Later(s, Placed(cfg, s, n))
  {
    MoveLater(s, Placed(cfg, s, n), n);
  }

  lemma ArrivedLater(cfg: Config, s: State, r: Request, account: Option<Account>)
    ensures Later(s, Arrived(cfg, s, r, account))
  {
    var nobody := Ticket(r, Account("", false), Unplaced, Permitting);
    if !cfg.isJev(r.url) && cfg.routed(r.url) && account.Some? && !account.value.hasPermit {
      var seen := s.(tickets := s.tickets + [nobody.(account := account.value)]);
      PlacedLater(cfg, seen, |s.tickets|);
      assert Later(s, seen);
    }
  }

  lemma EndLater(s: State, n: nat, answer: Answer)
    requires n < |s.tickets| && !s.tickets[n].stage.Answered?
    ensures Later(s, End(s, n, answer))
  {
    MoveLater(s, End(s, n, answer), n);
  }

  lemma SameLater(s: State)
    ensures Later(s, s)
  {
  }

  lemma ResumedLater(s: State, n: nat, r: nat)
    requires n < |s.tickets| && s.tickets[n].stage == Waiting && r < |s.reviews|
    ensures Later(s, Resumed(s, n, r))
  {
    match s.reviews[r].progress
    case Decided(None) => MoveLater(s, Resumed(s, n, r), n);
    case Decided(Some(reason)) => EndLater(s, n, Refused(reason));
    case ReviewThrew => EndLater(s, n, Rejected);
    case _ => SameLater(s);
  }

  lemma AnswerLater(cfg: Config, s: State, e: Event)
    requires Enabled(s, e) && (e.Reply? || e.Share? || (e.Permit? && e.permit != Granted))
    ensures Later(s, Step(cfg, s, e))
  {
    match e
    case Permit(n, permit) =>
      EndLater(s, n, if permit.Withheld? then NoAccount
                     else if permit.Because? then Refused(permit.reason) else Rejected);
    case Reply(n, response) =>
      EndLater(s, n, if response.Some? then FromAccount(response.value)
                     else if s.tickets[n].role.Reader? then NotReached
                     else if s.tickets[n].role.AsksJev? then JevUnconfirmed else Unconfirmed);
    case Share(n) =>
      EndLater(s, n, s.tickets[s.tickets[n].role.owner].stage.answer);
  }

  lemma ReviewsLater(cfg: Config, s: State, e: Event)
    requires Enabled(s, e) && (e.Digest? || e.Rule?) && (e.Digest? ==> s.reviews[e.r].id == None)
    ensures Later(s, Step(cfg, s, e))
  {
    ReviewLater(s, Step(cfg, s, e), e.r);
  }

  lemma StepLater(cfg: Config, s: State, e: Event)
    requires Inv(cfg, s) && Enabled(s, e)
    ensures Later(s, Step(cfg, s, e))
  {
    if e.Arrive? {
      ArrivedLater(cfg, s, e.request, e.account);
    } else if e.Permit? && e.permit == Granted {
      assert TicketOk(cfg, s, e.n);
      PlacedLater(cfg, s, e.n);
    } else if e.Digest? || e.Rule? {
      assert ReviewOk(cfg, s, e.r);
      ReviewsLater(cfg, s, e);
    } else if e.Resume? {
      ResumedLater(s, e.n, ReviewOf(s.tickets[e.n]).value);
    } else {
      AnswerLater(cfg, s, e);
    }
  }

  /** Answers, places, review ids and verdicts are final, whatever runs after. */
  lemma {:induction false} SettledStays(cfg: Config, s: State, events: seq<Event>)
    requires Inv(cfg, s)
    ensures Later(s, RunAll(cfg, s, events))
    decreases |events|
  {
    if events != [] {
      var next := if Enabled(s, events[0]) then Step(cfg, s, events[0]) else s;
      if Enabled(s, events[0]) {
        StepKeeps(cfg, s, events[0]);
        StepLater(cfg, s, events[0]);
      }
      SettledStays(cfg, next, events[1..]);
    }
  }

  ghost predicate HasId(s: State, id: ReviewId) {
    exists q :: 0 <= q < |s.reviews| && s.reviews[q].id == Some(id)
  }

  /** The reviews of one digest are numbered without a gap, from none. */
  ghost predicate Numbered(s: State) {
    forall d: string, k: nat :: d in s.repeats && k < s.repeats[d] ==> HasId(s, ReviewId(d, k))
  }

  lemma OthersNumberNone(cfg: Config, s: State, e: Event)
    requires Enabled(s, e) && !e.Digest?
    ensures Step(cfg, s, e).repeats == s.repeats
  {
  }

  lemma IdsStay(s: State, z: State, id: ReviewId)
    requires Later(s, z) && HasId(s, id)
    ensures HasId(z, id)
  {
    var q :| 0 <= q < |s.reviews| && s.reviews[q].id == Some(id);
    assert z.reviews[q].id == Some(id);
  }

  lemma StepNumbers(cfg: Config, s: State, e: Event)
    requires Inv(cfg, s) && Enabled(s, e) && Numbered(s)
    ensures Numbered(Step(cfg, s, e))
  {
    var z := Step(cfg, s, e);
    StepLater(cfg, s, e);
    if !e.Digest? {
      OthersNumberNone(cfg, s, e);
    }
    forall d: string, k: nat | d in z.repeats && k < z.repeats[d] ensures HasId(z, ReviewId(d, k)) {
      if d in s.repeats && k < s.repeats[d] {
        IdsStay(s, z, ReviewId(d, k));
      } else {
        assert z.reviews[e.r].id == Some(ReviewId(d, k));
      }
    }
  }

  lemma {:induction false} RunNumbers(cfg: Config, s: State, events: seq<Event>)
    requires Inv(cfg, s) && Numbered(s)
    ensures Numbered(RunAll(cfg, s, events))
    decreases |events|
  {
    if events != [] {
      var next := if Enabled(s, events[0]) then Step(cfg, s, events[0]) else s;
      if Enabled(s, events[0]) {
        StepKeeps(cfg, s, events[0]);
        StepNumbers(cfg, s, events[0]);
      }
      RunNumbers(cfg, next, events[1..]);
    }
  }

  /** An id's number is how many reviews of its digest were there before: each lower number,
      from zero on, is another review's. */
  lemma IdsAreCounted(cfg: Config, s: State, r: nat, k: nat)
    requires Reachable(cfg, s) && r < |s.reviews| && s.reviews[r].id.Some? && k < s.reviews[r].id.value.repeat
    ensures HasId(s, ReviewId(s.reviews[r].id.value.digest, k))
  {
    var events :| s == RunAll(cfg, Opened, events);
    ReachableKeeps(cfg, s);
    assert ReviewOk(cfg, s, r);
    RunKeeps(cfg, Opened, []);
    RunNumbers(cfg, Opened, events);
  }
}
