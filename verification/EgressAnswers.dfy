/** What each request of an exec call is answered, told from the events of the run. */
module EgressAnswers {
  import opened Wrappers
  import opened Egress
  import opened EgressLaws

  /** What a request is answered on arrival, if anything is. */
  predicate TurnedAway(cfg: Config, r: Request, account: Option<Account>, a: Answer) {
    if cfg.isJev(r.url) then
      if !cfg.jev then a == JevAbsent else a == JevMisasked && !(r.verb == "POST" && cfg.jevPath(r.url))
    else if !cfg.routed(r.url) then a == NoSuchRoute
    else a == NoAccount && account == None
  }

  /** What a request to its account, or to Jev, that got no reply is told: to try again only
      when it reads, or asks Jev, and so changes nothing; a write is not to be repeated. */
  predicate ToldLost(cfg: Config, r: Request, a: Answer) {
    a == if cfg.isJev(r.url) then JevUnconfirmed else if cfg.isRead(r) then NotReached else Unconfirmed
  }

  /** The event answers request `n` with `a`, of its own. */
  ghost predicate Ends(cfg: Config, s: State, e: Event, n: nat, a: Answer) {
    && Enabled(s, e)
    && match e
       case Arrive(r, account) => n == |s.tickets| && TurnedAway(cfg, r, account, a)
       case Permit(m, permit) =>
         && m == n
         && ((permit == Withheld && a == NoAccount) || (permit == PermitThrew && a == Rejected)
             || (permit.Because? && a == Refused(permit.reason)))
       case Resume(m) =>
         && m == n
         && var progress := s.reviews[ReviewOf(s.tickets[n]).value].progress;
            || (progress == ReviewThrew && a == Rejected)
            || (progress.Decided? && progress.refusal.Some? && a == Refused(progress.refusal.value))
       case Reply(m, response) =>
         && m == n
         && if response.Some? then a == FromAccount(response.value) else ToldLost(cfg, s.tickets[n].request, a)
       case _ => false
  }

  /** A repeat takes the answer of the write it repeats. */
  ghost predicate Shares(s: State, e: Event, n: nat, a: Answer) {
    Enabled(s, e) && e == Share(n) && s.tickets[s.tickets[n].role.owner].stage == Answered(a)
  }

  // ---- requests keep to their kind -------------------------------------------------------

  /** Jev is asked by exactly the requests to its host that are not turned away. */
  ghost predicate KindOk(cfg: Config, t: Ticket) {
    && (t.stage == Permitting ==> !cfg.isJev(t.request.url))
    && (t.role.AsksJev? ==> cfg.isJev(t.request.url))
    && (t.role.Reader? || t.role.Writer? || t.role.Twin? ==> !cfg.isJev(t.request.url))
  }

  ghost predicate Kinds(cfg: Config, s: State) {
    forall n :: 0 <= n < |s.tickets| ==> KindOk(cfg, s.tickets[n])
  }

  lemma PutKinds(cfg: Config, s: State, n: nat, t: Ticket)
    requires Kinds(cfg, s) && n < |s.tickets| && KindOk(cfg, t)
    ensures Kinds(cfg, Put(s, n, t))
  {
  }

  lemma EndKinds(cfg: Config, s: State, n: nat, a: Answer)
    requires Kinds(cfg, s) && n < |s.tickets|
    ensures Kinds(cfg, End(s, n, a))
  {
    assert KindOk(cfg, s.tickets[n]);
    PutKinds(cfg, s, n, s.tickets[n].(stage := Answered(a)));
  }

  lemma PlacedKinds(cfg: Config, s: State, n: nat)
    requires Kinds(cfg, s) && n < |s.tickets| && s.tickets[n].stage == Permitting
    ensures Kinds(cfg, Placed(cfg, s, n))
  {
    assert KindOk(cfg, s.tickets[n]);
    PutKinds(cfg, s, n, Placed(cfg, s, n).tickets[n]);
  }

  lemma ArrivedKinds(cfg: Config, s: State, r: Request, account: Option<Account>)
    requires Kinds(cfg, s)
    ensures Kinds(cfg, Arrived(cfg, s, r, account))
  {
    var n := |s.tickets|;
    var nobody := Ticket(r, Account("", false), Unplaced, Permitting);
    if !cfg.isJev(r.url) && cfg.routed(r.url) && account.Some? {
      var seen := s.(tickets := s.tickets + [nobody.(account := account.value)]);
      assert Kinds(cfg, seen);
      PlacedKinds(cfg, seen, n);
    }
  }

  lemma StepKinds(cfg: Config, s: State, e: Event)
    requires Kinds(cfg, s) && Enabled(s, e)
    ensures Kinds(cfg, Step(cfg, s, e))
  {
    match e
    case Arrive(r, account) => ArrivedKinds(cfg, s, r, account);
    case Permit(n, permit) =>
      if permit == Granted {
        PlacedKinds(cfg, s, n);
      } else {
        EndKinds(cfg, s, n, Permitted(cfg, s, n, permit).tickets[n].stage.answer);
      }
    case Digest(r) =>
    case Rule(r, verdict) =>
    case Resume(n) =>
      assert KindOk(cfg, s.tickets[n]);
      PutKinds(cfg, s, n, Resumed(s, n, ReviewOf(s.tickets[n]).value).tickets[n]);
    case Reply(n, response) => EndKinds(cfg, s, n, Replied(s, n, response).tickets[n].stage.answer);
    case Share(n) => EndKinds(cfg, s, n, s.tickets[s.tickets[n].role.owner].stage.answer);
  }

  // ---- one step --------------------------------------------------------------------------

  ghost predicate HasAnswer(s: State, n: nat, a: Answer) {
    n < |s.tickets| && s.tickets[n].stage == Answered(a)
  }

  lemma EndAnswers(s: State, m: nat, x: Answer, n: nat, a: Answer)
    requires m < |s.tickets| && !s.tickets[m].stage.Answered?
    ensures HasAnswer(End(s, m, x), n, a) <==> HasAnswer(s, n, a) || (n == m && a == x)
  {
  }

  lemma PlacedAnswers(cfg: Config, s: State, m: nat, n: nat, a: Answer)
    requires m < |s.tickets| && !s.tickets[m].stage.Answered?
    ensures HasAnswer(Placed(cfg, s, m), n, a) <==> HasAnswer(s, n, a)
  {
  }

  lemma ArriveAnswers(cfg: Config, s: State, r: Request, account: Option<Account>, n: nat, a: Answer)
    ensures HasAnswer(Arrived(cfg, s, r, account), n, a) <==>
      HasAnswer(s, n, a) || Ends(cfg, s, Arrive(r, account), n, a)
  {
    var nobody := Ticket(r, Account("", false), Unplaced, Permitting);
    if !cfg.isJev(r.url) && cfg.routed(r.url) && account.Some? {
      var seen := s.(tickets := s.tickets + [nobody.(account := account.value)]);
      PlacedAnswers(cfg, seen, |s.tickets|, n, a);
      assert HasAnswer(seen, n, a) <==> HasAnswer(s, n, a);
    }
  }

  lemma PermitAnswers(cfg: Config, s: State, m: nat, permit: Verdict, n: nat, a: Answer)
    requires Enabled(s, Permit(m, permit))
    ensures HasAnswer(Permitted(cfg, s, m, permit), n, a) <==>
      HasAnswer(s, n, a) || Ends(cfg, s, Permit(m, permit), n, a)
  {
    if permit == Granted {
      PlacedAnswers(cfg, s, m, n, a);
    } else {
      EndAnswers(s, m, Permitted(cfg, s, m, permit).tickets[m].stage.answer, n, a);
    }
  }

  lemma ResumeAnswers(cfg: Config, s: State, m: nat, n: nat, a: Answer)
    requires Enabled(s, Resume(m))
    ensures HasAnswer(Step(cfg, s, Resume(m)), n, a) <==> HasAnswer(s, n, a) || Ends(cfg, s, Resume(m), n, a)
  {
    var progress := s.reviews[ReviewOf(s.tickets[m]).value].progress;
    if progress == ReviewThrew {
      EndAnswers(s, m, Rejected, n, a);
    } else if progress.refusal.Some? {
      EndAnswers(s, m, Refused(progress.refusal.value), n, a);
    }
  }

  lemma ReplyAnswers(cfg: Config, s: State, m: nat, response: Option<string>, n: nat, a: Answer)
    requires Inv(cfg, s) && Kinds(cfg, s) && Enabled(s, Reply(m, response))
    ensures HasAnswer(Replied(s, m, response), n, a) <==>
      HasAnswer(s, n, a) || Ends(cfg, s, Reply(m, response), n, a)
  {
    var x := Replied(s, m, response).tickets[m].stage.answer;
    ReplyTells(cfg, s, m, response);
    EndAnswers(s, m, x, n, a);
  }

  lemma ReplyTells(cfg: Config, s: State, m: nat, response: Option<string>)
    requires Inv(cfg, s) && Kinds(cfg, s) && Enabled(s, Reply(m, response))
    ensures var x := Replied(s, m, response).tickets[m].stage.answer;
      if response.Some? then x == FromAccount(response.value) else ToldLost(cfg, s.tickets[m].request, x)
  {
    assert TicketOk(cfg, s, m) && KindOk(cfg, s.tickets[m]);
  }

  lemma ShareAnswers(cfg: Config, s: State, m: nat, n: nat, a: Answer)
    requires Enabled(s, Share(m))
    ensures HasAnswer(Step(cfg, s, Share(m)), n, a) <==> HasAnswer(s, n, a) || Shares(s, Share(m), n, a)
  {
    EndAnswers(s, m, s.tickets[s.tickets[m].role.owner].stage.answer, n, a);
  }

  /** A step answers exactly whom its event answers, and leaves every answer given. */
  lemma StepAnswers(cfg: Config, s: State, e: Event, n: nat, a: Answer)
    requires Inv(cfg, s) && Kinds(cfg, s) && Enabled(s, e)
    ensures HasAnswer(Step(cfg, s, e), n, a) <==> HasAnswer(s, n, a) || Ends(cfg, s, e, n, a) || Shares(s, e, n, a)
  {
    match e
    case Arrive(r, account) => ArriveAnswers(cfg, s, r, account, n, a);
    case Permit(m, permit) => PermitAnswers(cfg, s, m, permit, n, a);
    case Digest(r) =>
    case Rule(r, verdict) =>
    case Resume(m) => ResumeAnswers(cfg, s, m, n, a);
    case Reply(m, response) => ReplyAnswers(cfg, s, m, response, n, a);
    case Share(m) => ShareAnswers(cfg, s, m, n, a);
  }

  // ---- over a run ------------------------------------------------------------------------

  /** The request whose fate `n` shares: the write it repeats, or itself. */
  function Origin(s: State, n: nat): nat
    requires n < |s.tickets|
  {
    if s.tickets[n].role.Twin? then s.tickets[n].role.owner else n
  }

  /** Some event of the run answered `n` itself with `a`. */
  ghost predicate Earned(cfg: Config, events: seq<Event>, n: nat, a: Answer) {
    exists k :: 0 <= k < |events| && Ends(cfg, RunAll(cfg, Opened, events[..k]), events[k], n, a)
  }

  lemma RunSnoc(cfg: Config, events: seq<Event>)
    requires events != []
    ensures var last := events[|events| - 1];
      var s := RunAll(cfg, Opened, events[..|events| - 1]);
      RunAll(cfg, Opened, events) == if Enabled(s, last) then Step(cfg, s, last) else s
  {
    var before, last := events[..|events| - 1], events[|events| - 1];
    var all := before + [last];
    RunSplit(cfg, Opened, before, last);
    assert all == events;
  }

  lemma {:induction false} RunGood(cfg: Config, events: seq<Event>)
    ensures Inv(cfg, RunAll(cfg, Opened, events)) && Kinds(cfg, RunAll(cfg, Opened, events))
    decreases |events|
  {
    assert Reachable(cfg, RunAll(cfg, Opened, events));
    ReachableKeeps(cfg, RunAll(cfg, Opened, events));
    if events != [] {
      RunGood(cfg, events[..|events| - 1]);
      RunSnoc(cfg, events);
      var s := RunAll(cfg, Opened, events[..|events| - 1]);
      if Enabled(s, events[|events| - 1]) {
        StepKinds(cfg, s, events[|events| - 1]);
      }
    }
  }

  lemma EarnedNext(cfg: Config, events: seq<Event>, n: nat, a: Answer)
    requires events != []
    ensures var before, last := events[..|events| - 1], events[|events| - 1];
      Earned(cfg, events, n, a) <==> Earned(cfg, before, n, a) || Ends(cfg, RunAll(cfg, Opened, before), last, n, a)
  {
    var before := events[..|events| - 1];
    if k :| 0 <= k < |before| && Ends(cfg, RunAll(cfg, Opened, before[..k]), before[k], n, a) {
      assert before[..k] == events[..k] && before[k] == events[k];
    }
    if k :| 0 <= k < |events| && Ends(cfg, RunAll(cfg, Opened, events[..k]), events[k], n, a) {
      if k < |before| {
        assert before[..k] == events[..k] && before[k] == events[k];
      }
    }
  }

  /** A request that repeats no write is answered with `a` exactly when an event of the run
      answered it so. */
  lemma {:induction false} AnswerEarned(cfg: Config, events: seq<Event>, n: nat, a: Answer)
    requires n < |RunAll(cfg, Opened, events).tickets|
    requires !RunAll(cfg, Opened, events).tickets[n].role.Twin?
    ensures HasAnswer(RunAll(cfg, Opened, events), n, a) <==> Earned(cfg, events, n, a)
    decreases |events|
  {
    if events != [] {
      var before, last := events[..|events| - 1], events[|events| - 1];
      var s := RunAll(cfg, Opened, before);
      RunGood(cfg, before);
      RunSnoc(cfg, events);
      EarnedNext(cfg, events, n, a);
      if Enabled(s, last) {
        StepAnswers(cfg, s, last, n, a);
        StepLater(cfg, s, last);
      }
      if n < |s.tickets| {
        if !s.tickets[n].role.Twin? {
          AnswerEarned(cfg, before, n, a);
        }
      } else {
        NotYetEarned(cfg, before, n, a);
      }
    }
  }

  lemma {:induction false} NotYetEarned(cfg: Config, events: seq<Event>, n: nat, a: Answer)
    requires n >= |RunAll(cfg, Opened, events).tickets|
    ensures !Earned(cfg, events, n, a)
    decreases |events|
  {
    if events != [] {
      var before, last := events[..|events| - 1], events[|events| - 1];
      RunGood(cfg, before);
      RunSnoc(cfg, events);
      EarnedNext(cfg, events, n, a);
      var s := RunAll(cfg, Opened, before);
      if Enabled(s, last) {
        StepAnswers(cfg, s, last, n, a);
        StepLater(cfg, s, last);
      }
      NotYetEarned(cfg, before, n, a);
    }
  }

  /** A write's repeat is answered only as the write it repeats, made before it with the same
      method, URL and body. */
  lemma TwinEarned(cfg: Config, events: seq<Event>, n: nat, a: Answer)
    requires HasAnswer(RunAll(cfg, Opened, events), n, a)
    requires RunAll(cfg, Opened, events).tickets[n].role.Twin?
    ensures var s := RunAll(cfg, Opened, events);
      && Origin(s, n) < |s.tickets| && s.tickets[Origin(s, n)].role.Writer?
      && SameWrite(s.tickets[Origin(s, n)].request, s.tickets[n].request)
      && Earned(cfg, events, Origin(s, n), a)
  {
    var s := RunAll(cfg, Opened, events);
    RunGood(cfg, events);
    assert TicketOk(cfg, s, n) && HasAnswer(s, Origin(s, n), a);
    AnswerEarned(cfg, events, Origin(s, n), a);
  }

  // ---- what the reviews were ruled -------------------------------------------------------

  /** Supervision's answer on review `r`, `None` when it threw, came in the run. */
  ghost predicate RuledIn(cfg: Config, events: seq<Event>, r: nat, verdict: Option<Option<string>>) {
    exists k :: 0 <= k < |events| && events[k] == Rule(r, verdict) &&
                Enabled(RunAll(cfg, Opened, events[..k]), events[k])
  }

  ghost predicate Ruling(s: State, r: nat, verdict: Option<Option<string>>) {
    r < |s.reviews| && s.reviews[r].progress == if verdict.Some? then Decided(verdict.value) else ReviewThrew
  }

  lemma RuledNext(cfg: Config, events: seq<Event>, r: nat, verdict: Option<Option<string>>)
    requires events != []
    ensures var before, last := events[..|events| - 1], events[|events| - 1];
      RuledIn(cfg, events, r, verdict) <==>
        RuledIn(cfg, before, r, verdict) || (last == Rule(r, verdict) && Enabled(RunAll(cfg, Opened, before), last))
  {
    var before := events[..|events| - 1];
    if k :| 0 <= k < |before| && before[k] == Rule(r, verdict) && Enabled(RunAll(cfg, Opened, before[..k]), before[k]) {
      assert before[..k] == events[..k] && before[k] == events[k];
    }
    if k :| 0 <= k < |events| && events[k] == Rule(r, verdict) && Enabled(RunAll(cfg, Opened, events[..k]), events[k]) {
      if k < |before| {
        assert before[..k] == events[..k] && before[k] == events[k];
      }
    }
  }

  lemma RuleRules(s: State, q: nat, ruled: Option<Option<string>>, r: nat, verdict: Option<Option<string>>)
    requires q < |s.reviews| && s.reviews[q].progress == Deciding
    ensures Ruling(Ruled(s, q, ruled), r, verdict) <==> Ruling(s, r, verdict) || (q == r && ruled == verdict)
  {
  }

  lemma ArriveRules(cfg: Config, s: State, q: Request, account: Option<Account>, r: nat,
                    verdict: Option<Option<string>>)
    requires cfg.reviewed
    ensures Ruling(Arrived(cfg, s, q, account), r, verdict) <==> Ruling(s, r, verdict)
  {
  }

  lemma StepRules(cfg: Config, s: State, e: Event, r: nat, verdict: Option<Option<string>>)
    requires Enabled(s, e) && cfg.reviewed
    ensures Ruling(Step(cfg, s, e), r, verdict) <==> Ruling(s, r, verdict) || e == Rule(r, verdict)
  {
    match e
    case Arrive(q, account) => ArriveRules(cfg, s, q, account, r, verdict);
    case Rule(q, ruled) => RuleRules(s, q, ruled, r, verdict);
    case _ =>
  }

  /** Where supervision is there, a review says what supervision answered on it, and no more;
      where it is not, every review is refused for want of it. */
  lemma {:induction false} RulingEarned(cfg: Config, events: seq<Event>, r: nat, verdict: Option<Option<string>>)
    ensures cfg.reviewed ==>
      (Ruling(RunAll(cfg, Opened, events), r, verdict) <==> RuledIn(cfg, events, r, verdict))
    ensures !cfg.reviewed ==>
      (Ruling(RunAll(cfg, Opened, events), r, verdict) <==>
       r < |RunAll(cfg, Opened, events).reviews| && verdict == Some(Some(UNSUPERVISED)))
    decreases |events|
  {
    RunGood(cfg, events);
    if r < |RunAll(cfg, Opened, events).reviews| {
      assert ReviewOk(cfg, RunAll(cfg, Opened, events), r);
    }
    if cfg.reviewed && events != [] {
      var before, last := events[..|events| - 1], events[|events| - 1];
      RulingEarned(cfg, before, r, verdict);
      RunSnoc(cfg, events);
      RuledNext(cfg, events, r, verdict);
      if Enabled(RunAll(cfg, Opened, before), last) {
        StepRules(cfg, RunAll(cfg, Opened, before), last, r, verdict);
      }
    }
  }

  // ---- what is told of a lost reply ------------------------------------------------------

  lemma {:induction false} RequestKept(cfg: Config, events: seq<Event>, k: nat, n: nat)
    requires k <= |events| && n < |RunAll(cfg, Opened, events[..k]).tickets|
    ensures n < |RunAll(cfg, Opened, events).tickets|
    ensures RunAll(cfg, Opened, events).tickets[n].request == RunAll(cfg, Opened, events[..k]).tickets[n].request
    decreases |events|
  {
    if k == |events| {
      assert events[..k] == events;
    } else {
      var before := events[..|events| - 1];
      assert before[..k] == events[..k];
      RequestKept(cfg, before, k, n);
      RunGood(cfg, before);
      RunSnoc(cfg, events);
      if Enabled(RunAll(cfg, Opened, before), events[|events| - 1]) {
        StepLater(cfg, RunAll(cfg, Opened, before), events[|events| - 1]);
      }
    }
  }

  /** The request was sent and no reply came. */
  ghost predicate LostIn(cfg: Config, events: seq<Event>, n: nat) {
    exists k ::
      0 <= k < |events| && events[k] == Reply(n, None) && Enabled(RunAll(cfg, Opened, events[..k]), Reply(n, None))
  }

  /** The request was sent and this came back. */
  ghost predicate RepliedIn(cfg: Config, events: seq<Event>, n: nat, response: string) {
    exists k ::
      && 0 <= k < |events| && events[k] == Reply(n, Some(response))
      && Enabled(RunAll(cfg, Opened, events[..k]), Reply(n, Some(response)))
  }

  predicate SaysLost(a: Answer) {
    a == NotReached || a == Unconfirmed || a == JevUnconfirmed
  }

  lemma OneAnswer(s: State, n: nat, a: Answer, b: Answer)
    requires HasAnswer(s, n, a) && HasAnswer(s, n, b)
    ensures a == b
  {
  }

  lemma EndsLost(cfg: Config, s: State, e: Event, n: nat, a: Answer)
    requires Ends(cfg, s, e, n, a) && SaysLost(a)
    ensures e == Reply(n, None) && n < |s.tickets| && ToldLost(cfg, s.tickets[n].request, a)
  {
  }

  lemma EndsReplied(cfg: Config, s: State, e: Event, n: nat, x: string)
    ensures Ends(cfg, s, e, n, FromAccount(x)) <==> e == Reply(n, Some(x)) && Enabled(s, e)
  {
  }

  lemma SaidLost(cfg: Config, events: seq<Event>, o: nat, a: Answer)
    requires HasAnswer(RunAll(cfg, Opened, events), o, a) && !RunAll(cfg, Opened, events).tickets[o].role.Twin?
    requires SaysLost(a)
    ensures LostIn(cfg, events, o) && ToldLost(cfg, RunAll(cfg, Opened, events).tickets[o].request, a)
  {
    AnswerEarned(cfg, events, o, a);
    var k :| 0 <= k < |events| && Ends(cfg, RunAll(cfg, Opened, events[..k]), events[k], o, a);
    EndsLost(cfg, RunAll(cfg, Opened, events[..k]), events[k], o, a);
    RequestKept(cfg, events, k, o);
  }

  lemma LostTold(cfg: Config, events: seq<Event>, o: nat, a: Answer)
    requires HasAnswer(RunAll(cfg, Opened, events), o, a) && !RunAll(cfg, Opened, events).tickets[o].role.Twin?
    requires LostIn(cfg, events, o)
    ensures SaysLost(a)
  {
    var j :|
      0 <= j < |events| && events[j] == Reply(o, None) && Enabled(RunAll(cfg, Opened, events[..j]), Reply(o, None));
    var r := RunAll(cfg, Opened, events[..j]).tickets[o].request;
    var told := if cfg.isJev(r.url) then JevUnconfirmed else if cfg.isRead(r) then NotReached else Unconfirmed;
    assert Ends(cfg, RunAll(cfg, Opened, events[..j]), events[j], o, told);
    assert Earned(cfg, events, o, told);
    AnswerEarned(cfg, events, o, told);
    OneAnswer(RunAll(cfg, Opened, events), o, a, told);
  }

  lemma ReplyTold(cfg: Config, events: seq<Event>, o: nat, a: Answer, x: string)
    requires HasAnswer(RunAll(cfg, Opened, events), o, a) && !RunAll(cfg, Opened, events).tickets[o].role.Twin?
    ensures a == FromAccount(x) <==> RepliedIn(cfg, events, o, x)
  {
    AnswerEarned(cfg, events, o, FromAccount(x));
    if a == FromAccount(x) {
      var k :| 0 <= k < |events| && Ends(cfg, RunAll(cfg, Opened, events[..k]), events[k], o, FromAccount(x));
      EndsReplied(cfg, RunAll(cfg, Opened, events[..k]), events[k], o, x);
    }
    if RepliedIn(cfg, events, o, x) {
      var j :| 0 <= j < |events| && events[j] == Reply(o, Some(x))
        && Enabled(RunAll(cfg, Opened, events[..j]), Reply(o, Some(x)));
      EndsReplied(cfg, RunAll(cfg, Opened, events[..j]), events[j], o, x);
      assert Earned(cfg, events, o, FromAccount(x));
      OneAnswer(RunAll(cfg, Opened, events), o, a, FromAccount(x));
    }
  }

  lemma OriginTold(cfg: Config, s: State, n: nat, a: Answer)
    requires Inv(cfg, s) && Kinds(cfg, s) && HasAnswer(s, n, a)
    ensures var o := Origin(s, n);
      && HasAnswer(s, o, a) && !s.tickets[o].role.Twin?
      && (ToldLost(cfg, s.tickets[o].request, a) ==> ToldLost(cfg, s.tickets[n].request, a))
  {
    assert TicketOk(cfg, s, n) && KindOk(cfg, s.tickets[n]);
    var o := Origin(s, n);
    if o != n {
      assert TicketOk(cfg, s, o) && KindOk(cfg, s.tickets[o]);
    }
  }

  /** What is told of a lost reply: told exactly of a request that was sent, itself or as the
      write it repeats, and got none; that it may be tried again only to one that reads, or to
      one for Jev, and to every write that it is not to be repeated. A reply that came is handed
      on exactly so. */
  lemma LostMeans(cfg: Config, events: seq<Event>, n: nat, a: Answer)
    requires HasAnswer(RunAll(cfg, Opened, events), n, a)
    ensures var s := RunAll(cfg, Opened, events);
      && (SaysLost(a) <==> LostIn(cfg, events, Origin(s, n)))
      && (SaysLost(a) ==> ToldLost(cfg, s.tickets[n].request, a))
      && forall x :: a == FromAccount(x) <==> RepliedIn(cfg, events, Origin(s, n), x)
  {
    var s := RunAll(cfg, Opened, events);
    var o := Origin(s, n);
    RunGood(cfg, events);
    OriginTold(cfg, s, n, a);
    if SaysLost(a) {
      SaidLost(cfg, events, o, a);
    }
    if LostIn(cfg, events, o) {
      LostTold(cfg, events, o, a);
    }
    forall x ensures a == FromAccount(x) <==> RepliedIn(cfg, events, o, x) {
      ReplyTold(cfg, events, o, a, x);
    }
  }
}
