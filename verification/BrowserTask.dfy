/** The browser-task loop: one goal on one page, a step at a time, against ports
    (the page, Jev, the review) that may answer anything. */
module BrowserTask {
  import opened Wrappers
  import opened BrowserActions

  const DEFAULT_STEPS := 20
  const MAX_STEPS := 40
  const FINISH_MIN := 0.6
  const STOP_MIN := 0.7
  const ACTION_MIN := 0.2
  const EXPLORE_MIN := 0.1
  const EXPLORE_MAX := 2
  const PAGE_MIN := 0.7
  const COMMIT_MIN := 0.5
  const REGION_OVER := 80
  const COMMIT_ROLES := {"button", "link", "menuitem"}

  datatype Page = Page(url: string, title: string, snapshot: string)

  /** `read` is the snapshot reader and `flagged` the words that commit whatever Jev says. */
  datatype Job = Job(values: seq<Entry>, maxSteps: Option<int>, read: string -> seq<Control>, flagged: string -> bool)

  // ---- what is asked, answered and done ------------------------------------------------

  datatype Label = Finish | Stop | Key(n: nat)

  datatype PageAnswer = PageAnswer(choice: Option<string>, sure: map<string, real>)

  datatype Answers = Answers(
    page: Option<PageAnswer>, region: Option<nat>, action: map<Label, real>, commits: Option<real>)

  /** One finished action, as later questions retell it. */
  datatype Note = Note(describe: Description, failure: Option<string>, stayed: bool)

  datatype Question =
    | PickRegion(done: seq<Note>, regions: seq<string>)
    | PickAction(done: seq<Note>, offered: seq<Action>, aboutPage: bool)
    | Commits(action: Action)

  datatype Attempt<+T> = Returned(value: T) | Threw

  datatype Call =
    | Asked(question: Question, reply: Attempt<Option<Answers>>)
    | Reviewed(action: Action, page: Page, refusal: Attempt<Option<string>>)
    | Acted(action: Action, value: Option<string>, failure: Option<string>)

  /** One step as the ports saw it: the page observed and every call made after it. */
  datatype Visit = Visit(page: Page, calls: seq<Call>)

  /** The ports, answering by turn; they keep every call made of them. */
  class Ports {
    const pages: nat -> Attempt<Page>
    const replies: nat -> Attempt<Option<Answers>>
    const refusals: nat -> Attempt<Option<string>>
    const failures: nat -> Option<string>
    var turn: nat
    ghost var past: seq<Visit>
    ghost var open: Option<Page>
    ghost var calls: seq<Call>

    constructor (pages: nat -> Attempt<Page>, replies: nat -> Attempt<Option<Answers>>,
                 refusals: nat -> Attempt<Option<string>>, failures: nat -> Option<string>)
      ensures Visits() == []
    {
      this.pages, this.replies, this.refusals, this.failures := pages, replies, refusals, failures;
      turn := 0;
      past, open, calls := [], None, [];
    }

    ghost function Visits(): seq<Visit>
      reads this
    {
      if open.Some? then past + [Visit(open.value, calls)] else past
    }

    method Observe() returns (r: Attempt<Page>)
      modifies this
      ensures r.Returned? ==> past == old(Visits()) && open == Some(r.value) && calls == []
      ensures r.Threw? ==> Visits() == old(Visits())
    {
      r := pages(turn);
      turn := turn + 1;
      if r.Returned? {
        past, open, calls := Visits(), Some(r.value), [];
      }
    }

    method Decide(question: Question) returns (r: Attempt<Option<Answers>>)
      modifies `turn, `calls
      ensures calls == old(calls) + [Asked(question, r)]
    {
      r := replies(turn);
      turn := turn + 1;
      calls := calls + [Asked(question, r)];
    }

    method Review(action: Action, page: Page) returns (r: Attempt<Option<string>>)
      modifies `turn, `calls
      ensures calls == old(calls) + [Reviewed(action, page, r)]
    {
      r := refusals(turn);
      turn := turn + 1;
      calls := calls + [Reviewed(action, page, r)];
    }

    method Act(action: Action, value: Option<string>) returns (failure: Option<string>)
      modifies `turn, `calls
      ensures calls == old(calls) + [Acted(action, value, failure)]
    {
      failure := failures(turn);
      turn := turn + 1;
      calls := calls + [Acted(action, value, failure)];
    }
  }

  // ---- choosing the next move ----------------------------------------------------------

  datatype Ending =
    | JevUnreachable
    | StillLoading
    | WantsSignIn
    | ShowsCaptcha
    | ShowsError
    | GoalOnPage
    | NothingLeads
    | NotSure(describe: Description)
    | NoAction
    | NeedsApproval(describe: Description, refusal: string)
    | NoResponse(describe: Description)
    | StepLimit(steps: nat)

  datatype Outcome = Done | Blocked | PersonNeeded | ApprovalNeeded | LimitReached

  function OutcomeOf(e: Ending): Outcome {
    match e
    case GoalOnPage => Done
    case WantsSignIn => PersonNeeded
    case ShowsCaptcha => PersonNeeded
    case ShowsError => PersonNeeded
    case NeedsApproval(_, _) => ApprovalNeeded
    case StepLimit(_) => LimitReached
    case _ => Blocked
  }

  function Chance(answer: map<Label, real>, l: Label): real {
    if l in answer then answer[l] else 0.0
  }

  function PageState(page: Option<PageAnswer>): string {
    if page.Some? && page.value.choice.Some? then page.value.choice.value else "ready"
  }

  predicate Ready(page: Option<PageAnswer>) {
    var state := PageState(page);
    state == "ready" || (if page.Some? && state in page.value.sure then page.value.sure[state] else 0.0) < PAGE_MIN
  }

  /** The first of the likeliest actions. */
  function Top(offered: seq<Action>, answer: map<Label, real>): (k: nat)
    requires offered != []
    ensures k < |offered|
    ensures forall j :: 0 <= j < |offered| ==>
      Chance(answer, Key(offered[j].key)) <= Chance(answer, Key(offered[k].key))
    ensures forall j :: 0 <= j < k ==> Chance(answer, Key(offered[j].key)) < Chance(answer, Key(offered[k].key))
  {
    var n := |offered| - 1;
    if n == 0 then 0
    else
      var top := Top(offered[..n], answer);
      assert forall j :: 0 <= j < n ==> offered[..n][j] == offered[j];
      if Chance(answer, Key(offered[n].key)) > Chance(answer, Key(offered[top].key)) then n else top
  }

  datatype Move = Halt(ending: Ending) | Go(action: Action, exploring: bool)

  function NextMove(page: Option<PageAnswer>, offered: seq<Action>, answer: map<Label, real>, explored: nat): Move {
    if !Ready(page) then
      var state := PageState(page);
      Halt(if state == "loading" then StillLoading else if state == "sign_in" then WantsSignIn
           else if state == "captcha" then ShowsCaptcha else ShowsError)
    else if Chance(answer, Finish) >= FINISH_MIN then Halt(GoalOnPage)
    else
      var best := if offered == [] then None else Some(offered[Top(offered, answer)]);
      var confidence := if best.Some? then Chance(answer, Key(best.value.key)) else 0.0;
      if Chance(answer, Stop) >= STOP_MIN then
        if best == None || confidence < EXPLORE_MIN || explored >= EXPLORE_MAX then Halt(NothingLeads)
        else Go(best.value, true)
      else if best == None then Halt(NoAction)
      else if confidence < ACTION_MIN then Halt(NotSure(best.value.describe))
      else Go(best.value, false)
  }

  /** How likely an action must be, given how sure Jev is that nothing here leads on. */
  function Floor(answer: map<Label, real>): real {
    if Chance(answer, Stop) >= STOP_MIN then EXPLORE_MIN else ACTION_MIN
  }

  ghost predicate LikelyEnough(offered: seq<Action>, answer: map<Label, real>) {
    exists a :: a in offered && Chance(answer, Key(a.key)) >= Floor(answer)
  }

  /** An action is taken exactly when the page is ready, the goal is not reached, and some
      offered one is likely enough; past a stop only twice. It is one of the likeliest. */
  lemma MoveTaken(page: Option<PageAnswer>, offered: seq<Action>, answer: map<Label, real>, explored: nat)
    ensures NextMove(page, offered, answer, explored).Go? <==>
            && Ready(page)
            && Chance(answer, Finish) < FINISH_MIN
            && LikelyEnough(offered, answer)
            && (Chance(answer, Stop) >= STOP_MIN ==> explored < EXPLORE_MAX)
    ensures NextMove(page, offered, answer, explored).Go? ==>
              var go := NextMove(page, offered, answer, explored);
              && go.action in offered
              && (go.exploring <==> Chance(answer, Stop) >= STOP_MIN)
              && forall a :: a in offered ==> Chance(answer, Key(a.key)) <= Chance(answer, Key(go.action.key))
    ensures NextMove(page, offered, answer, explored) == Halt(GoalOnPage) <==>
      Ready(page) && Chance(answer, Finish) >= FINISH_MIN
  {
    if offered != [] {
      var best := offered[Top(offered, answer)];
      forall a | a in offered
        ensures Chance(answer, Key(a.key)) <= Chance(answer, Key(best.key))
      {
        var j :| 0 <= j < |offered| && offered[j] == a;
      }
    }
  }

  // ---- asking --------------------------------------------------------------------------

  function RegionOf(a: Action): string {
    if a.control.region != "" then a.control.region else "page"
  }

  /** Each region once, in the order the actions reach it. */
  function Regions(actions: seq<Action>): seq<string> {
    if actions == [] then []
    else
      var n := |actions| - 1;
      var before := Regions(actions[..n]);
      if RegionOf(actions[n]) in before then before else before + [RegionOf(actions[n])]
  }

  function Within(actions: seq<Action>, region: Option<string>): (r: seq<Action>)
    ensures forall a :: a in r <==> a in actions && Some(RegionOf(a)) == region
  {
    if actions == [] then []
    else if Some(RegionOf(actions[0])) == region then [actions[0]] + Within(actions[1..], region)
    else Within(actions[1..], region)
  }

  function ChosenRegion(actions: seq<Action>, region: Option<nat>): Option<string> {
    if region.Some? && 1 <= region.value <= |Regions(actions)| then Some(Regions(actions)[region.value - 1]) else None
  }

  /** What Jev answered about one page, and the actions it was choosing among. */
  datatype Hearing = Hearing(
    actions: seq<Action>, offered: seq<Action>, page: Option<PageAnswer>, answer: map<Label, real>)

  /** The page's actions: only what its controls support, and all of it. */
  ghost predicate Lists(controls: seq<Control>, values: seq<Entry>, actions: seq<Action>) {
    && Keyed(actions)
    && (forall a {:trigger Justified(controls, values, a)} :: a in actions ==> Justified(controls, values, a))
    && (forall c, op {:trigger Offers(actions, c, op)} ::
          c in controls && Supports(c, values, op) ==> Offers(actions, c, op))
  }

  /** The questions behind `h`: one, or two when the page has more actions than one question holds. */
  ghost predicate Heard(done: seq<Note>, calls: seq<Call>, h: Hearing) {
    && calls != []
    && calls[0].Asked? && calls[0].reply.Returned? && calls[0].reply.value.Some?
    && var first := calls[0].reply.value.value;
       if |h.actions| <= 80 then
         && |calls| == 1 && calls[0].question == PickAction(done, h.actions, true)
         && h == Hearing(h.actions, h.actions, first.page, first.action)
       else
         && |calls| == 2 && calls[0].question == PickRegion(done, Regions(h.actions))
         && h.offered == Within(h.actions, ChosenRegion(h.actions, first.region))
         && calls[1].Asked? && calls[1].question == PickAction(done, h.offered, first.page == None)
         && calls[1].reply.Returned? && calls[1].reply.value.Some?
         && var second := calls[1].reply.value.value;
            h == Hearing(h.actions, h.offered, if first.page.Some? then first.page else second.page, second.action)
  }

  /** The same questions, up to the one that `reply` left without an answer. */
  ghost predicate Unheard(done: seq<Note>, actions: seq<Action>, calls: seq<Call>, reply: Attempt<Option<Answers>>) {
    if |actions| <= 80 then
      calls == [Asked(PickAction(done, actions, true), reply)]
    else
      && 1 <= |calls| <= 2
      && calls[0].Asked? && calls[0].question == PickRegion(done, Regions(actions))
      && if |calls| == 1 then calls[0].reply == reply
         else
           && calls[0].reply.Returned? && calls[0].reply.value.Some?
           && var first := calls[0].reply.value.value;
              calls[1] == Asked(
                PickAction(done, Within(actions, ChosenRegion(actions, first.region)), first.page == None), reply)
  }

  method AskJev(ports: Ports, actions: seq<Action>, done: seq<Note>)
    returns (r: Attempt<Option<Hearing>>, asked: nat)
    requires ports.calls == []
    modifies ports`turn, ports`calls
    ensures r.Returned? && r.value.Some? ==> Heard(done, ports.calls, r.value.value) && r.value.value.actions == actions
    ensures r.Returned? && r.value.None? ==> Unheard(done, actions, ports.calls, Returned(None))
    ensures r.Threw? ==> Unheard(done, actions, ports.calls, Threw)
    ensures asked == |ports.calls|
  {
    var offered, page := actions, None;
    asked := 0;
    if |actions| > REGION_OVER {
      asked := asked + 1;
      var first := ports.Decide(PickRegion(done, Regions(actions)));
      if first.Threw? { return Threw, asked; }
      if first.value == None { return Returned(None), asked; }
      page := first.value.value.page;
      offered := Within(actions, ChosenRegion(actions, first.value.value.region));
    }
    asked := asked + 1;
    var answers := ports.Decide(PickAction(done, offered, page == None));
    if answers.Threw? { return Threw, asked; }
    if answers.value == None { return Returned(None), asked; }
    if page == None {
      page := answers.value.value.page;
    }
    r := Returned(Some(Hearing(actions, offered, page, answers.value.value.action)));
  }

  // ---- clearing an action that may commit something ------------------------------------

  predicate MayCommit(a: Action) {
    a.operation.Click? && a.control.role in COMMIT_ROLES
  }

  predicate JudgedToCommit(judged: Option<Answers>) {
    (if judged.Some? && judged.value.commits.Some? then judged.value.commits.value else 1.0) >= COMMIT_MIN
  }

  /** The calls that ask whether the action commits something, and the review if it does. */
  ghost predicate Examined(flagged: string -> bool, page: Page, a: Action, calls: seq<Call>, refusal: Option<string>) {
    if !MayCommit(a) then
      calls == [] && refusal == None
    else if flagged(a.control.name) then
      calls == [Reviewed(a, page, Returned(refusal))]
    else
      && calls != [] && calls[0].Asked? && calls[0].question == Commits(a) && calls[0].reply.Returned?
      && if JudgedToCommit(calls[0].reply.value) then calls[1..] == [Reviewed(a, page, Returned(refusal))]
         else |calls| == 1 && refusal == None
  }

  /** The same calls, up to the one whose port threw. */
  ghost predicate CutShort(flagged: string -> bool, page: Page, a: Action, calls: seq<Call>) {
    && MayCommit(a)
    && if flagged(a.control.name) then
         calls == [Reviewed(a, page, Threw)]
       else
         && calls != [] && calls[0].Asked? && calls[0].question == Commits(a)
         && if calls[0].reply.Threw? then |calls| == 1
            else JudgedToCommit(calls[0].reply.value) && calls[1..] == [Reviewed(a, page, Threw)]
  }

  method Examine(ports: Ports, flagged: string -> bool, page: Page, a: Action)
    returns (r: Attempt<Option<string>>, asked: nat, ghost made: seq<Call>)
    modifies ports`turn, ports`calls
    ensures ports.calls == old(ports.calls) + made && asked == CountAsked(made)
    ensures if r.Returned? then Examined(flagged, page, a, made, r.value) else CutShort(flagged, page, a, made)
  {
    asked, made := 0, [];
    if !MayCommit(a) { return Returned(None), asked, made; }
    var commits := flagged(a.control.name);
    if !commits {
      asked := asked + 1;
      var judged := ports.Decide(Commits(a));
      made := [Asked(Commits(a), judged)];
      if judged.Threw? { return Threw, asked, made; }
      commits := JudgedToCommit(judged.value);
    }
    if !commits { return Returned(None), asked, made; }
    r := ports.Review(a, page);
    CountJoin(made, [Reviewed(a, page, r)]);
    made := made + [Reviewed(a, page, r)];
  }

  function CountAsked(calls: seq<Call>): nat {
    if calls == [] then 0 else (if calls[0].Asked? then 1 else 0) + CountAsked(calls[1..])
  }

  lemma CountJoin(a: seq<Call>, b: seq<Call>)
    ensures CountAsked(a + b) == CountAsked(a) + CountAsked(b)
  {
    if a == [] {
      assert a + b == b;
    } else {
      CountJoin(a[1..], b);
      assert (a + b)[1..] == a[1..] + b;
    }
  }

  lemma AllAsked(calls: seq<Call>)
    requires forall c :: c in calls ==> c.Asked?
    ensures CountAsked(calls) == |calls|
  {
    if calls != [] {
      assert calls[0] in calls;
      AllAsked(calls[1..]);
    }
  }

  // ---- one step ------------------------------------------------------------------------

  datatype Turn = Went(action: Action, failure: Option<string>, exploring: bool) | Over(ending: Ending) | Broke

  /** The last attempt: what was tried and on which snapshot. */
  type Try = Option<(Description, string)>

  function Typed(values: seq<Entry>, a: Action): Option<string> {
    if a.operation.Type? then Lookup(values, a.operation.valueKey) else None
  }

  function Lookup(values: seq<Entry>, key: string): (r: Option<string>)
    ensures r.Some? ==> Entry(key, r.value) in values
    ensures r.None? ==> forall e :: e in values ==> e.key != key
  {
    if values == [] then None
    else if values[0].key == key then Some(values[0].value)
    else Lookup(values[1..], key)
  }

  /** What becomes of a chosen action: run only when nothing it commits was refused and it
      is not the last attempt over again on the same page. */
  ghost predicate Carried(job: Job, page: Page, a: Action, exploring: bool, last: Try, rest: seq<Call>, turn: Turn) {
    match turn
    case Over(NeedsApproval(d, refusal)) =>
      d == a.describe && Examined(job.flagged, page, a, rest, Some(refusal))
    case Over(NoResponse(d)) =>
      && d == a.describe && Examined(job.flagged, page, a, rest, None)
      && last == Some((d, page.snapshot))
    case Went(b, failure, explores) =>
      && b == a && explores == exploring
      && last != Some((a.describe, page.snapshot))
      && rest != [] && Examined(job.flagged, page, a, rest[..|rest| - 1], None)
      && rest[|rest| - 1] == Acted(a, Typed(job.values, a), failure)
    case Broke =>
      CutShort(job.flagged, page, a, rest)
    case _ => false
  }

  /** What follows a decided move: a halt calls nothing more. */
  ghost predicate Follows(job: Job, page: Page, move: Move, last: Try, rest: seq<Call>, turn: Turn) {
    if move.Go? then Carried(job, page, move.action, move.exploring, last, rest, turn)
    else turn == Over(move.ending) && rest == []
  }

  ghost predicate HeardThen(job: Job, page: Page, done: seq<Note>, explored: nat, last: Try,
                            asks: seq<Call>, rest: seq<Call>, h: Hearing, turn: Turn) {
    && Lists(job.read(page.snapshot), job.values, h.actions)
    && Heard(done, asks, h)
    && Follows(job, page, NextMove(h.page, h.offered, h.answer, explored), last, rest, turn)
  }

  /** Jev was asked about the page and `reply` was no answer. */
  ghost predicate Silent(job: Job, page: Page, done: seq<Note>, calls: seq<Call>, reply: Attempt<Option<Answers>>) {
    exists actions :: Lists(job.read(page.snapshot), job.values, actions) && Unheard(done, actions, calls, reply)
  }

  ghost predicate Answered(job: Job, page: Page, done: seq<Note>, explored: nat, last: Try, calls: seq<Call>,
                           turn: Turn) {
    exists asks, rest, h :: calls == asks + rest && HeardThen(job, page, done, explored, last, asks, rest, h, turn)
  }

  /** What the calls of one step say of how it ended. */
  ghost predicate Turned(job: Job, page: Page, done: seq<Note>, explored: nat, last: Try, calls: seq<Call>,
                         turn: Turn) {
    match turn
    case Over(JevUnreachable) => Silent(job, page, done, calls, Returned(None))
    case Broke => Silent(job, page, done, calls, Threw) || Answered(job, page, done, explored, last, calls, turn)
    case _ => Answered(job, page, done, explored, last, calls, turn)
  }

  lemma UnheardAsked(done: seq<Note>, actions: seq<Action>, calls: seq<Call>, reply: Attempt<Option<Answers>>)
    requires Unheard(done, actions, calls, reply)
    ensures CountAsked(calls) == |calls| <= 2
    ensures forall c :: c in calls ==> c.Asked?
  {
    AllAsked(calls);
  }

  lemma AskedOnly(done: seq<Note>, asks: seq<Call>, h: Hearing, rest: seq<Call>)
    requires Heard(done, asks, h)
    ensures CountAsked(asks + rest) == |asks| + CountAsked(rest)
  {
    AllAsked(asks);
    CountJoin(asks, rest);
  }

  lemma Concluded(job: Job, page: Page, done: seq<Note>, explored: nat, last: Try,
                  asks: seq<Call>, h: Hearing, rest: seq<Call>, turn: Turn)
    requires HeardThen(job, page, done, explored, last, asks, rest, h, turn)
    ensures Turned(job, page, done, explored, last, asks + rest, turn)
    ensures CountAsked(asks + rest) == |asks| + CountAsked(rest)
  {
    AskedOnly(done, asks, h, rest);
  }

  /** What follows the questions about the page: the review if one is due, then the action. */
  method Proceed(ports: Ports, job: Job, page: Page, move: Move, last: Try)
    returns (turn: Turn, asked: nat, ghost rest: seq<Call>)
    modifies ports`turn, ports`calls
    ensures ports.calls == old(ports.calls) + rest && asked == CountAsked(rest)
    ensures Follows(job, page, move, last, rest, turn)
  {
    if move.Halt? { return Over(move.ending), 0, []; }
    var a := move.action;
    var refusal;
    refusal, asked, rest := Examine(ports, job.flagged, page, a);
    if refusal.Threw? { return Broke, asked, rest; }
    if refusal.value.Some? { return Over(NeedsApproval(a.describe, refusal.value.value)), asked, rest; }
    if last == Some((a.describe, page.snapshot)) { return Over(NoResponse(a.describe)), asked, rest; }
    var value := Typed(job.values, a);
    var failure := ports.Act(a, value);
    turn := Went(a, failure, move.exploring);
    CountJoin(rest, [Acted(a, value, failure)]);
    rest := rest + [Acted(a, value, failure)];
  }

  method TakeStep(ports: Ports, job: Job, page: Page, done: seq<Note>, explored: nat, last: Try)
    returns (turn: Turn, asked: nat)
    requires ports.calls == []
    modifies ports`turn, ports`calls
    ensures Turned(job, page, done, explored, last, ports.calls, turn)
    ensures asked == CountAsked(ports.calls)
  {
    var controls := job.read(page.snapshot);
    var actions := BrowserTaskActions(controls, job.values);
    var heard, first := AskJev(ports, actions, done);
    ghost var asks := ports.calls;
    if heard.Threw? || heard.value == None {
      UnheardAsked(done, actions, asks, if heard.Threw? then Threw else Returned(None));
      return if heard.Threw? then Broke else Over(JevUnreachable), first;
    }
    var h := heard.value.value;
    var second;
    ghost var rest;
    turn, second, rest := Proceed(ports, job, page, NextMove(h.page, h.offered, h.answer, explored), last);
    asked := first + second;
    Concluded(job, page, done, explored, last, asks, h, rest, turn);
  }
}
