/** One exec call's egress handler, cut at its awaits: each step below runs from one await
    to the next, and steps of different requests may interleave in any order. */
module Egress {
  import opened Wrappers

  datatype Request = Request(verb: string, url: string, body: Option<string>)

  /** What a URL and a request read as; `digest` is the hash of canonical JSON. */
  datatype Config = Config(
    isJev: string -> bool,
    jevPath: string -> bool,
    routed: string -> bool,
    place: string -> string,
    isRead: Request -> bool,
    digest: Content -> string,
    reviewed: bool,
    jev: bool)

  datatype Account = Account(name: string, hasPermit: bool)

  datatype Verdict = Granted | Withheld | Because(reason: string) | PermitThrew

  datatype Content = Content(account: string, verb: string, url: string, body: Option<string>)

  datatype ReviewId = ReviewId(digest: string, repeat: nat)

  datatype Progress = Digesting | Deciding | Decided(refusal: Option<string>) | ReviewThrew

  /** Whose review it is: one write's own, or every read's of one API path. */
  datatype Purpose = OneWrite(n: nat) | Reads(key: ReadKey)

  /** A review begun: what it is of, and the id it is recorded under once it has one. */
  datatype Review = Review(purpose: Purpose, content: Content, id: Option<ReviewId>, progress: Progress)

  datatype Answer =
    | NoSuchRoute
    | NoAccount
    | Refused(reason: string)
    | JevAbsent
    | JevMisasked
    | FromAccount(response: string)
    | NotReached
    | Unconfirmed
    | JevUnconfirmed
    | Rejected

  /** What a request is waiting as: it may have begun a write, or follow one begun before it. */
  datatype Role = Unplaced | Reader(review: nat) | Writer(review: nat) | Twin(owner: nat) | AsksJev(number: nat)

  datatype Stage = Permitting | Waiting | Sending | Answered(answer: Answer)

  /** A request by order of arrival, with the account found for it then. */
  datatype Ticket = Ticket(request: Request, account: Account, role: Role, stage: Stage)

  datatype WriteKey = WriteKey(verb: string, url: string, body: string)

  datatype ReadKey = ReadKey(verb: string, place: string)

  datatype State = State(
    tickets: seq<Ticket>,
    reviews: seq<Review>,
    writes: map<WriteKey, nat>,
    readReviews: map<ReadKey, nat>,
    repeats: map<string, nat>,
    jevSequence: nat,
    sends: seq<nat>)

  const Opened := State([], [], map[], map[], map[], 0, [])

  function WriteKeyOf(r: Request): WriteKey {
    WriteKey(r.verb, r.url, if r.body.Some? then r.body.value else "")
  }

  function ReadKeyOf(cfg: Config, r: Request): ReadKey {
    ReadKey(r.verb, cfg.place(r.url))
  }

  function ContentOf(r: Request, a: Account): Content {
    Content(a.name, r.verb, r.url, r.body)
  }

  const UNSUPERVISED := "Requests from the terminal need supervision, which this Turn does not have."

  // ---- the steps -----------------------------------------------------------------------

  function Put(s: State, n: nat, t: Ticket): State
    requires n < |s.tickets|
  {
    s.(tickets := s.tickets[n := t])
  }

  function End(s: State, n: nat, answer: Answer): State
    requires n < |s.tickets|
  {
    Put(s, n, s.tickets[n].(stage := Answered(answer)))
  }

  function Begun(cfg: Config, purpose: Purpose, c: Content): Review {
    Review(purpose, c, None, if cfg.reviewed then Digesting else Decided(Some(UNSUPERVISED)))
  }

  /** A permitted request takes its place: it shares the review of its read path, begins a
      write of its own, or follows the same write begun before it. */
  function Placed(cfg: Config, s: State, n: nat): State
    requires n < |s.tickets|
  {
    var t := s.tickets[n];
    var content := ContentOf(t.request, t.account);
    if cfg.isRead(t.request) then
      var key := ReadKeyOf(cfg, t.request);
      if key in s.readReviews then Put(s, n, t.(role := Reader(s.readReviews[key]), stage := Waiting))
      else
        Put(s, n, t.(role := Reader(|s.reviews|), stage := Waiting))
          .(reviews := s.reviews + [Begun(cfg, Reads(key), content)], readReviews := s.readReviews[key := |s.reviews|])
    else
      var key := WriteKeyOf(t.request);
      if key in s.writes then Put(s, n, t.(role := Twin(s.writes[key]), stage := Waiting))
      else
        Put(s, n, t.(role := Writer(|s.reviews|), stage := Waiting))
          .(reviews := s.reviews + [Begun(cfg, OneWrite(n), content)], writes := s.writes[key := n])
  }

  function Arrived(cfg: Config, s: State, r: Request, account: Option<Account>): State {
    var n := |s.tickets|;
    var nobody := Ticket(r, Account("", false), Unplaced, Permitting);
    if cfg.isJev(r.url) then
      if !cfg.jev then s.(tickets := s.tickets + [nobody.(stage := Answered(JevAbsent))])
      else if r.verb != "POST" || !cfg.jevPath(r.url) then
        s.(tickets := s.tickets + [nobody.(stage := Answered(JevMisasked))])
      else
        s.(tickets := s.tickets + [nobody.(role := AsksJev(s.jevSequence), stage := Sending)],
           jevSequence := s.jevSequence + 1)
    else if !cfg.routed(r.url) then s.(tickets := s.tickets + [nobody.(stage := Answered(NoSuchRoute))])
    else if account.None? then s.(tickets := s.tickets + [nobody.(stage := Answered(NoAccount))])
    else
      var seen := s.(tickets := s.tickets + [nobody.(account := account.value)]);
      if account.value.hasPermit then seen else Placed(cfg, seen, n)
  }

  function Permitted(cfg: Config, s: State, n: nat, permit: Verdict): State
    requires n < |s.tickets|
  {
    match permit
    case Granted => Placed(cfg, s, n)
    case Withheld => End(s, n, NoAccount)
    case Because(reason) => End(s, n, Refused(reason))
    case PermitThrew => End(s, n, Rejected)
  }

  /** An id is a digest of the content and how many reviews had that digest before. */
  function Digested(cfg: Config, s: State, r: nat): State
    requires r < |s.reviews|
  {
    var d := cfg.digest(s.reviews[r].content);
    var repeat := if d in s.repeats then s.repeats[d] else 0;
    s.(repeats := s.repeats[d := repeat + 1],
       reviews := s.reviews[r := s.reviews[r].(id := Some(ReviewId(d, repeat)), progress := Deciding)])
  }

  /** Supervision's answer; `None` when it threw. */
  function Ruled(s: State, r: nat, verdict: Option<Option<string>>): State
    requires r < |s.reviews|
  {
    var progress := if verdict.Some? then Decided(verdict.value) else ReviewThrew;
    s.(reviews := s.reviews[r := s.reviews[r].(progress := progress)])
  }

  /** What the review awaited says: the request goes to its account only when nothing refused it. */
  function Resumed(s: State, n: nat, r: nat): State
    requires n < |s.tickets| && r < |s.reviews|
  {
    match s.reviews[r].progress
    case Decided(None) => Put(s, n, s.tickets[n].(stage := Sending)).(sends := s.sends + [n])
    case Decided(Some(reason)) => End(s, n, Refused(reason))
    case ReviewThrew => End(s, n, Rejected)
    case _ => s
  }

  /** The account's answer; `None` when sending threw. */
  function Replied(s: State, n: nat, response: Option<string>): State
    requires n < |s.tickets|
  {
    if response.Some? then End(s, n, FromAccount(response.value))
    else if s.tickets[n].role.Reader? then End(s, n, NotReached)
    else if s.tickets[n].role.AsksJev? then End(s, n, JevUnconfirmed)
    else End(s, n, Unconfirmed)
  }

  function Shared(s: State, n: nat): State
    requires n < |s.tickets| && s.tickets[n].role.Twin? && s.tickets[n].role.owner < |s.tickets|
  {
    var owner := s.tickets[s.tickets[n].role.owner];
    if owner.stage.Answered? then End(s, n, owner.stage.answer) else s
  }

  datatype Event =
    | Arrive(request: Request, account: Option<Account>)
    | Permit(n: nat, permit: Verdict)
    | Digest(r: nat)
    | Rule(r: nat, verdict: Option<Option<string>>)
    | Resume(n: nat)
    | Reply(n: nat, response: Option<string>)
    | Share(n: nat)

  function ReviewOf(t: Ticket): Option<nat> {
    match t.role
    case Reader(r) => Some(r)
    case Writer(r) => Some(r)
    case _ => None
  }

  /** The step can run now. */
  predicate Enabled(s: State, e: Event) {
    match e
    case Arrive(_, _) => true
    case Permit(n, _) => n < |s.tickets| && s.tickets[n].stage == Permitting
    case Digest(r) => r < |s.reviews| && s.reviews[r].progress == Digesting
    case Rule(r, _) => r < |s.reviews| && s.reviews[r].progress == Deciding
    case Resume(n) =>
      && n < |s.tickets| && s.tickets[n].stage == Waiting
      && var r := ReviewOf(s.tickets[n]);
         && r.Some? && r.value < |s.reviews|
         && (s.reviews[r.value].progress.Decided? || s.reviews[r.value].progress == ReviewThrew)
    case Reply(n, _) => n < |s.tickets| && s.tickets[n].stage == Sending
    case Share(n) =>
      && n < |s.tickets| && s.tickets[n].stage == Waiting && s.tickets[n].role.Twin?
      && s.tickets[n].role.owner < |s.tickets| && s.tickets[s.tickets[n].role.owner].stage.Answered?
  }

  function Step(cfg: Config, s: State, e: Event): State
    requires Enabled(s, e)
  {
    match e
    case Arrive(r, account) => Arrived(cfg, s, r, account)
    case Permit(n, permit) => Permitted(cfg, s, n, permit)
    case Digest(r) => Digested(cfg, s, r)
    case Rule(r, verdict) => Ruled(s, r, verdict)
    case Resume(n) => Resumed(s, n, ReviewOf(s.tickets[n]).value)
    case Reply(n, response) => Replied(s, n, response)
    case Share(n) => Shared(s, n)
  }

  function RunAll(cfg: Config, s: State, events: seq<Event>): State
    decreases |events|
  {
    if events == [] then s
    else RunAll(cfg, if Enabled(s, events[0]) then Step(cfg, s, events[0]) else s, events[1..])
  }
}
