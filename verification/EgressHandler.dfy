/** The handler as its closure keeps it, and the door its requests come through. */
module EgressHandler {
  import opened Wrappers
  import opened Egress
  import opened EgressLaws

  class Handler {
    const cfg: Config
    var writes: map<WriteKey, nat>
    var readReviews: map<ReadKey, nat>
    var repeats: map<string, nat>
    var jevSequence: nat
    // the promises: one ticket per request answered, one review per review begun
    var tickets: seq<Ticket>
    var reviews: seq<Review>
    ghost var sends: seq<nat>

    ghost function Now(): Egress.State
      reads this
    {
      Egress.State(tickets, reviews, writes, readReviews, repeats, jevSequence, sends)
    }

    constructor (cfg: Config)
      ensures this.cfg == cfg && Now() == Opened && Inv(cfg, Now())
    {
      this.cfg := cfg;
      writes, readReviews, repeats, jevSequence := map[], map[], map[], 0;
      tickets, reviews, sends := [], [], [];
    }

    /** The request, up to its first await. */
    method Take(request: Request, account: Option<Account>) returns (n: nat)
      requires Inv(cfg, Now())
      modifies this
      ensures Now() == Arrived(cfg, old(Now()), request, account) && Inv(cfg, Now())
      ensures n == |old(tickets)| && n < |tickets| && tickets[n].request == request
    {
      ArrivedKeeps(cfg, Now(), request, account);
      n := |tickets|;
      if cfg.isJev(request.url) {
        AskJev(Ticket(request, Account("", false), Unplaced, Permitting), account);
      } else {
        Admit(request, account);
      }
      TicketKept(cfg, old(Now()), request, account);
    }

    method Admit(request: Request, account: Option<Account>)
      requires !cfg.isJev(request.url)
      modifies this
      ensures Now() == Arrived(cfg, old(Now()), request, account)
    {
      var ticket := Ticket(request, Account("", false), Unplaced, Permitting);
      if !cfg.routed(request.url) {
        tickets := tickets + [ticket.(stage := Answered(NoSuchRoute))];
        return;
      }
      if account.None? {
        tickets := tickets + [ticket.(stage := Answered(NoAccount))];
        return;
      }
      tickets := tickets + [ticket.(account := account.value)];
      if !account.value.hasPermit {
        Place(|tickets| - 1);
      }
    }

    method AskJev(ticket: Ticket, account: Option<Account>)
      requires cfg.isJev(ticket.request.url) && ticket.account == Account("", false)
      requires ticket.role == Unplaced && ticket.stage == Permitting
      modifies this
      ensures Now() == Arrived(cfg, old(Now()), ticket.request, account)
    {
      if !cfg.jev {
        tickets := tickets + [ticket.(stage := Answered(JevAbsent))];
      } else if ticket.request.verb != "POST" || !cfg.jevPath(ticket.request.url) {
        tickets := tickets + [ticket.(stage := Answered(JevMisasked))];
      } else {
        tickets := tickets + [ticket.(role := AsksJev(jevSequence), stage := Sending)];
        jevSequence := jevSequence + 1;
      }
    }

    /** Begins a review: undecided, or refused at once when nothing supervises. */
    method ReviewRequest(purpose: Purpose, request: Request, account: Account) returns (r: nat)
      modifies `reviews
      ensures r == |old(reviews)| && reviews == old(reviews) + [Begun(cfg, purpose, ContentOf(request, account))]
    {
      r := |reviews|;
      var content := ContentOf(request, account);
      if !cfg.reviewed {
        reviews := reviews + [Review(purpose, content, None, Decided(Some(UNSUPERVISED)))];
      } else {
        reviews := reviews + [Review(purpose, content, None, Digesting)];
      }
    }

    method Place(n: nat)
      requires n < |tickets|
      modifies this
      ensures Now() == Placed(cfg, old(Now()), n)
    {
      var t := tickets[n];
      if cfg.isRead(t.request) {
        var key := ReadKeyOf(cfg, t.request);
        if key !in readReviews {
          var r := ReviewRequest(Reads(key), t.request, t.account);
          readReviews := readReviews[key := r];
        }
        tickets := tickets[n := t.(role := Reader(readReviews[key]), stage := Waiting)];
        return;
      }
      var key := WriteKeyOf(t.request);
      if key in writes {
        tickets := tickets[n := t.(role := Twin(writes[key]), stage := Waiting)];
        return;
      }
      var r := ReviewRequest(OneWrite(n), t.request, t.account);
      writes := writes[key := n];
      tickets := tickets[n := t.(role := Writer(r), stage := Waiting)];
    }

    /** The account's permit answered. */
    method OnPermit(n: nat, permit: Verdict)
      requires Inv(cfg, Now()) && Enabled(Now(), Permit(n, permit))
      modifies this
      ensures Now() == Permitted(cfg, old(Now()), n, permit) && Inv(cfg, Now())
    {
      StepKeeps(cfg, Now(), Permit(n, permit));
      match permit {
        case Because(reason) => Finish(n, Refused(reason));
        case Withheld => Finish(n, NoAccount);
        case PermitThrew => Finish(n, Rejected);
        case Granted => Place(n);
      }
    }

    method Finish(n: nat, answer: Answer)
      requires n < |tickets|
      modifies `tickets
      ensures tickets == old(tickets)[n := old(tickets[n]).(stage := Answered(answer))]
    {
      tickets := tickets[n := tickets[n].(stage := Answered(answer))];
    }

    /** The content's digest is known: the review takes its id and goes to supervision. */
    method OnDigest(r: nat)
      requires Inv(cfg, Now()) && Enabled(Now(), Digest(r))
      modifies this
      ensures Now() == Digested(cfg, old(Now()), r) && Inv(cfg, Now())
    {
      StepKeeps(cfg, Now(), Digest(r));
      var d := cfg.digest(reviews[r].content);
      var repeat := if d in repeats then repeats[d] else 0;
      repeats := repeats[d := repeat + 1];
      reviews := reviews[r := reviews[r].(id := Some(ReviewId(d, repeat)), progress := Deciding)];
    }

    /** Supervision answered, or threw. */
    method OnRuling(r: nat, verdict: Option<Option<string>>)
      requires Inv(cfg, Now()) && Enabled(Now(), Rule(r, verdict))
      modifies this
      ensures Now() == Ruled(old(Now()), r, verdict) && Inv(cfg, Now())
    {
      StepKeeps(cfg, Now(), Rule(r, verdict));
      reviews := reviews[r := reviews[r].(progress := if verdict.Some? then Decided(verdict.value) else ReviewThrew)];
    }

    /** A request whose review has ended goes on. */
    method OnReviewed(n: nat)
      requires Inv(cfg, Now()) && Enabled(Now(), Resume(n))
      modifies this
      ensures Now() == Resumed(old(Now()), n, ReviewOf(old(tickets[n])).value) && Inv(cfg, Now())
    {
      StepKeeps(cfg, Now(), Resume(n));
      var review := reviews[ReviewOf(tickets[n]).value];
      if review.progress == ReviewThrew {
        Finish(n, Rejected);
      } else if review.progress.refusal.Some? {
        Finish(n, Refused(review.progress.refusal.value));
      } else {
        tickets := tickets[n := tickets[n].(stage := Sending)];
        sends := sends + [n];
      }
    }

    /** The account, or Jev, answered or threw. */
    method OnReply(n: nat, response: Option<string>)
      requires Inv(cfg, Now()) && Enabled(Now(), Reply(n, response))
      modifies this
      ensures Now() == Replied(old(Now()), n, response) && Inv(cfg, Now())
    {
      StepKeeps(cfg, Now(), Reply(n, response));
      if response.Some? {
        Finish(n, FromAccount(response.value));
      } else if tickets[n].role.Reader? {
        Finish(n, NotReached);
      } else if tickets[n].role.AsksJev? {
        Finish(n, JevUnconfirmed);
      } else {
        Finish(n, Unconfirmed);
      }
    }

    /** A repeat takes the answer of the write it repeats. */
    method OnTwinAnswered(n: nat)
      requires Inv(cfg, Now()) && Enabled(Now(), Share(n))
      modifies this
      ensures Now() == Shared(old(Now()), n) && Inv(cfg, Now())
    {
      StepKeeps(cfg, Now(), Share(n));
      Finish(n, tickets[tickets[n].role.owner].stage.answer);
    }
  }

  lemma TicketKept(cfg: Config, s: Egress.State, r: Request, account: Option<Account>)
    ensures var z := Arrived(cfg, s, r, account); |z.tickets| == |s.tickets| + 1 && z.tickets[|s.tickets|].request == r
  {
  }

  // ---- the door ------------------------------------------------------------------------

  /** One open call; `opening` tells two openings apart, as object identity does. */
  datatype Live = Live(opening: nat, owner: string, expiresAt: int)

  class Door {
    var live: map<string, Live>

    constructor ()
      ensures live == map[]
    {
      live := map[];
    }

    method Open(nonce: string, entry: Live)
      modifies this
      ensures live == old(live)[nonce := entry]
    {
      live := live[nonce := entry];
    }

    /** The cleanup of one opening closes that opening only, never a later one under its nonce. */
    method Close(nonce: string, entry: Live)
      modifies this
      ensures live == if nonce in old(live) && old(live)[nonce] == entry then old(live) - {nonce} else old(live)
    {
      if nonce in live && live[nonce] == entry {
        live := live - {nonce};
      }
    }

    /** The call that may answer: open now, of the same object, and not expired. */
    method Answerer(owner: string, nonce: string, now: int) returns (r: Option<Live>)
      ensures r.Some? <==> nonce in live && live[nonce].owner == owner && now < live[nonce].expiresAt
      ensures r.Some? ==> live[nonce] == r.value
    {
      if nonce !in live || live[nonce].owner != owner || live[nonce].expiresAt <= now {
        return None;
      }
      r := Some(live[nonce]);
    }
  }
}
