/** Capability negotiation over every run: what one connection sends, and why the client is never stuck waiting. */
module NegotiationRuns {
  import opened Messages
  import opened Caps
  import opened Negotiation

  function Reached(cfg: Config, h: seq<Event>): State {
    if h == [] then START else Stepped(cfg, Reached(cfg, h[..|h| - 1]), h[|h| - 1])
  }

  /** The lines the last event of a run queued. */
  function NewLines(cfg: Config, h: seq<Event>): seq<Line>
    requires h != []
  {
    var before, after := Reached(cfg, h[..|h| - 1]).outbox, Reached(cfg, h).outbox;
    if before <= after then after[|before|..] else []
  }

  /** Everything queued from the last connect on. */
  function SinceConnect(cfg: Config, h: seq<Event>): seq<Line> {
    if h == [] then []
    else if h[|h| - 1].Connect? then NewLines(cfg, h)
    else SinceConnect(cfg, h[..|h| - 1]) + NewLines(cfg, h)
  }

  /** Everything queued since the last connection was lost: as far back as the capability state goes. */
  function SinceDrop(cfg: Config, h: seq<Event>): seq<Line> {
    if h == [] then []
    else if h[|h| - 1].Drop? then []
    else SinceDrop(cfg, h[..|h| - 1]) + NewLines(cfg, h)
  }

  /** The server has finished listing its capabilities on this connection. */
  predicate Listed(h: seq<Event>) {
    h != [] &&
    var e := h[|h| - 1];
    if e.Connect? then false
    else IsFinalList(e) || Listed(h[..|h| - 1])
  }

  predicate IsFinalList(e: Event) {
    e.Cap? && |e.m.params| >= 2 && SubcommandOf(e.m.params[1]) == Ls && !MoreToCome(e.m)
  }

  lemma NewLinesAre(cfg: Config, h: seq<Event>, lines: seq<Line>)
    requires h != [] && Reached(cfg, h).outbox == Reached(cfg, h[..|h| - 1]).outbox + lines
    ensures NewLines(cfg, h) == lines
  {
  }

  lemma WelcomeAndDropSendNothing(cfg: Config, h: seq<Event>)
    requires h != [] && (h[|h| - 1].Welcome? || h[|h| - 1].Drop?)
    ensures NewLines(cfg, h) == []
  {
    var before := Reached(cfg, h[..|h| - 1]).outbox;
    assert before + [] == before;
    NewLinesAre(cfg, h, []);
  }

  lemma StepRules(cfg: Config, h: seq<Event>)
    requires h != [] && !h[|h| - 1].Connect? && !h[|h| - 1].Drop? && !h[|h| - 1].Welcome?
    ensures Follows(cfg, Reached(cfg, h[..|h| - 1]), Reached(cfg, h), NewLines(cfg, h))
  {
    var lines := StepFollows(cfg, Reached(cfg, h[..|h| - 1]), h[|h| - 1]);
    NewLinesAre(cfg, h, lines);
  }

  lemma ConnectSends(cfg: Config, h: seq<Event>)
    requires h != [] && h[|h| - 1].Connect?
    ensures NewLines(cfg, h) == [CapLs, Introduction]
    ensures Tally(NewLines(cfg, h), IsEnd) == 0 && Tally(NewLines(cfg, h), IsMechanism) == 0
  {
    NewLinesAre(cfg, h, [CapLs, Introduction]);
    TallyNone(NewLines(cfg, h), IsEnd);
    TallyNone(NewLines(cfg, h), IsMechanism);
  }

  /**
   After any run, `CAP END` has been queued at most once since the last connect: not at all while still negotiating,
   and exactly once when waiting for the welcome.
   */
  lemma {:induction false} CapEndAtMostOnce(cfg: Config, h: seq<Event>)
    ensures var sent := Tally(SinceConnect(cfg, h), IsEnd);
            && sent <= 1
            && (Reached(cfg, h).phase == Negotiating ==> sent == 0)
            && (Reached(cfg, h).phase == Registering ==> sent == 1)
  {
    if h != [] {
      var front, e := h[..|h| - 1], h[|h| - 1];
      CapEndAtMostOnce(cfg, front);
      if e.Connect? {
        ConnectSends(cfg, h);
      } else {
        TallyAdds(SinceConnect(cfg, front), NewLines(cfg, h), IsEnd);
        if e.Welcome? || e.Drop? {
          WelcomeAndDropSendNothing(cfg, h);
        } else {
          StepRules(cfg, h);
        }
      }
    }
  }

  /**
   Whenever `CAP END` is queued, no request is pending and no exchange is in flight, and if we hold `sasl` and have
   credentials, the exchange has been settled.
   */
  lemma CapEndOnlyWhenReady(cfg: Config, h: seq<Event>)
    requires h != [] && CapEnd in NewLines(cfg, h)
    ensures Reached(cfg, h[..|h| - 1]).phase == Negotiating && Ready(cfg, Reached(cfg, h))
  {
    var e := h[|h| - 1];
    if e.Connect? || e.Drop? || e.Welcome? {
      OnlyStepsEnd(cfg, h);
    }
    StepRules(cfg, h);
    Tallied(NewLines(cfg, h), CapEnd, IsEnd);
  }

  lemma OnlyStepsEnd(cfg: Config, h: seq<Event>)
    requires h != [] && (h[|h| - 1].Connect? || h[|h| - 1].Drop? || h[|h| - 1].Welcome?)
    ensures CapEnd !in NewLines(cfg, h)
  {
    if h[|h| - 1].Connect? {
      ConnectSends(cfg, h);
    } else {
      WelcomeAndDropSendNothing(cfg, h);
    }
  }

  lemma {:induction false} Tallied(lines: seq<Line>, l: Line, counted: Line -> bool)
    requires l in lines && counted(l)
    ensures Tally(lines, counted) >= 1
  {
    var front := lines[..|lines| - 1];
    if lines[|lines| - 1] != l {
      assert l in front;
      Tallied(front, l, counted);
    }
  }

  /** Negotiating with nothing outstanding: nothing would ever end it. */
  predicate Stuck(s: State) {
    s.phase == Negotiating && s.caps.pending == [] && !InFlight(s.sasl)
  }

  lemma FinishIsNeverStuck(cfg: Config, s: State)
    ensures !Stuck(FinishIfSettled(cfg, s))
  {
  }

  lemma RequestIsNeverStuck(cfg: Config, s: State)
    ensures !Stuck(RequestWanted(cfg, s))
  {
    FinishIsNeverStuck(cfg, s);
  }

  lemma StepKeepsGoing(cfg: Config, s: State, e: Event)
    requires !e.Connect? && (IsFinalList(e) || !Stuck(s))
    ensures !Stuck(Stepped(cfg, s, e))
  {
    match e
    case Cap(m) =>
      if |m.params| >= 2 {
        CapKeepsGoing(cfg, s, m);
      }
    case _ =>
  }

  lemma CapKeepsGoing(cfg: Config, s: State, m: Message)
    requires |m.params| >= 2 && (IsFinalList(Cap(m)) || !Stuck(s))
    ensures !Stuck(CapHandled(cfg, s, m))
  {
    WaitingUntilAnswered(s.caps, Advertise, ListOf(m));
    WaitingUntilAnswered(s.caps, Withdraw, ListOf(m));
    RequestIsNeverStuck(cfg, WithList(s, Advertise, m));
    FinishIsNeverStuck(cfg, WithList(s, Ack, m));
    FinishIsNeverStuck(cfg, WithList(s, Nak, m));
  }

  /**
   No stall: once the server has finished listing, whenever the client is still negotiating a request is pending or
   an exchange is in flight.
   */
  lemma {:induction false} NeverStuckOnceListed(cfg: Config, h: seq<Event>)
    requires Listed(h)
    ensures !Stuck(Reached(cfg, h))
  {
    var front, e := h[..|h| - 1], h[|h| - 1];
    if !IsFinalList(e) {
      NeverStuckOnceListed(cfg, front);
    }
    StepKeepsGoing(cfg, Reached(cfg, front), e);
  }

  /**
   The waiting is honest: since the connection state was last reset, every pending capability was asked for, and the
   exchange was opened exactly once if it is in flight and never more than once.
   */
  lemma {:induction false} EveryWaitWasAskedFor(cfg: Config, h: seq<Event>)
    ensures var s, sent := Reached(cfg, h), SinceDrop(cfg, h);
            && (forall n | n in s.caps.pending :: CapReq(n) in sent)
            && Tally(sent, IsMechanism) <= 1
            && (s.sasl == Idle ==> Tally(sent, IsMechanism) == 0)
            && (InFlight(s.sasl) ==> Tally(sent, IsMechanism) == 1)
  {
    if h != [] {
      var front, e := h[..|h| - 1], h[|h| - 1];
      EveryWaitWasAskedFor(cfg, front);
      TallyAdds(SinceDrop(cfg, front), NewLines(cfg, h), IsMechanism);
      if e.Connect? {
        ConnectSends(cfg, h);
      } else if e.Welcome? || e.Drop? {
        WelcomeAndDropSendNothing(cfg, h);
      } else {
        StepRules(cfg, h);
        FlightNeedsAMechanism(cfg, Reached(cfg, front), e);
      }
    }
  }

  /** An exchange cannot come to be in flight from being settled. */
  lemma FlightNeedsAMechanism(cfg: Config, s: State, e: Event)
    requires !e.Connect? && !e.Drop? && !e.Welcome?
    ensures InFlight(Stepped(cfg, s, e).sasl) ==> s.sasl == Idle || InFlight(s.sasl)
  {
  }

  /**
   So a server that answers is enough: once it has listed, has answered every request and no exchange is in flight,
   negotiation is over, and if the welcome has not come and the connection is up, `CAP END` went out exactly once.
   */
  lemma AnsweredMeansEnded(cfg: Config, h: seq<Event>)
    requires Listed(h) && Reached(cfg, h).caps.pending == [] && !InFlight(Reached(cfg, h).sasl)
    ensures Reached(cfg, h).phase != Negotiating
    ensures Reached(cfg, h).phase == Registering ==> Tally(SinceConnect(cfg, h), IsEnd) == 1
  {
    NeverStuckOnceListed(cfg, h);
    CapEndAtMostOnce(cfg, h);
  }

  /** What we hold is never still waited for, after any run. */
  lemma {:induction false} HeldIsNeverPending(cfg: Config, h: seq<Event>)
    ensures HeldIsAnswered(Reached(cfg, h).caps)
  {
    if h != [] {
      var front, e := h[..|h| - 1], h[|h| - 1];
      HeldIsNeverPending(cfg, front);
      StepKeepsHeldAnswered(cfg, Reached(cfg, front), e);
    }
  }

  lemma RequestKeepsHeldAnswered(cfg: Config, s: State)
    requires HeldIsAnswered(s.caps)
    ensures HeldIsAnswered(RequestWanted(cfg, s).caps)
  {
  }

  lemma FinishLeavesCaps(cfg: Config, s: State)
    ensures FinishIfSettled(cfg, s).caps == s.caps
  {
  }

  lemma CapKeepsHeldAnswered(cfg: Config, s: State, m: Message)
    requires HeldIsAnswered(s.caps) && |m.params| >= 2
    ensures HeldIsAnswered(CapHandled(cfg, s, m).caps)
  {
    match SubcommandOf(m.params[1])
    case Ls =>
      ListsKeepHeldAnswered(s.caps, Advertise, ListOf(m));
      RequestKeepsHeldAnswered(cfg, WithList(s, Advertise, m));
    case New =>
      ListsKeepHeldAnswered(s.caps, Advertise, ListOf(m));
      RequestKeepsHeldAnswered(cfg, WithList(s, Advertise, m));
    case Del => ListsKeepHeldAnswered(s.caps, Withdraw, ListOf(m));
    case CapAck =>
      ListsKeepHeldAnswered(s.caps, Ack, ListOf(m));
      FinishLeavesCaps(cfg, WithList(s, Ack, m));
    case CapNak =>
      ListsKeepHeldAnswered(s.caps, Nak, ListOf(m));
      FinishLeavesCaps(cfg, WithList(s, Nak, m));
    case Unknown =>
  }

  lemma StepKeepsHeldAnswered(cfg: Config, s: State, e: Event)
    requires HeldIsAnswered(s.caps)
    ensures HeldIsAnswered(Stepped(cfg, s, e).caps)
  {
    if e.Cap? {
      if |e.m.params| >= 2 {
        CapKeepsHeldAnswered(cfg, s, e.m);
      }
    }
  }
}
