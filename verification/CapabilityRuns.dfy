/**
 What a run of CAP lines comes to, read off the words of the lines themselves: which capabilities are on offer, held and
 waited for, exactly which are asked for and when, and that a held `sasl` is tried before negotiation ends
 (crates/obby-client/src/caps.rs:95-157 and crates/obby-client/src/client.rs:1344-1513).
 */
module CapabilityRuns {
  import opened Wrappers
  import opened Caps
  import opened Negotiation
  import opened NegotiationRuns
  import Sasl
  import Text

  // ---- reading words ----

  /** The word is the capability's name, alone or with a value after `=`. */
  predicate About(word: string, name: string) {
    '=' !in name && (word == name || name + "=" <= word)
  }

  function ValueIn(word: string, name: string): Option<string>
    requires About(word, name)
  {
    if word == name then None else Some(word[|name| + 1..])
  }

  lemma AboutIff(word: string, name: string)
    ensures About(word, name) <==> SplitValue(word).0 == name
    ensures About(word, name) ==> SplitValue(word).1 == ValueIn(word, name)
  {
    Text.SplitOnceParts(word, '=');
    if About(word, name) {
      if word == name {
        Text.SplitOnceMiss(word, '=');
      } else {
        assert word == name + ['='] + word[|name| + 1..];
        Text.SplitOnceHit(name, '=', word[|name| + 1..]);
      }
    }
    if SplitValue(word).0 == name {
      var given := SplitValue(word).1;
      assert given.Some? ==> word == name + "=" + given.value;
    }
  }

  /** What the last word about a capability says of its value, if there is one. */
  function LastValue(words: seq<string>, name: string): Option<Option<string>> {
    if words == [] then None
    else
      var last := words[|words| - 1];
      if About(last, name) then Some(ValueIn(last, name)) else LastValue(words[..|words| - 1], name)
  }

  /** A word of an answer: the capability is ours, or with a minus in front it no longer is. */
  predicate Grants(word: string, name: string) {
    !("-" <= word) && About(word, name)
  }

  predicate Revokes(word: string, name: string) {
    word == "-" + name
  }

  /** What an answer's last word about a capability says: ours with this value given, not ours, or nothing. */
  function LastAnswer(words: seq<string>, name: string): Option<Option<Option<string>>> {
    if words == [] then None
    else
      var last := words[|words| - 1];
      if Grants(last, name) then Some(Some(ValueIn(last, name)))
      else if Revokes(last, name) then Some(None)
      else LastAnswer(words[..|words| - 1], name)
  }

  predicate Tells(e: Event, subcommand: string) {
    e.Cap? && |e.m.params| >= 2 && Text.Lower(e.m.params[1]) == subcommand
  }

  predicate Lists(e: Event) {
    Tells(e, "ls") || Tells(e, "new")
  }

  /** Everything the server has to list at this point has been listed: no `*` says that more follows. */
  predicate Completes(e: Event) {
    Tells(e, "new") || (Tells(e, "ls") && !(|e.m.params| > 2 && e.m.params[2] == "*"))
  }

  function Words(e: Event): seq<string>
    requires e.Cap? && |e.m.params| >= 2
  {
    Tokens(e.m.params[|e.m.params| - 1])
  }

  // ---- reading runs ----

  /** The value a capability is on offer with since the connection was last lost. */
  function Offer(h: seq<Event>, name: string): Option<Option<string>> {
    if h == [] then None
    else
      var e, before := h[|h| - 1], Offer(h[..|h| - 1], name);
      if e.Drop? then None
      else if Lists(e) && LastValue(Words(e), name).Some? then LastValue(Words(e), name)
      else if Tells(e, "del") && LastValue(Words(e), name).Some? then None
      else before
  }

  /** What an answer makes of a holding: a grant takes its value from the word, or else from the offer. */
  function Answered(answer: Option<Option<Option<string>>>, offer: Option<Option<string>>, before: Option<Option<string>>)
    : Option<Option<string>>
  {
    match answer
    case None => before
    case Some(None) => None
    case Some(Some(Some(value))) => Some(Some(value))
    case Some(Some(None)) => Some(if offer.Some? then offer.value else None)
  }

  /** The value a capability is held with: the one it was granted with, or else the one it was on offer with. */
  function Holding(h: seq<Event>, name: string): Option<Option<string>> {
    if h == [] then None
    else
      var e, front := h[|h| - 1], h[..|h| - 1];
      if e.Drop? then None
      else if Tells(e, "ack") then Answered(LastAnswer(Words(e), name), Offer(front, name), Holding(front, name))
      else if Tells(e, "del") && LastValue(Words(e), name).Some? then None
      else Holding(front, name)
  }

  /** Asked for, and not answered since. */
  predicate Waiting(cfg: Config, h: seq<Event>, name: string) {
    h != [] &&
    var e, front := h[|h| - 1], h[..|h| - 1];
    if e.Drop? then false
    else if CapReq(name) in NewLines(cfg, h) then true
    else if Tells(e, "ack") && LastAnswer(Words(e), name).Some? then false
    else if Tells(e, "nak") && LastValue(Words(e), name).Some? then false
    else Waiting(cfg, front, name)
  }

  // ---- lists, word by word ----

  lemma {:induction false} ListIsOffer(c: CapState, words: seq<string>, name: string)
    ensures var after, last := After(c, Reply.Advertise, words), LastValue(words, name);
            && after.acknowledged == c.acknowledged && after.pending == c.pending
            && (last.Some? ==> name in after.available && after.available[name] == last.value)
            && (last.None? ==> (name in after.available <==> name in c.available)
                               && (name in c.available ==> after.available[name] == c.available[name]))
  {
    if words != [] {
      ListIsOffer(c, words[..|words| - 1], name);
      AboutIff(words[|words| - 1], name);
    }
  }

  lemma {:induction false} WithdrawalIsNoOffer(c: CapState, words: seq<string>, name: string)
    ensures var after, last := After(c, Reply.Withdraw, words), LastValue(words, name);
            && after.pending == c.pending
            && (last.Some? ==> name !in after.available && name !in after.acknowledged)
            && (last.None? ==> && (name in after.available <==> name in c.available)
                               && (name in c.available ==> after.available[name] == c.available[name])
                               && (name in after.acknowledged <==> name in c.acknowledged)
                               && (name in c.acknowledged ==> after.acknowledged[name] == c.acknowledged[name]))
  {
    if words != [] {
      WithdrawalIsNoOffer(c, words[..|words| - 1], name);
      AboutIff(words[|words| - 1], name);
    }
  }

  /** The value a grant leaves a capability with. */
  function Granted(c: CapState, given: Option<string>, name: string): Option<string> {
    if given.Some? then given else if name in c.available then c.available[name] else None
  }

  lemma {:induction false} AnswerDecides(c: CapState, words: seq<string>, name: string)
    ensures var after, last := After(c, Ack, words), LastAnswer(words, name);
            && after.available == c.available
            && (last == Some(None) ==> name !in after.acknowledged)
            && (last.Some? && last.value.Some? ==>
                  name in after.acknowledged && after.acknowledged[name] == Granted(c, last.value.value, name))
            && (last.None? ==> (name in after.acknowledged <==> name in c.acknowledged)
                               && (name in c.acknowledged ==> after.acknowledged[name] == c.acknowledged[name]))
            && (name in after.pending <==> name in c.pending && last.None?)
  {
    if words != [] {
      var last := words[|words| - 1];
      AnswerDecides(c, words[..|words| - 1], name);
      AboutIff(last, name);
      assert last != "" && last[0] == '-' ==> (Revokes(last, name) <==> last[1..] == name);
    }
  }

  lemma {:induction false} RefusalDecides(c: CapState, words: seq<string>, name: string)
    ensures var after := After(c, Nak, words);
            && after.available == c.available && after.acknowledged == c.acknowledged
            && (name in after.pending <==> name in c.pending && LastValue(words, name).None?)
  {
    if words != [] {
      RefusalDecides(c, words[..|words| - 1], name);
      AboutIff(words[|words| - 1], name);
    }
  }

  // ---- what one event asks for ----

  lemma {:induction false} RequestsAre(names: seq<string>, name: string)
    ensures CapReq(name) in Requests(names) <==> name in names
  {
    if names != [] {
      RequestsAre(names[..|names| - 1], name);
      assert names == names[..|names| - 1] + [names[|names| - 1]];
    }
  }

  /** Ending negotiation, or opening the exchange, asks for no capability. */
  lemma FinishAsksNothing(cfg: Config, s: State, name: string) returns (lines: seq<Line>)
    ensures var t := FinishIfSettled(cfg, s);
            t.caps == s.caps && t.outbox == s.outbox + lines && CapReq(name) !in lines
  {
    var t := StartSasl(cfg, s);
    if s.phase != Negotiating || s.caps.pending != [] {
      lines := [];
    } else {
      lines := (if t.outbox == s.outbox then [] else [Mechanism(cfg.sasl.value.mechanism)])
               + (if InFlight(t.sasl) then [] else [CapEnd]);
    }
  }

  /** At the end of a list, exactly the wanted capabilities that are on offer, not held and not waited for are asked for. */
  lemma WantedAreAsked(cfg: Config, s: State, name: string) returns (lines: seq<Line>)
    ensures var t := RequestWanted(cfg, s);
            && t.outbox == s.outbox + lines
            && t.caps.available == s.caps.available && t.caps.acknowledged == s.caps.acknowledged
            && (CapReq(name) in lines <==>
                  name in cfg.wanted && name in s.caps.available && name !in s.caps.acknowledged && name !in s.caps.pending)
            && (name in t.caps.pending <==> name in s.caps.pending || CapReq(name) in lines)
  {
    var names := ToRequest(s.caps, cfg.wanted);
    if names == [] {
      lines := FinishAsksNothing(cfg, s, name);
    } else {
      lines := Requests(names);
      RequestsAre(names, name);
    }
  }

  lemma AuthenticateAsksNothing(cfg: Config, s: State, e: Event, name: string) returns (lines: seq<Line>)
    requires e.Authenticate? || e.Verdict?
    ensures var t := Stepped(cfg, s, e);
            t.caps == s.caps && t.outbox == s.outbox + lines && CapReq(name) !in lines
  {
    var settled := s.(sasl := Settled);
    lines := [];
    if e.Verdict? || e.challenge.Undecodable? {
      if s.sasl != Settled {
        lines := FinishAsksNothing(cfg, settled, name);
      }
    } else if s.sasl == Offered && cfg.sasl.Some? {
      lines := Payloads(Sasl.Lines(cfg.sasl.value.opening));
    } else if s.sasl == ScramChallenged {
      if s.hasScram && e.challenge.answer.Some? {
        lines := Payloads(Sasl.Lines(e.challenge.answer.value));
      } else {
        lines := FinishAsksNothing(cfg, settled, name);
      }
    } else if s.sasl == ScramProved {
      if s.hasScram && e.challenge.verified {
        lines := [Payload("+")];
      } else {
        lines := FinishAsksNothing(cfg, settled.(hasScram := false), name);
      }
    }
  }

  lemma ListStep(cfg: Config, s: State, e: Event, name: string) returns (lines: seq<Line>)
    requires Lists(e)
    ensures var c, t := After(s.caps, Reply.Advertise, Words(e)), Stepped(cfg, s, e);
            && t.outbox == s.outbox + lines
            && t.caps.available == c.available && t.caps.acknowledged == c.acknowledged
            && (CapReq(name) in lines <==> Completes(e) && name in cfg.wanted && name in c.available
                                           && name !in c.acknowledged && name !in c.pending)
            && (name in t.caps.pending <==> name in c.pending || CapReq(name) in lines)
  {
    if Completes(e) {
      lines := WantedAreAsked(cfg, WithList(s, Reply.Advertise, e.m), name);
    } else {
      lines := [];
    }
  }

  lemma AnswerStep(cfg: Config, s: State, e: Event, name: string) returns (lines: seq<Line>)
    requires Tells(e, "ack") || Tells(e, "nak")
    ensures var t := Stepped(cfg, s, e);
            && t.outbox == s.outbox + lines && CapReq(name) !in lines
            && t.caps == After(s.caps, if Tells(e, "ack") then Ack else Nak, Words(e))
  {
    lines := FinishAsksNothing(cfg, WithList(s, if Tells(e, "ack") then Ack else Nak, e.m), name);
  }

  /** Any other event leaves what is on offer, held and waited for, or is a withdrawal. */
  lemma OtherStep(cfg: Config, s: State, e: Event, name: string) returns (lines: seq<Line>)
    requires !e.Drop? && !Lists(e) && !Tells(e, "ack") && !Tells(e, "nak")
    ensures var t := Stepped(cfg, s, e);
            && t.outbox == s.outbox + lines && CapReq(name) !in lines
            && t.caps == if Tells(e, "del") then After(s.caps, Reply.Withdraw, Words(e)) else s.caps
  {
    if e.Authenticate? || e.Verdict? {
      lines := AuthenticateAsksNothing(cfg, s, e, name);
    } else {
      lines := if e.Connect? then [CapLs, Introduction] else [];
    }
  }

  // ---- every run ----

  /** The capability state of a client agrees with what its run says of one capability. */
  predicate Agrees(c: CapState, offer: Option<Option<string>>, holding: Option<Option<string>>, waiting: bool, name: string) {
    && (name in c.available <==> offer.Some?) && (name in c.available ==> c.available[name] == offer.value)
    && (name in c.acknowledged <==> holding.Some?) && (name in c.acknowledged ==> c.acknowledged[name] == holding.value)
    && (name in c.pending <==> waiting)
  }

  /** A capability is asked for exactly when a list is complete, and it is wanted, on offer, not held and not waited for. */
  predicate AskedNow(cfg: Config, h: seq<Event>, name: string)
    requires h != []
  {
    && Completes(h[|h| - 1]) && name in cfg.wanted && Offer(h, name).Some? && Holding(h, name).None?
    && !Waiting(cfg, h[..|h| - 1], name)
  }

  lemma ListAgrees(cfg: Config, h: seq<Event>, name: string)
    requires h != [] && Lists(h[|h| - 1])
    requires var front := h[..|h| - 1];
             Agrees(Reached(cfg, front).caps, Offer(front, name), Holding(front, name), Waiting(cfg, front, name), name)
    ensures Agrees(Reached(cfg, h).caps, Offer(h, name), Holding(h, name), Waiting(cfg, h, name), name)
    ensures CapReq(name) in NewLines(cfg, h) <==> AskedNow(cfg, h, name)
  {
    var front, e := h[..|h| - 1], h[|h| - 1];
    var lines := ListStep(cfg, Reached(cfg, front), e, name);
    ListIsOffer(Reached(cfg, front).caps, Words(e), name);
    NewLinesAre(cfg, h, lines);
  }

  lemma AnswerAgrees(c: CapState, words: seq<string>, offer: Option<Option<string>>, holding: Option<Option<string>>,
                     waiting: bool, name: string)
    requires Agrees(c, offer, holding, waiting, name)
    ensures Agrees(After(c, Ack, words), offer, Answered(LastAnswer(words, name), offer, holding),
                   waiting && LastAnswer(words, name).None?, name)
  {
    AnswerDecides(c, words, name);
  }

  lemma GrantAgrees(cfg: Config, h: seq<Event>, name: string)
    requires h != [] && Tells(h[|h| - 1], "ack")
    requires var front := h[..|h| - 1];
             Agrees(Reached(cfg, front).caps, Offer(front, name), Holding(front, name), Waiting(cfg, front, name), name)
    ensures Agrees(Reached(cfg, h).caps, Offer(h, name), Holding(h, name), Waiting(cfg, h, name), name)
    ensures CapReq(name) !in NewLines(cfg, h)
  {
    var front, e := h[..|h| - 1], h[|h| - 1];
    var lines := AnswerStep(cfg, Reached(cfg, front), e, name);
    AnswerAgrees(Reached(cfg, front).caps, Words(e), Offer(front, name), Holding(front, name), Waiting(cfg, front, name), name);
    NewLinesAre(cfg, h, lines);
  }

  lemma RefusalAgrees(cfg: Config, h: seq<Event>, name: string)
    requires h != [] && Tells(h[|h| - 1], "nak")
    requires var front := h[..|h| - 1];
             Agrees(Reached(cfg, front).caps, Offer(front, name), Holding(front, name), Waiting(cfg, front, name), name)
    ensures Agrees(Reached(cfg, h).caps, Offer(h, name), Holding(h, name), Waiting(cfg, h, name), name)
    ensures CapReq(name) !in NewLines(cfg, h)
  {
    var front, e := h[..|h| - 1], h[|h| - 1];
    var lines := AnswerStep(cfg, Reached(cfg, front), e, name);
    RefusalDecides(Reached(cfg, front).caps, Words(e), name);
    NewLinesAre(cfg, h, lines);
  }

  lemma OtherAgrees(cfg: Config, h: seq<Event>, name: string)
    requires h != [] && !Lists(h[|h| - 1]) && !Tells(h[|h| - 1], "ack") && !Tells(h[|h| - 1], "nak")
    requires var front := h[..|h| - 1];
             Agrees(Reached(cfg, front).caps, Offer(front, name), Holding(front, name), Waiting(cfg, front, name), name)
    ensures Agrees(Reached(cfg, h).caps, Offer(h, name), Holding(h, name), Waiting(cfg, h, name), name)
    ensures CapReq(name) !in NewLines(cfg, h)
  {
    var front, e := h[..|h| - 1], h[|h| - 1];
    if e.Drop? {
      WelcomeAndDropSendNothing(cfg, h);
    } else {
      var lines := OtherStep(cfg, Reached(cfg, front), e, name);
      NewLinesAre(cfg, h, lines);
      if Tells(e, "del") {
        WithdrawalIsNoOffer(Reached(cfg, front).caps, Words(e), name);
      }
    }
  }

  /**
   After every run, what the client takes to be on offer, held and waited for is what the words of the lines say, values
   included; and an event asks for a capability if and only if it completes a list and the capability is wanted, on offer,
   not held and not waited for.
   */
  lemma {:induction false} CapabilitiesAreAsSaid(cfg: Config, h: seq<Event>, name: string)
    ensures Agrees(Reached(cfg, h).caps, Offer(h, name), Holding(h, name), Waiting(cfg, h, name), name)
    ensures h != [] ==> (CapReq(name) in NewLines(cfg, h) <==> AskedNow(cfg, h, name))
  {
    if h != [] {
      CapabilitiesAreAsSaid(cfg, h[..|h| - 1], name);
      var e := h[|h| - 1];
      if Lists(e) {
        ListAgrees(cfg, h, name);
      } else if Tells(e, "ack") {
        GrantAgrees(cfg, h, name);
      } else if Tells(e, "nak") {
        RefusalAgrees(cfg, h, name);
      } else {
        OtherAgrees(cfg, h, name);
      }
    }
  }

  // ---- what follows ----

  /** At some complete list since the connection was last lost the capability was on offer. */
  predicate Shown(h: seq<Event>, name: string) {
    h != [] && !h[|h| - 1].Drop? &&
    ((Completes(h[|h| - 1]) && Offer(h, name).Some?) || Shown(h[..|h| - 1], name))
  }

  /** The capability has been held since the connection was last lost. */
  predicate EverHeld(h: seq<Event>, name: string) {
    h != [] && !h[|h| - 1].Drop? && (Holding(h, name).Some? || EverHeld(h[..|h| - 1], name))
  }

  lemma {:induction false} WaitingWasAsked(cfg: Config, h: seq<Event>, name: string)
    requires Waiting(cfg, h, name)
    ensures CapReq(name) in SinceDrop(cfg, h)
  {
    if CapReq(name) !in NewLines(cfg, h) {
      WaitingWasAsked(cfg, h[..|h| - 1], name);
    }
  }

  /** Every wanted capability the server has shown since the connection was last lost has been asked for, or has been held. */
  lemma {:induction false} WantedIsAskedFor(cfg: Config, h: seq<Event>, name: string)
    requires name in cfg.wanted && Shown(h, name)
    ensures CapReq(name) in SinceDrop(cfg, h) || EverHeld(h, name)
  {
    var front := h[..|h| - 1];
    if Completes(h[|h| - 1]) && Offer(h, name).Some? {
      CapabilitiesAreAsSaid(cfg, h, name);
      if Waiting(cfg, front, name) {
        WaitingWasAsked(cfg, front, name);
      }
    } else {
      WantedIsAskedFor(cfg, front, name);
    }
  }

  /** Nothing else is ever asked for. */
  lemma {:induction false} OnlyWantedIsAskedFor(cfg: Config, h: seq<Event>, name: string)
    requires CapReq(name) in SinceDrop(cfg, h)
    ensures name in cfg.wanted && Shown(h, name)
  {
    CapabilitiesAreAsSaid(cfg, h, name);
    if CapReq(name) !in NewLines(cfg, h) {
      OnlyWantedIsAskedFor(cfg, h[..|h| - 1], name);
    }
  }

  /** A grant is a holding: after an ACK whose last word about a capability has no minus, it is held. */
  lemma GrantedIsHeld(cfg: Config, h: seq<Event>, name: string)
    requires h != [] && Tells(h[|h| - 1], "ack")
    requires LastAnswer(Words(h[|h| - 1]), name).Some? && LastAnswer(Words(h[|h| - 1]), name).value.Some?
    ensures name in Reached(cfg, h).caps.acknowledged && name !in Reached(cfg, h).caps.pending
  {
    CapabilitiesAreAsSaid(cfg, h, name);
  }

  // ---- authentication ----

  /** The server ended the exchange itself, or sent something that is no challenge. */
  predicate CutsShort(e: Event) {
    e.Verdict? || (e.Authenticate? && e.challenge.Undecodable?)
  }

  /** Since the connection was last lost, `sasl` has been held without our mechanism in its value. */
  predicate Lacked(cfg: Config, h: seq<Event>)
    requires cfg.sasl.Some?
  {
    h != [] && !h[|h| - 1].Drop? &&
    (|| (Holding(h, "sasl").Some? && !Sasl.Offers(Holding(h, "sasl").value, cfg.sasl.value.mechanism))
     || Lacked(cfg, h[..|h| - 1]))
  }

  predicate Opened(cfg: Config, h: seq<Event>)
    requires cfg.sasl.Some?
  {
    Mechanism(cfg.sasl.value.mechanism) in SinceDrop(cfg, h)
  }

  /** Since the connection was last lost the exchange was cut short before it was opened. */
  predicate CutUnopened(cfg: Config, h: seq<Event>)
    requires cfg.sasl.Some?
  {
    h != [] && !h[|h| - 1].Drop? &&
    ((CutsShort(h[|h| - 1]) && !Opened(cfg, h[..|h| - 1])) || CutUnopened(cfg, h[..|h| - 1]))
  }

  /** A step that leaves the exchange no longer idle opened it, was cut short, or found our mechanism missing. */
  lemma IdleEnds(cfg: Config, s: State, e: Event) returns (lines: seq<Line>)
    requires cfg.sasl.Some? && !e.Connect? && !e.Drop? && !e.Welcome? && s.sasl == Idle
    ensures Stepped(cfg, s, e).outbox == s.outbox + lines
    ensures var t := Stepped(cfg, s, e);
            || t.sasl == Idle || Mechanism(cfg.sasl.value.mechanism) in lines || CutsShort(e)
            || ("sasl" in t.caps.acknowledged && !Sasl.Offers(t.caps.acknowledged["sasl"], cfg.sasl.value.mechanism))
  {
    if e.Cap? && |e.m.params| >= 2 && Lists(e) && Completes(e) {
      lines := WantedOpens(cfg, WithList(s, Reply.Advertise, e.m));
    } else if Tells(e, "ack") || Tells(e, "nak") {
      lines := FinishOpens(cfg, WithList(s, if Tells(e, "ack") then Ack else Nak, e.m));
    } else if CutsShort(e) {
      lines := AuthenticateAsksNothing(cfg, s, e, "");
    } else {
      lines := [];
    }
  }

  lemma FinishOpens(cfg: Config, s: State) returns (lines: seq<Line>)
    requires cfg.sasl.Some? && s.sasl == Idle
    ensures var t := FinishIfSettled(cfg, s);
            && t.outbox == s.outbox + lines && t.caps == s.caps
            && (|| t.sasl == Idle || Mechanism(cfg.sasl.value.mechanism) in lines
                || ("sasl" in t.caps.acknowledged && !Sasl.Offers(t.caps.acknowledged["sasl"], cfg.sasl.value.mechanism)))
  {
    var t := StartSasl(cfg, s);
    if s.phase != Negotiating || s.caps.pending != [] {
      lines := [];
    } else {
      lines := (if t.outbox == s.outbox then [] else [Mechanism(cfg.sasl.value.mechanism)])
               + (if InFlight(t.sasl) then [] else [CapEnd]);
    }
  }

  lemma WantedOpens(cfg: Config, s: State) returns (lines: seq<Line>)
    requires cfg.sasl.Some? && s.sasl == Idle
    ensures var t := RequestWanted(cfg, s);
            && t.outbox == s.outbox + lines
            && (|| t.sasl == Idle || Mechanism(cfg.sasl.value.mechanism) in lines
                || ("sasl" in t.caps.acknowledged && !Sasl.Offers(t.caps.acknowledged["sasl"], cfg.sasl.value.mechanism)))
  {
    var names := ToRequest(s.caps, cfg.wanted);
    if names == [] {
      lines := FinishOpens(cfg, s);
    } else {
      lines := Requests(names);
    }
  }

  lemma {:induction false} NoneTallied(lines: seq<Line>, l: Line, counted: Line -> bool)
    requires Tally(lines, counted) == 0 && counted(l)
    ensures l !in lines
  {
    if lines != [] {
      NoneTallied(lines[..|lines| - 1], l, counted);
      assert lines == lines[..|lines| - 1] + [lines[|lines| - 1]];
    }
  }

  lemma IdleIsUnopened(cfg: Config, h: seq<Event>)
    requires cfg.sasl.Some? && Reached(cfg, h).sasl == Idle
    ensures !Opened(cfg, h)
  {
    EveryWaitWasAskedFor(cfg, h);
    NoneTallied(SinceDrop(cfg, h), Mechanism(cfg.sasl.value.mechanism), IsMechanism);
  }

  /** The exchange is idle until it is opened, unless it is cut short first or our mechanism is missing. */
  lemma {:induction false} OpenedOrNot(cfg: Config, h: seq<Event>)
    requires cfg.sasl.Some?
    ensures Reached(cfg, h).sasl == Idle || Opened(cfg, h) || CutUnopened(cfg, h) || Lacked(cfg, h)
  {
    if h != [] {
      var front, e := h[..|h| - 1], h[|h| - 1];
      OpenedOrNot(cfg, front);
      if !e.Connect? && !e.Drop? && !e.Welcome? && Reached(cfg, front).sasl == Idle {
        var lines := IdleEnds(cfg, Reached(cfg, front), e);
        NewLinesAre(cfg, h, lines);
        CapabilitiesAreAsSaid(cfg, h, "sasl");
        IdleIsUnopened(cfg, front);
      }
    }
  }

  lemma SettledAsks(cfg: Config, s: State, name: string) returns (lines: seq<Line>)
    requires s.sasl == Settled
    ensures RequestWanted(cfg, s).sasl == Settled && RequestWanted(cfg, s).outbox == s.outbox + lines && Mechanism(name) !in lines
  {
    var names := ToRequest(s.caps, cfg.wanted);
    if names != [] {
      lines := Requests(names);
      RequestsOpenNothing(names, name);
    } else {
      lines := if s.phase != Negotiating || s.caps.pending != [] then [] else [CapEnd];
    }
  }

  /** A settled exchange stays settled, and is not opened. */
  lemma SettledStays(cfg: Config, s: State, e: Event, name: string) returns (lines: seq<Line>)
    requires s.sasl == Settled && !e.Drop?
    ensures Stepped(cfg, s, e).sasl == Settled && Stepped(cfg, s, e).outbox == s.outbox + lines && Mechanism(name) !in lines
  {
    if Lists(e) && Completes(e) {
      lines := SettledAsks(cfg, WithList(s, Reply.Advertise, e.m), name);
    } else if Tells(e, "ack") || Tells(e, "nak") {
      var answered := WithList(s, if Tells(e, "ack") then Ack else Nak, e.m);
      lines := if answered.phase != Negotiating || answered.caps.pending != [] then [] else [CapEnd];
    } else {
      lines := if e.Connect? then [CapLs, Introduction] else [];
    }
  }

  lemma {:induction false} RequestsOpenNothing(names: seq<string>, name: string)
    ensures Mechanism(name) !in Requests(names)
  {
    if names != [] {
      RequestsOpenNothing(names[..|names| - 1], name);
    }
  }

  lemma CutSettles(cfg: Config, s: State, e: Event)
    requires CutsShort(e) && s.sasl == Idle
    ensures Stepped(cfg, s, e).sasl == Settled
  {
  }

  /** An exchange cut short before it was opened is not opened any more. */
  lemma {:induction false} CutIsNeverOpened(cfg: Config, h: seq<Event>)
    requires cfg.sasl.Some? && CutUnopened(cfg, h) && !Lacked(cfg, h)
    ensures !Opened(cfg, h) && Reached(cfg, h).sasl == Settled
  {
    var front, e := h[..|h| - 1], h[|h| - 1];
    if CutUnopened(cfg, front) {
      CutIsNeverOpened(cfg, front);
    } else {
      OpenedOrNot(cfg, front);
      CutSettles(cfg, Reached(cfg, front), e);
      var lines := CutOpensNothing(cfg, Reached(cfg, front), e);
      NewLinesAre(cfg, h, lines);
    }
    if CutUnopened(cfg, front) {
      var lines := SettledStays(cfg, Reached(cfg, front), e, cfg.sasl.value.mechanism);
      NewLinesAre(cfg, h, lines);
    }
  }

  lemma CutOpensNothing(cfg: Config, s: State, e: Event) returns (lines: seq<Line>)
    requires CutsShort(e) && s.sasl == Idle
    ensures Stepped(cfg, s, e).outbox == s.outbox + lines && (lines == [] || lines == [CapEnd])
  {
    lines := if s.phase != Negotiating || s.caps.pending != [] then [] else [CapEnd];
  }

  /**
   Whether authentication is skipped: when `CAP END` goes out while `sasl` is held, and has not been held without our
   mechanism, the exchange has been opened with it if and only if the server did not cut it short before it was opened.
   */
  lemma HeldSaslIsTriedIff(cfg: Config, h: seq<Event>)
    requires h != [] && CapEnd in NewLines(cfg, h)
    requires cfg.sasl.Some? && Holding(h, "sasl").Some? && !Lacked(cfg, h)
    ensures Opened(cfg, h) <==> !CutUnopened(cfg, h)
  {
    CapEndOnlyWhenReady(cfg, h);
    CapabilitiesAreAsSaid(cfg, h, "sasl");
    OpenedOrNot(cfg, h);
    if CutUnopened(cfg, h) {
      CutIsNeverOpened(cfg, h);
    }
  }

  /** For example by a verdict nobody asked for: the first thing a server says then ends every chance to authenticate. */
  lemma EarlyVerdictSkipsTheExchange(cfg: Config)
    requires cfg.sasl.Some?
    ensures CutUnopened(cfg, [Connect, Verdict]) && Reached(cfg, [Connect, Verdict]).sasl == Settled
    ensures Reached(cfg, [Connect, Verdict]).phase == Registering
  {
    assert [Connect, Verdict][..1] == [Connect];
    ConnectingNegotiates(cfg);
    IdleIsUnopened(cfg, [Connect]);
  }

  lemma ConnectingNegotiates(cfg: Config)
    ensures Reached(cfg, [Connect]) == Connected(START)
  {
    assert [Connect][..0] == [];
    assert Reached(cfg, []) == START;
  }

  /** A list that completes, or an answer, with nothing left to wait for opens the exchange instead of ending negotiation. */
  lemma SettledListOpensTheExchange(cfg: Config, h: seq<Event>)
    requires h != [] && (Tells(h[|h| - 1], "ack") || Tells(h[|h| - 1], "nak"))
    requires Reached(cfg, h[..|h| - 1]).phase == Negotiating && Reached(cfg, h[..|h| - 1]).sasl == Idle
    requires forall name :: !Waiting(cfg, h, name)
    requires cfg.sasl.Some? && Holding(h, "sasl").Some? && Sasl.Offers(Holding(h, "sasl").value, cfg.sasl.value.mechanism)
    ensures NewLines(cfg, h) == [Mechanism(cfg.sasl.value.mechanism)] && Reached(cfg, h).phase == Negotiating
  {
    var front, e := h[..|h| - 1], h[|h| - 1];
    var s := WithList(Reached(cfg, front), if Tells(e, "ack") then Ack else Nak, e.m);
    CapabilitiesAreAsSaid(cfg, h, "sasl");
    if Reached(cfg, h).caps.pending != [] {
      CapabilitiesAreAsSaid(cfg, h, Reached(cfg, h).caps.pending[0]);
    }
    FinishLeavesCaps(cfg, s);
    NewLinesAre(cfg, h, [Mechanism(cfg.sasl.value.mechanism)]);
  }

  // ---- what the server hears ----

  /** The opening payload goes out on the first challenge, whole, and for a single-step mechanism that is all. */
  lemma OpeningIsSent(cfg: Config, s: State, challenge: Challenge)
    requires s.sasl == Offered && cfg.sasl.Some? && challenge.Decoded?
    ensures var t := Stepped(cfg, s, Authenticate(challenge));
            && t == s.(sasl := t.sasl, hasScram := t.hasScram, outbox := t.outbox)
            && t.outbox == s.outbox + Payloads(Sasl.Lines(cfg.sasl.value.opening))
            && t.sasl == (if cfg.sasl.value.scram then ScramChallenged else Responded)
            && (cfg.sasl.value.scram ==> t.hasScram)
  {
  }

  lemma AnswerIsSent(cfg: Config, s: State, challenge: Challenge)
    requires s.sasl == ScramChallenged && s.hasScram && challenge.Decoded? && challenge.answer.Some?
    ensures Stepped(cfg, s, Authenticate(challenge))
         == s.(sasl := ScramProved, outbox := s.outbox + Payloads(Sasl.Lines(challenge.answer.value)))
  {
  }

  lemma ClosingIsSent(cfg: Config, s: State, challenge: Challenge)
    requires s.sasl == ScramProved && s.hasScram && challenge.Decoded? && challenge.verified
    ensures Stepped(cfg, s, Authenticate(challenge))
         == s.(sasl := Responded, hasScram := false, outbox := s.outbox + Payloads(["+"]))
  {
    assert Payloads(["+"]) == [Payload("+")];
  }

  lemma PayloadsAddUp(a: seq<string>, b: seq<string>)
    ensures Payloads(a + b) == Payloads(a) + Payloads(b)
  {
  }

  /** A SCRAM exchange carried through: three challenges, of which the second can be answered and the third verifies. */
  lemma ThreeChallenges(cfg: Config, s: State, first: Challenge, second: Challenge, third: Challenge)
    requires s.sasl == Offered && cfg.sasl.Some? && cfg.sasl.value.scram
    requires first.Decoded? && second.Decoded? && second.answer.Some? && third.Decoded? && third.verified
    ensures var t := Stepped(cfg, Stepped(cfg, Stepped(cfg, s, Authenticate(first)), Authenticate(second)), Authenticate(third));
            t == s.(sasl := Responded, hasScram := false,
                    outbox := s.outbox + Payloads(Sasl.Lines(cfg.sasl.value.opening)
                                                  + (Sasl.Lines(second.answer.value) + ["+"])))
  {
    var opening, answer := Sasl.Lines(cfg.sasl.value.opening), Sasl.Lines(second.answer.value);
    var s1 := Stepped(cfg, s, Authenticate(first));
    OpeningIsSent(cfg, s, first);
    AnswerIsSent(cfg, s1, second);
    ClosingIsSent(cfg, Stepped(cfg, s1, Authenticate(second)), third);
    PayloadsAddUp(opening, answer + ["+"]);
    PayloadsAddUp(answer, ["+"]);
  }

  /** What goes out is the opening, the answer and a closing `+`, each readable by a server that takes lines until one is not full. */
  lemma ExchangeIsCarriedThrough(cfg: Config, s: State, first: Challenge, second: Challenge, third: Challenge)
    requires s.sasl == Offered && cfg.sasl.Some? && cfg.sasl.value.scram
    requires first.Decoded? && second.Decoded? && second.answer.Some? && third.Decoded? && third.verified
    requires |cfg.sasl.value.opening| % 4 == 0 && |second.answer.value| % 4 == 0
    ensures var t := Stepped(cfg, Stepped(cfg, Stepped(cfg, s, Authenticate(first)), Authenticate(second)), Authenticate(third));
            exists sent, rest ::
              && t == s.(sasl := Responded, hasScram := false, outbox := s.outbox + Payloads(sent))
              && Sasl.Received(sent) == Some((cfg.sasl.value.opening, rest))
              && Sasl.Received(rest) == Some((second.answer.value, ["+"]))
  {
    var opening, answer := Sasl.Lines(cfg.sasl.value.opening), Sasl.Lines(second.answer.value);
    ThreeChallenges(cfg, s, first, second, third);
    Sasl.LinesAreReceived(cfg.sasl.value.opening, answer + ["+"]);
    Sasl.LinesAreReceived(second.answer.value, ["+"]);
    assert Sasl.Received(opening + (answer + ["+"])) == Some((cfg.sasl.value.opening, answer + ["+"]));
  }

  /** A challenge that cannot be answered, or a server that does not verify, settles the exchange and sends no payload more. */
  lemma FailureSettles(cfg: Config, s: State, challenge: Challenge)
    requires challenge.Undecodable?
             || (s.sasl == ScramChallenged && (!s.hasScram || challenge.answer == None))
             || (s.sasl == ScramProved && (!s.hasScram || !challenge.verified))
    ensures var t := Stepped(cfg, s, Authenticate(challenge));
            t.sasl == Settled && forall l | l in t.outbox :: l in s.outbox || l == CapEnd
  {
  }
}
