/**
 Capability negotiation interlocked with authentication (crates/obby-client/src/client.rs:338-371 and 1344-1513).
 Over every run `CAP END` is sent at most once a connection and only when nothing is outstanding, and the
 client never waits without having asked.
 */
module Negotiation {
  import opened Wrappers
  import opened Messages
  import opened Caps
  import Sasl
  import Text

  datatype Phase = Disconnected | Negotiating | Registering | Registered

  datatype SaslState = Idle | Offered | Responded | ScramChallenged | ScramProved | Settled

  predicate InFlight(s: SaslState) {
    s.Offered? || s.Responded? || s.ScramChallenged? || s.ScramProved?
  }

  /** A line to send. `Introduction` stands for the PASS, NICK and USER lines, which decide nothing here. */
  datatype Line = CapLs | Introduction | CapReq(name: string) | CapEnd | Mechanism(name: string) | Payload(text: string)

  /** `opening` is the base64 of the mechanism's first payload. */
  datatype Credentials = Credentials(mechanism: string, scram: bool, opening: string)

  datatype Config = Config(wanted: seq<string>, sasl: Option<Credentials>)

  datatype State = State(phase: Phase, caps: CapState, sasl: SaslState, hasScram: bool, outbox: seq<Line>)

  const START := State(Disconnected, NO_CAPS, Idle, false, [])

  /** What a challenge turns out to be: not base64, or one the SCRAM exchange answers or refuses, and verifies or not. */
  datatype Challenge = Undecodable | Decoded(answer: Option<string>, verified: bool)

  datatype Event =
    | Connect
    | Drop
    | Welcome
    | Cap(m: Message)
    | Authenticate(challenge: Challenge)
    | Verdict

  // ---- what each event does ----

  function StartSasl(cfg: Config, s: State): State {
    if s.sasl != Idle || "sasl" !in s.caps.acknowledged || cfg.sasl.None? then s
    else if !Sasl.Offers(s.caps.acknowledged["sasl"], cfg.sasl.value.mechanism) then s.(sasl := Settled)
    else s.(sasl := Offered, outbox := s.outbox + [Mechanism(cfg.sasl.value.mechanism)])
  }

  function FinishIfSettled(cfg: Config, s: State): State {
    if s.phase != Negotiating || s.caps.pending != [] then s
    else
      var t := StartSasl(cfg, s);
      if InFlight(t.sasl) then t else t.(phase := Registering, outbox := t.outbox + [CapEnd])
  }

  function Requests(names: seq<string>): seq<Line> {
    if names == [] then [] else Requests(names[..|names| - 1]) + [CapReq(names[|names| - 1])]
  }

  function RequestWanted(cfg: Config, s: State): State {
    var names := ToRequest(s.caps, cfg.wanted);
    if names == [] then FinishIfSettled(cfg, s)
    else s.(caps := s.caps.(pending := s.caps.pending + names), outbox := s.outbox + Requests(names))
  }

  function FinishSasl(cfg: Config, s: State): State {
    if s.sasl == Settled then s else FinishIfSettled(cfg, s.(sasl := Settled))
  }

  datatype Subcommand = Ls | New | Del | CapAck | CapNak | Unknown

  function SubcommandOf(text: string): Subcommand {
    var name := Text.Lower(text);
    if name == "ls" then Ls
    else if name == "new" then New
    else if name == "del" then Del
    else if name == "ack" then CapAck
    else if name == "nak" then CapNak
    else Unknown
  }

  function ListOf(m: Message): seq<string> {
    if m.params == [] then [] else Tokens(m.params[|m.params| - 1])
  }

  predicate MoreToCome(m: Message) {
    |m.params| > 2 && m.params[2] == "*"
  }

  function WithList(s: State, reply: Reply, m: Message): State {
    s.(caps := After(s.caps, reply, ListOf(m)))
  }

  function CapHandled(cfg: Config, s: State, m: Message): State {
    if |m.params| < 2 then s
    else
      match SubcommandOf(m.params[1])
      case Ls => if MoreToCome(m) then WithList(s, Advertise, m) else RequestWanted(cfg, WithList(s, Advertise, m))
      case New => RequestWanted(cfg, WithList(s, Advertise, m))
      case Del => WithList(s, Withdraw, m)
      case CapAck => FinishIfSettled(cfg, WithList(s, Ack, m))
      case CapNak => FinishIfSettled(cfg, WithList(s, Nak, m))
      case Unknown => s
  }

  function Payloads(texts: seq<string>): (r: seq<Line>)
    ensures forall l | l in r :: l.Payload?
  {
    seq(|texts|, i requires 0 <= i < |texts| => Payload(texts[i]))
  }

  function SaslSent(s: State, encoded: string): State {
    s.(outbox := s.outbox + Payloads(Sasl.Lines(encoded)))
  }

  function BeginResponse(cfg: Config, s: State): State {
    if cfg.sasl.None? then s
    else if cfg.sasl.value.scram then SaslSent(s.(sasl := ScramChallenged, hasScram := true), cfg.sasl.value.opening)
    else SaslSent(s.(sasl := Responded), cfg.sasl.value.opening)
  }

  function AnswerChallenge(cfg: Config, s: State, answer: Option<string>): State {
    if !s.hasScram || answer.None? then FinishSasl(cfg, s)
    else SaslSent(s.(sasl := ScramProved), answer.value)
  }

  function VerifyServer(cfg: Config, s: State, verified: bool): State {
    if !s.hasScram || !verified then FinishSasl(cfg, s.(hasScram := false))
    else s.(sasl := Responded, hasScram := false, outbox := s.outbox + [Payload("+")])
  }

  function AuthenticateHandled(cfg: Config, s: State, c: Challenge): State {
    match c
    case Undecodable => FinishSasl(cfg, s)
    case Decoded(answer, verified) =>
      match s.sasl
      case Offered => BeginResponse(cfg, s)
      case ScramChallenged => AnswerChallenge(cfg, s, answer)
      case ScramProved => VerifyServer(cfg, s, verified)
      case _ => s
  }

  function Connected(s: State): State {
    s.(phase := Negotiating, outbox := s.outbox + [CapLs, Introduction])
  }

  function Stepped(cfg: Config, s: State, e: Event): State {
    match e
    case Connect => Connected(s)
    case Drop => s.(phase := Disconnected, caps := NO_CAPS, sasl := Idle)
    case Welcome => s.(phase := Registered)
    case Cap(m) => CapHandled(cfg, s, m)
    case Authenticate(c) => AuthenticateHandled(cfg, s, c)
    case Verdict => FinishSasl(cfg, s)
  }

  // ---- the client ----

  class Client {
    const config: Config
    const caps: Capabilities
    var phase: Phase
    var sasl: SaslState
    var hasScram: bool
    var outbox: seq<Line>

    function View(): State
      reads this, caps
    {
      State(phase, caps.View(), sasl, hasScram, outbox)
    }

    constructor (config: Config)
      ensures this.config == config && View() == START && fresh(caps)
    {
      this.config := config;
      caps := new Capabilities();
      phase, sasl, hasScram, outbox := Phase.Disconnected, Idle, false, [];
    }

    method HandleConnected()
      modifies this
      ensures View() == Stepped(config, old(View()), Connect)
    {
      phase := Negotiating;
      outbox := outbox + [CapLs, Introduction];
    }

    method HandleDisconnected()
      modifies this, caps
      ensures View() == Stepped(config, old(View()), Drop)
    {
      phase := Phase.Disconnected;
      caps.Clear();
      sasl := Idle;
    }

    method HandleWelcome()
      modifies this
      ensures View() == Stepped(config, old(View()), Welcome)
    {
      phase := Registered;
    }

    method HandleCap(m: Message)
      modifies this, caps
      ensures View() == Stepped(config, old(View()), Cap(m))
    {
      if |m.params| < 2 {
        return;
      }
      var list := Tokens(m.params[|m.params| - 1]);
      match SubcommandOf(m.params[1]) {
        case Ls =>
          caps.Advertise(list);
          if !MoreToCome(m) {
            RequestWantedCaps();
          }
        case New =>
          caps.Advertise(list);
          RequestWantedCaps();
        case Del =>
          caps.Withdraw(list);
        case CapAck =>
          caps.Acknowledge(list);
          FinishNegotiationIfSettled();
        case CapNak =>
          caps.Reject(list);
          FinishNegotiationIfSettled();
        case Unknown =>
      }
    }

    method RequestWantedCaps()
      modifies this, caps
      ensures View() == RequestWanted(config, old(View()))
    {
      var names := ToRequest(caps.View(), config.wanted);
      if names == [] {
        FinishNegotiationIfSettled();
        return;
      }
      caps.Requested(names);
      for i := 0 to |names|
        invariant caps.View() == old(caps.View()).(pending := old(caps.View()).pending + names)
        invariant View() == old(View()).(caps := caps.View(), outbox := old(outbox) + Requests(names[..i]))
      {
        assert names[..i + 1][..i] == names[..i];
        outbox := outbox + [CapReq(names[i])];
      }
      assert names[..|names|] == names;
    }

    method FinishNegotiationIfSettled()
      modifies this
      ensures View() == FinishIfSettled(config, old(View()))
    {
      if phase != Negotiating || caps.pending != [] {
        return;
      }
      var waiting := StartSaslIfWanted();
      if waiting || InFlight(sasl) {
        return;
      }
      phase := Registering;
      outbox := outbox + [CapEnd];
    }

    method StartSaslIfWanted() returns (waiting: bool)
      modifies this
      ensures View() == StartSasl(config, old(View()))
      ensures waiting ==> InFlight(sasl)
    {
      if sasl != Idle || "sasl" !in caps.acknowledged {
        return false;
      }
      if config.sasl == None {
        return false;
      }
      var credentials := config.sasl.value;
      if !Sasl.Offers(caps.acknowledged["sasl"], credentials.mechanism) {
        sasl := Settled;
        return false;
      }
      sasl := Offered;
      outbox := outbox + [Mechanism(credentials.mechanism)];
      return true;
    }

    method HandleAuthenticate(c: Challenge)
      modifies this
      ensures View() == Stepped(config, old(View()), Authenticate(c))
    {
      if c == Undecodable {
        FinishSaslExchange();
        return;
      }
      match sasl {
        case Offered => BeginSaslResponse();
        case ScramChallenged => AnswerScramChallenge(c.answer);
        case ScramProved => VerifyScramServer(c.verified);
        case _ =>
      }
    }

    method BeginSaslResponse()
      modifies this
      ensures View() == BeginResponse(config, old(View()))
    {
      if config.sasl == None {
        return;
      }
      var credentials := config.sasl.value;
      if credentials.scram {
        hasScram := true;
        sasl := ScramChallenged;
        SendSasl(credentials.opening);
        return;
      }
      sasl := Responded;
      SendSasl(credentials.opening);
    }

    method AnswerScramChallenge(answer: Option<string>)
      modifies this
      ensures View() == AnswerChallenge(config, old(View()), answer)
    {
      if !hasScram {
        FinishSaslExchange();
        return;
      }
      match answer {
        case Some(encoded) =>
          sasl := ScramProved;
          SendSasl(encoded);
        case None =>
          FinishSaslExchange();
      }
    }

    method VerifyScramServer(verified: bool)
      modifies this
      ensures View() == VerifyServer(config, old(View()), verified)
    {
      if !hasScram {
        FinishSaslExchange();
        return;
      }
      hasScram := false;
      if !verified {
        FinishSaslExchange();
        return;
      }
      sasl := Responded;
      outbox := outbox + [Payload("+")];
    }

    method SendSasl(encoded: string)
      modifies this`outbox
      ensures View() == SaslSent(old(View()), encoded)
    {
      var lines := Sasl.EncodeResponse(encoded);
      outbox := outbox + Payloads(lines);
    }

    method FinishSaslExchange()
      modifies this
      ensures View() == FinishSasl(config, old(View()))
    {
      if sasl == Settled {
        return;
      }
      sasl := Settled;
      FinishNegotiationIfSettled();
    }

    method PollTransmit() returns (line: Option<Line>)
      modifies this`outbox
      ensures line.None? <==> old(outbox) == []
      ensures line.Some? ==> old(outbox) == [line.value] + outbox
    {
      if outbox == [] {
        return None;
      }
      line := Some(outbox[0]);
      outbox := outbox[1..];
    }
  }

  // ---- one step ----

  predicate Ready(cfg: Config, s: State) {
    && s.caps.pending == [] && !InFlight(s.sasl)
    && (cfg.sasl.Some? && "sasl" in s.caps.acknowledged ==> s.sasl == Settled)
  }

  predicate IsEnd(l: Line) {
    l.CapEnd?
  }

  predicate IsMechanism(l: Line) {
    l.Mechanism?
  }

  function Tally(lines: seq<Line>, counted: Line -> bool): nat {
    if lines == [] then 0
    else Tally(lines[..|lines| - 1], counted) + (if counted(lines[|lines| - 1]) then 1 else 0)
  }

  lemma {:induction false} TallyAdds(a: seq<Line>, b: seq<Line>, counted: Line -> bool)
    ensures Tally(a + b, counted) == Tally(a, counted) + Tally(b, counted)
  {
    if b == [] {
      assert a + b == a;
    } else {
      TallyAdds(a, b[..|b| - 1], counted);
      assert (a + b)[..|a + b| - 1] == a + b[..|b| - 1];
    }
  }

  lemma {:induction false} TallyNone(lines: seq<Line>, counted: Line -> bool)
    requires forall l | l in lines :: !counted(l)
    ensures Tally(lines, counted) == 0
  {
    if lines != [] {
      TallyNone(lines[..|lines| - 1], counted);
    }
  }

  lemma TallyOne(l: Line, counted: Line -> bool)
    ensures Tally([l], counted) == if counted(l) then 1 else 0
  {
    assert [l][..0] == [];
  }

  lemma {:induction false} RequestsAsk(names: seq<string>)
    ensures forall l | l in Requests(names) :: l.CapReq?
    ensures forall n | n in names :: CapReq(n) in Requests(names)
  {
    if names != [] {
      RequestsAsk(names[..|names| - 1]);
    }
  }

  /** What a step sends while the connection lasts, and when: the rules every event but a connect or a drop follows. */
  ghost predicate Follows(cfg: Config, s: State, after: State, lines: seq<Line>) {
    && after.outbox == s.outbox + lines
    && EndRule(cfg, s, after, lines)
    && AskRule(s, after, lines)
    && MechanismRule(s, after, lines)
  }

  /** `CAP END` at most once, only from negotiating, only when nothing is outstanding, and it ends negotiating. */
  predicate EndRule(cfg: Config, s: State, after: State, lines: seq<Line>) {
    || (after.phase == s.phase && Tally(lines, IsEnd) == 0)
    || (s.phase == Negotiating && after.phase == Registering && Ready(cfg, after) && Tally(lines, IsEnd) == 1)
  }

  /** Whatever is newly waited for was asked for. */
  predicate AskRule(s: State, after: State, lines: seq<Line>) {
    forall n | n in after.caps.pending :: n in s.caps.pending || CapReq(n) in lines
  }

  /** The exchange is opened at most once, and only from idle; it never becomes idle again. */
  predicate MechanismRule(s: State, after: State, lines: seq<Line>) {
    && (s.sasl != Idle ==> after.sasl != Idle && Tally(lines, IsMechanism) == 0)
    && (s.sasl == Idle ==> Tally(lines, IsMechanism) == if InFlight(after.sasl) then 1 else 0)
  }

  lemma StartFollows(cfg: Config, s: State) returns (lines: seq<Line>)
    ensures var t := StartSasl(cfg, s);
            t.outbox == s.outbox + lines && MechanismRule(s, t, lines) && Tally(lines, IsEnd) == 0
    ensures !InFlight(s.sasl) ==>
              var t := StartSasl(cfg, s);
              InFlight(t.sasl) || !(cfg.sasl.Some? && "sasl" in s.caps.acknowledged) || t.sasl == Settled
  {
    var t := StartSasl(cfg, s);
    lines := if t.sasl == s.sasl || t.sasl == Settled then [] else [Mechanism(cfg.sasl.value.mechanism)];
    if lines != [] {
      TallyOne(lines[0], IsMechanism);
      TallyOne(lines[0], IsEnd);
    }
    assert s.outbox + [] == s.outbox;
  }

  lemma FinishFollows(cfg: Config, s: State) returns (lines: seq<Line>)
    ensures Follows(cfg, s, FinishIfSettled(cfg, s), lines)
  {
    assert s.outbox + [] == s.outbox;
    if s.phase != Negotiating || s.caps.pending != [] {
      lines := [];
    } else {
      lines := StartFollows(cfg, s);
      var t := StartSasl(cfg, s);
      if !InFlight(t.sasl) {
        TallyAdds(lines, [CapEnd], IsEnd);
        TallyAdds(lines, [CapEnd], IsMechanism);
        TallyOne(CapEnd, IsEnd);
        TallyOne(CapEnd, IsMechanism);
        assert (s.outbox + lines) + [CapEnd] == s.outbox + (lines + [CapEnd]);
        lines := lines + [CapEnd];
      }
    }
  }

  lemma RequestFollows(cfg: Config, s: State) returns (lines: seq<Line>)
    ensures Follows(cfg, s, RequestWanted(cfg, s), lines)
  {
    var names := ToRequest(s.caps, cfg.wanted);
    if names == [] {
      lines := FinishFollows(cfg, s);
    } else {
      lines := Requests(names);
      RequestsAsk(names);
      TallyNone(lines, IsEnd);
      TallyNone(lines, IsMechanism);
    }
  }

  lemma SentFollows(cfg: Config, s: State, t: State, encoded: string) returns (lines: seq<Line>)
    requires t.phase == s.phase && t.caps == s.caps && t.outbox == s.outbox && s.sasl != Idle && t.sasl != Idle
    ensures Follows(cfg, s, SaslSent(t, encoded), lines)
  {
    lines := Payloads(Sasl.Lines(encoded));
    TallyNone(lines, IsEnd);
    TallyNone(lines, IsMechanism);
  }

  lemma FinishSaslFollows(cfg: Config, s: State) returns (lines: seq<Line>)
    ensures Follows(cfg, s, FinishSasl(cfg, s), lines)
  {
    assert s.outbox + [] == s.outbox;
    if s.sasl == Settled {
      lines := [];
    } else {
      lines := FinishFollows(cfg, s.(sasl := Settled));
    }
  }

  lemma NothingFollows(cfg: Config, s: State, after: State)
    requires after.phase == s.phase && after.outbox == s.outbox && after.sasl == s.sasl
    requires forall n | n in after.caps.pending :: n in s.caps.pending
    ensures Follows(cfg, s, after, [])
  {
    assert s.outbox + [] == s.outbox;
  }

  lemma CapFollows(cfg: Config, s: State, m: Message) returns (lines: seq<Line>)
    ensures Follows(cfg, s, CapHandled(cfg, s, m), lines)
  {
    if |m.params| < 2 {
      NothingFollows(cfg, s, s);
      lines := [];
      return;
    }
    WaitingUntilAnswered(s.caps, Advertise, ListOf(m));
    WaitingUntilAnswered(s.caps, Withdraw, ListOf(m));
    WaitingUntilAnswered(s.caps, Ack, ListOf(m));
    WaitingUntilAnswered(s.caps, Nak, ListOf(m));
    match SubcommandOf(m.params[1])
    case Ls =>
      if MoreToCome(m) {
        NothingFollows(cfg, s, WithList(s, Advertise, m));
        lines := [];
      } else {
        lines := RequestFollows(cfg, WithList(s, Advertise, m));
      }
    case New => lines := RequestFollows(cfg, WithList(s, Advertise, m));
    case Del =>
      NothingFollows(cfg, s, WithList(s, Withdraw, m));
      lines := [];
    case CapAck => lines := FinishFollows(cfg, WithList(s, Ack, m));
    case CapNak => lines := FinishFollows(cfg, WithList(s, Nak, m));
    case Unknown =>
      NothingFollows(cfg, s, s);
      lines := [];
  }

  lemma AuthenticateFollows(cfg: Config, s: State, c: Challenge) returns (lines: seq<Line>)
    ensures Follows(cfg, s, AuthenticateHandled(cfg, s, c), lines)
  {
    if c.Undecodable? {
      lines := FinishSaslFollows(cfg, s);
    } else if s.sasl == Offered && cfg.sasl.Some? {
      var credentials := cfg.sasl.value;
      lines := SentFollows(cfg, s,
        if credentials.scram then s.(sasl := ScramChallenged, hasScram := true) else s.(sasl := Responded),
        credentials.opening);
    } else if s.sasl == ScramChallenged {
      if s.hasScram && c.answer.Some? {
        lines := SentFollows(cfg, s, s.(sasl := ScramProved), c.answer.value);
      } else {
        lines := FinishSaslFollows(cfg, s);
      }
    } else if s.sasl == ScramProved {
      if s.hasScram && c.verified {
        lines := [Payload("+")];
        TallyOne(lines[0], IsEnd);
        TallyOne(lines[0], IsMechanism);
      } else {
        lines := FinishSaslFollows(cfg, s.(hasScram := false));
      }
    } else {
      NothingFollows(cfg, s, s);
      lines := [];
    }
  }

  lemma StepFollows(cfg: Config, s: State, e: Event) returns (lines: seq<Line>)
    requires !e.Connect? && !e.Drop? && !e.Welcome?
    ensures Follows(cfg, s, Stepped(cfg, s, e), lines)
  {
    match e
    case Cap(m) => lines := CapFollows(cfg, s, m);
    case Authenticate(c) => lines := AuthenticateFollows(cfg, s, c);
    case Verdict => lines := FinishSaslFollows(cfg, s);
  }
}
