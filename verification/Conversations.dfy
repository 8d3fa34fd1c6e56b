/**
 What two established sessions hand their users (crates/obby-client/src/e2ee.rs:1156-1174): every run of sends and
 deliveries on the sessions is a run of their ratchets, and so what one user says is exactly what the other hears, once.
 */
module Conversations {
  import opened Integers
  import opened Crypto
  import opened Ratchets
  import opened Handshake
  import opened RatchetRuns
  import opened RatchetTheorems
  import Sessions
  import Calls = SessionTheorems

  /** The two ends of one conversation. */
  datatype Sides = Sides(initiator: Sessions.SessionValue, responder: Sessions.SessionValue)

  function SideOf(sides: Sides, p: Party): Sessions.SessionValue {
    if p.Initiator? then sides.initiator else sides.responder
  }

  function WithSide(sides: Sides, p: Party, s: Sessions.SessionValue): Sides {
    if p.Initiator? then sides.(initiator := s) else sides.(responder := s)
  }

  function CallOf(step: RatchetRuns.Step): Calls.Call {
    match step
    case Send(_, plaintext) => Calls.Send(plaintext)
    case Deliver(_, msg, newSecret) => Calls.Receive(msg, newSecret)
  }

  function CallerOf(step: RatchetRuns.Step): Party {
    match step
    case Send(p, _) => p
    case Deliver(p, _, _) => p
  }

  function SidesAfter(sides: Sides, step: RatchetRuns.Step): Sides {
    WithSide(sides, CallerOf(step), Calls.After(SideOf(sides, CallerOf(step)), CallOf(step)))
  }

  function SidesAfterAll(sides: Sides, run: seq<RatchetRuns.Step>): Sides
    decreases |run|
  {
    if run == [] then sides else SidesAfterAll(SidesAfter(sides, run[0]), run[1..])
  }

  /** Both sessions are established, with the ratchets of this conversation. */
  predicate Talking(sides: Sides, w: World) {
    forall p: Party :: SideOf(sides, p).state == Sessions.Established(StateOf(w, p))
  }

  lemma SendTalks(sides: Sides, w: World, p: Party, plaintext: seq<byte>)
    requires Shape(w) && Talking(sides, w)
    ensures Talking(SidesAfter(sides, Send(p, plaintext)), Next(w, Send(p, plaintext)))
  {
    var v, after := Next(w, Send(p, plaintext)), SidesAfter(sides, Send(p, plaintext));
    assert SideOf(sides, p).state == Sessions.Established(StateOf(w, p));
    assert SideOf(sides, Peer(p)).state == Sessions.Established(StateOf(w, Peer(p)));
    assert StateOf(v, p) == Encrypted(StateOf(w, p), plaintext).0 && StateOf(v, Peer(p)) == StateOf(w, Peer(p));
    forall q: Party ensures SideOf(after, q).state == Sessions.Established(StateOf(v, q)) {
      assert q == p || q == Peer(p);
    }
  }

  /** What a delivery does to the two ratchets: the receiver adopts what decrypting leaves, or nothing changes. */
  lemma DeliverMoves(w: World, p: Party, msg: RatchetMessage, newSecret: Secret)
    requires Shape(w)
    ensures var v, r := Next(w, Deliver(p, msg, newSecret)), Decrypted(StateOf(w, p), msg, newSecret);
            && StateOf(v, p) == (if r.Ok? then r.value.0 else StateOf(w, p))
            && StateOf(v, Peer(p)) == StateOf(w, Peer(p))
  {
  }

  lemma ReceiveMoves(s: Sessions.SessionValue, start: RatchetState, msg: RatchetMessage, newSecret: Secret)
    requires s.state == Sessions.Established(start)
    ensures var r := Decrypted(start, msg, newSecret);
            Calls.After(s, Calls.Receive(msg, newSecret)).state
            == Sessions.Established(if r.Ok? then r.value.0 else start)
  {
  }

  lemma DeliverTalks(sides: Sides, w: World, p: Party, msg: RatchetMessage, newSecret: Secret)
    requires Shape(w) && Talking(sides, w)
    ensures Talking(SidesAfter(sides, Deliver(p, msg, newSecret)), Next(w, Deliver(p, msg, newSecret)))
  {
    var v, after := Next(w, Deliver(p, msg, newSecret)), SidesAfter(sides, Deliver(p, msg, newSecret));
    assert SideOf(sides, p).state == Sessions.Established(StateOf(w, p));
    assert SideOf(sides, Peer(p)).state == Sessions.Established(StateOf(w, Peer(p)));
    DeliverMoves(w, p, msg, newSecret);
    ReceiveMoves(SideOf(sides, p), StateOf(w, p), msg, newSecret);
    forall q: Party ensures SideOf(after, q).state == Sessions.Established(StateOf(v, q)) {
      assert q == p || q == Peer(p);
    }
  }

  /** Whatever the two users and the network do, the sessions stay established with the ratchets of the conversation. */
  lemma {:induction false} RunTalks(sides: Sides, w: World, run: seq<RatchetRuns.Step>)
    requires Inv(w) && AllowedRun(w, run) && Talking(sides, w)
    ensures Talking(SidesAfterAll(sides, run), RatchetTheorems.After(w, run))
    decreases |run|
  {
    if run != [] {
      match run[0] {
        case Send(p, plaintext) => SendTalks(sides, w, p, plaintext);
        case Deliver(p, msg, newSecret) => DeliverTalks(sides, w, p, msg, newSecret);
      }
      StepKeepsInv(w, run[0]);
      RunTalks(SidesAfter(sides, run[0]), Next(w, run[0]), run[1..]);
    }
  }

  lemma SendingGives(s: Sessions.SessionValue, start: RatchetState, plaintext: seq<byte>)
    requires s.state == Sessions.Established(start)
    ensures Sessions.Sent(s, plaintext).1 == Encrypted(start, plaintext).1
  {
  }

  lemma ReceivingGives(s: Sessions.SessionValue, start: RatchetState, msg: RatchetMessage, newSecret: Secret)
    requires s.state == Sessions.Established(start)
    ensures var r, given := Decrypted(start, msg, newSecret), Sessions.Received(s, msg, newSecret);
            && given.Ok? == r.Ok?
            && (r.Ok? ==> given.value.1 == r.value.1)
  {
  }

  /** What a party encrypts is the next genuine message of its epoch; only an exhausted counter refuses. */
  lemma EncryptedIsGenuine(w: World, p: Party, plaintext: seq<byte>)
    requires Inv(w)
    ensures var r, v := Encrypted(StateOf(w, p), plaintext).1, Next(w, Send(p, plaintext));
            var e := EpochOf(w, p);
            && (r.Ok? <==> |w.sent[e]| < U32_MAX)
            && (r.Ok? ==> Shape(v) && IsSent(v, e, |w.sent[e]|) && v.sent[e][|w.sent[e]|] == plaintext
                          && r.value == Genuine(v, e, |w.sent[e]|))
  {
    var v := SendEffect(w, p, plaintext);
  }

  /** A talking session takes a message that was sent if and only if it is deliverable, and hands over its plaintext. */
  lemma HeardIffDeliverable(sides: Sides, w: World, p: Party, i: nat, n: nat, newSecret: Secret)
    requires Inv(w) && Talking(sides, w) && IsSent(w, i, n)
    ensures var r := Sessions.Received(SideOf(sides, p), Genuine(w, i, n), newSecret);
            (r.Ok? <==> Deliverable(w, p, i, n)) && (r.Ok? ==> r.value.1 == w.sent[i][n])
  {
    assert SideOf(sides, p).state == Sessions.Established(StateOf(w, p));
    ReceivingGives(SideOf(sides, p), StateOf(w, p), Genuine(w, i, n), newSecret);
    DecryptedIffDeliverable(w, p, i, n, newSecret);
  }

  lemma DecryptedIffDeliverable(w: World, p: Party, i: nat, n: nat, newSecret: Secret)
    requires Inv(w) && IsSent(w, i, n)
    ensures var r := Decrypted(StateOf(w, p), Genuine(w, i, n), newSecret);
            (r.Ok? <==> Deliverable(w, p, i, n)) && (r.Ok? ==> r.value.1 == w.sent[i][n])
  {
    var msg := Genuine(w, i, n);
    assert NetworkCanSend(w, msg);
    if Decrypted(StateOf(w, p), msg, newSecret).Ok? {
      var j, m := AcceptsOnlyDeliverable(w, p, msg, newSecret);
      GenuineIsUnique(w, i, n, j, m);
    }
    if Deliverable(w, p, i, n) {
      DeliverableIsAccepted(w, p, i, n, newSecret);
    }
  }

  /** What a user says goes out as the next genuine message of its epoch. */
  lemma SaidIsGenuine(sides: Sides, w: World, p: Party, plaintext: seq<byte>)
    requires Inv(w) && Talking(sides, w)
    ensures var v, said, e := Next(w, Send(p, plaintext)), Sessions.Sent(SideOf(sides, p), plaintext).1, EpochOf(w, p);
            && Inv(v) && Talking(SidesAfter(sides, Send(p, plaintext)), v)
            && (said.Ok? <==> |w.sent[e]| < U32_MAX)
            && (said.Ok? ==> IsSent(v, e, |w.sent[e]|) && v.sent[e][|w.sent[e]|] == plaintext
                             && said.value == Genuine(v, e, |w.sent[e]|))
  {
    assert SideOf(sides, p).state == Sessions.Established(StateOf(w, p));
    SendingGives(SideOf(sides, p), StateOf(w, p), plaintext);
    EncryptedIsGenuine(w, p, plaintext);
    SendKeepsInv(w, p, plaintext);
    SendTalks(sides, w, p, plaintext);
  }

  /** A message sent is taken exactly while it is deliverable, after any run, by either session. */
  lemma HeardAfter(sides: Sides, v: World, run: seq<RatchetRuns.Step>, q: Party, i: nat, n: nat, newSecret: Secret)
    requires Inv(v) && Talking(sides, v) && AllowedRun(v, run) && IsSent(v, i, n)
    ensures var z, r := RatchetTheorems.After(v, run),
                        Sessions.Received(SideOf(SidesAfterAll(sides, run), q), Genuine(v, i, n), newSecret);
            && Shape(z)
            && (r.Ok? <==> Deliverable(z, q, i, n))
            && (r.Ok? ==> r.value.1 == v.sent[i][n])
  {
    var z := RatchetTheorems.After(v, run);
    RunTalks(sides, v, run);
    RunKeepsInv(v, run);
    GenuineStays(v, z, i, n);
    HeardIffDeliverable(SidesAfterAll(sides, run), z, q, i, n, newSecret);
  }

  /**
   What is said is what is heard. Two sessions are talking and one user says something; then, whatever the two users and
   the network did in between, a session takes the message if and only if it is deliverable to it, which to the speaker it
   never is, and what it hands its user is exactly what was said. Saying it fails only when the counter is exhausted.
   */
  lemma WhatIsSaidIsHeard(sides: Sides, w: World, p: Party, plaintext: seq<byte>, run: seq<RatchetRuns.Step>, q: Party,
                          newSecret: Secret)
    requires Inv(w) && Talking(sides, w) && AllowedRun(Next(w, Send(p, plaintext)), run)
    ensures var e, said := EpochOf(w, p), Sessions.Sent(SideOf(sides, p), plaintext).1;
            var z := RatchetTheorems.After(Next(w, Send(p, plaintext)), run);
            var there := SideOf(SidesAfterAll(SidesAfter(sides, Send(p, plaintext)), run), q);
            && (said.Ok? <==> |w.sent[e]| < U32_MAX)
            && (said.Ok? ==>
                  var heard := Sessions.Received(there, said.value, newSecret);
                  && Shape(z)
                  && (heard.Ok? <==> Deliverable(z, q, e, |w.sent[e]|))
                  && (heard.Ok? ==> heard.value.1 == plaintext))
  {
    SaidIsGenuine(sides, w, p, plaintext);
    var v, e := Next(w, Send(p, plaintext)), EpochOf(w, p);
    if |w.sent[e]| < U32_MAX {
      HeardAfter(SidesAfter(sides, Send(p, plaintext)), v, run, q, e, |w.sent[e]|, newSecret);
    }
  }

  /**
   Nothing is heard twice. Once a session has taken a message, neither session takes it again, whatever the two users and
   the network do afterwards.
   */
  lemma NothingIsHeardTwice(sides: Sides, w: World, p: Party, msg: RatchetMessage, first: Secret,
                            run: seq<RatchetRuns.Step>, q: Party, second: Secret)
    requires Inv(w) && Talking(sides, w) && Allowed(w, Deliver(p, msg, first))
    requires Sessions.Received(SideOf(sides, p), msg, first).Ok?
    requires AllowedRun(Next(w, Deliver(p, msg, first)), run)
    ensures var later := SidesAfterAll(SidesAfter(sides, Deliver(p, msg, first)), run);
            Sessions.Received(SideOf(later, q), msg, second).Err?
  {
    var v, between := Next(w, Deliver(p, msg, first)), SidesAfter(sides, Deliver(p, msg, first));
    assert SideOf(sides, p).state == Sessions.Established(StateOf(w, p));
    ReceivingGives(SideOf(sides, p), StateOf(w, p), msg, first);
    DeliverTalks(sides, w, p, msg, first);
    DeliverKeepsInv(w, p, msg, first);
    RunTalks(between, v, run);
    AcceptedAtMostOnce(w, p, msg, first, run, q, second);
    var later, z := SidesAfterAll(between, run), RatchetTheorems.After(v, run);
    assert SideOf(later, q).state == Sessions.Established(StateOf(z, q));
    ReceivingGives(SideOf(later, q), StateOf(z, q), msg, second);
  }

  /** Two parties fed only each other's handshake frames talk: everything above is true of all they say from there. */
  lemma HonestPartiesTalk(a: Sessions.SessionValue, b: Sessions.SessionValue, idA: Identity, idB: Identity,
                          spk: Secret, opk: Secret, ek: Secret, first: Secret, second: Secret)
    returns (response: HandshakeResponse, ack: RatchetMessage, w: World)
    requires Calls.Expects(a, SignerOf(idB.signing)) && Calls.Expects(b, SignerOf(idA.signing))
    requires spk != ek && first != spk && first != ek && second !in [spk, ek, first]
    ensures var bundle := CreateOffer(idA, spk, opk).bundle;
            Talking(Sides(Calls.AfterAll(a, [Calls.Start(idA, spk, opk), Calls.ReceiveAccept(idA, response, first), Calls.Send([])]),
                          Calls.AfterAll(b, [Calls.ReceiveOffer(bundle), Calls.Accept(idB, ek), Calls.ReceiveAck(ack, second)])),
                    w)
    ensures Inv(w)
  {
    var start;
    response, ack, start := Calls.HonestHandshakeEstablishesBoth(a, b, idA, idB, spk, opk, ek, first, second);
    w := RatchetTheorems.After(start, Calls.HandshakeRun(ack, second));
    RunKeepsInv(start, Calls.HandshakeRun(ack, second));
  }
}
