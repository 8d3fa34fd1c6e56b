/**
 What every sequence of calls on a session keeps, and that an honest handshake establishes both sides and
 starts the two-party conversation in its invariant.
 */
module SessionTheorems {
  import opened Wrappers
  import opened Integers
  import opened Padding
  import opened Crypto
  import opened SkippedKeyStore
  import opened Ratchets
  import opened Handshake
  import opened Sessions
  import Runs = RatchetRuns
  import Theorems = RatchetTheorems

  /** Everything a host may call on a session, with whatever frames the network supplied. */
  datatype Call =
    | Start(identity: Identity, spkSecret: Secret, opkSecret: Secret)
    | ReceiveOffer(bundle: PreKeyBundle)
    | Accept(identity: Identity, ekSecret: Secret)
    | Reject
    | ReceiveReject
    | ReceiveAccept(identity: Identity, response: HandshakeResponse, newSecret: Secret)
    | ReceiveAck(ct: RatchetMessage, newSecret: Secret)
    | Send(plaintext: seq<byte>)
    | Receive(ct: RatchetMessage, newSecret: Secret)
    | Close
    | ReceiveClose
    | MarkPeerVerified
    | ConfirmFingerprintChange(fingerprint: Fingerprint)

  /** The session after one call; a call that fails leaves it as it was. */
  function After(s: SessionValue, call: Call): SessionValue {
    match call
    case Start(identity, spk, opk) => s.(state := Offered(CreateOffer(identity, spk, opk)))
    case ReceiveOffer(bundle) => s.(state := OfferReceived(bundle))
    case Accept(identity, ek) => (match Accepted(s, identity, ek) case Ok(done) => done.0 case Err(_) => s)
    case Reject => s.(state := Rejected)
    case ReceiveReject => s.(state := Rejected)
    case ReceiveAccept(identity, response, newSecret) =>
      (match AcceptReceived(s, identity, response, newSecret) case Ok(done) => done case Err(_) => s)
    case ReceiveAck(ct, newSecret) => (match AckReceived(s, ct, newSecret) case Ok(done) => done case Err(_) => s)
    case Send(plaintext) => Sent(s, plaintext).0
    case Receive(ct, newSecret) => (match Received(s, ct, newSecret) case Ok(done) => done.0 case Err(_) => s)
    case Close => s.(state := Closed)
    case ReceiveClose => s.(state := Closed)
    case MarkPeerVerified => s.(trust := s.trust.(verified := true))
    case ConfirmFingerprintChange(fingerprint) => s.(trust := Trust(Some(fingerprint), false))
  }

  lemma TwoCalls(s: SessionValue, c1: Call, c2: Call)
    ensures AfterAll(s, [c1, c2]) == After(After(s, c1), c2)
  {
    assert [c1, c2][1..] == [c2] && [c2][1..] == [];
    assert AfterAll(After(s, c1), [c2]) == After(After(s, c1), c2);
  }

  lemma ThreeCalls(s: SessionValue, c1: Call, c2: Call, c3: Call)
    ensures AfterAll(s, [c1, c2, c3]) == After(After(After(s, c1), c2), c3)
  {
    assert [c1, c2, c3][1..] == [c2, c3];
    TwoCalls(After(s, c1), c2, c3);
  }

  function AfterAll(s: SessionValue, calls: seq<Call>): SessionValue
    decreases |calls|
  {
    if calls == [] then s else AfterAll(After(s, calls[0]), calls[1..])
  }

  /** A state that holds a ratchet. */
  predicate Live(s: SessionValue) {
    s.state.AwaitingAck? || s.state.Established?
  }

  /** The signing key a call just verified and let in, if it brought a ratchet into the session. */
  function EnteredWith(s: SessionValue, call: Call): Option<SigningKey> {
    match call
    case Accept(identity, ek) => if Accepted(s, identity, ek).Ok? then Some(s.state.bundle.sik) else None
    case ReceiveAccept(identity, response, newSecret) =>
      if AcceptReceived(s, identity, response, newSecret).Ok? then Some(response.sik) else None
    case _ => None
  }

  /**
   The only ways in. A call leaves a session with a ratchet it did not have exactly when it let a peer in;
   that peer's signing key made the signature over the keys the session was derived from, and it is the
   key whose fingerprint is pinned.
   */
  lemma EveryEntryIsVerifiedAndPinned(s: SessionValue, call: Call)
    ensures !Live(s) && Live(After(s, call)) ==> EnteredWith(s, call).Some?
    ensures EnteredWith(s, call).Some? ==>
              && !Live(s) && Live(After(s, call))
              && After(s, call).trust.pinned == Some(FingerprintOf(EnteredWith(s, call).value))
              && EnteredWith(s, call).value.SignerOf?
    ensures call.Accept? && EnteredWith(s, call).Some? ==>
              var b := s.state.bundle;
              b.sig == SignedBy(b.sik.secret, [b.ik, b.spk, b.opk]) && After(s, call).state.AwaitingAck?
    ensures call.ReceiveAccept? && EnteredWith(s, call).Some? ==>
              var r := call.response;
              r.sig == SignedBy(r.sik.secret, [r.ik, r.ek]) && After(s, call).state.Established?
  {
  }

  /** A responder becomes established only through an ack that its ratchet decrypted. */
  lemma EstablishedOnlyByAckOrAccept(s: SessionValue, call: Call)
    requires !s.state.Established? && After(s, call).state.Established?
    ensures call.ReceiveAccept? || call.ReceiveAck?
    ensures After(s, call).role == Some(Responder) ==>
              call.ReceiveAck? && s.state.AwaitingAck? && Decrypted(s.state.ratchet, call.ct, call.newSecret).Ok?
    ensures call.ReceiveAccept? ==>
              s.state.Offered? && After(s, call).role == Some(Initiator)
              && HandshakeCompleted(call.identity, s.state.pending, call.response, call.newSecret).Ok?
  {
  }

  /** A session is only ever waiting for an ack as the responder. */
  ghost predicate RoleFits(s: SessionValue) {
    (s.state.AwaitingAck? ==> s.role == Some(Responder)) && (s.state.Established? ==> s.role.Some?)
  }

  /** The keys a sequence of calls let in, in order. */
  function KeysLetIn(s: SessionValue, calls: seq<Call>): seq<SigningKey>
    decreases |calls|
  {
    if calls == [] then []
    else
      var rest := KeysLetIn(After(s, calls[0]), calls[1..]);
      match EnteredWith(s, calls[0])
      case Some(key) => [key] + rest
      case None => rest
  }

  predicate NeverConfirms(calls: seq<Call>) {
    forall i | 0 <= i < |calls| :: !calls[i].ConfirmFingerprintChange?
  }

  /** Once set, the pin stays where it is through any calls that do not explicitly move it. */
  lemma {:induction false} PinMovesOnlyByConfirmation(s: SessionValue, calls: seq<Call>)
    requires s.trust.pinned.Some? && NeverConfirms(calls)
    ensures AfterAll(s, calls).trust.pinned == s.trust.pinned
    decreases |calls|
  {
    if calls != [] {
      assert After(s, calls[0]).trust.pinned == s.trust.pinned;
      PinMovesOnlyByConfirmation(After(s, calls[0]), calls[1..]);
    }
  }

  /**
   Trust on first use over whole lives of a session: without an explicit confirmation, however many
   handshakes are attempted and by whomever, every peer ever let in has the one key that stays pinned.
   */
  lemma {:induction false} OnePeerWithoutConfirmation(s: SessionValue, calls: seq<Call>)
    requires NeverConfirms(calls)
    ensures forall key | key in KeysLetIn(s, calls) :: AfterAll(s, calls).trust.pinned == Some(FingerprintOf(key))
    ensures forall a, b | a in KeysLetIn(s, calls) && b in KeysLetIn(s, calls) :: a == b
    decreases |calls|
  {
    if calls != [] {
      var next := After(s, calls[0]);
      OnePeerWithoutConfirmation(next, calls[1..]);
      EveryEntryIsVerifiedAndPinned(s, calls[0]);
      if next.trust.pinned.Some? {
        PinMovesOnlyByConfirmation(next, calls[1..]);
      }
      forall a, b | a in KeysLetIn(s, calls) && b in KeysLetIn(s, calls) ensures a == b {
        assert AfterAll(s, calls).trust.pinned == Some(FingerprintOf(a));
        FingerprintsTellKeysApart(a, b);
      }
    }
  }

  /** The last key a sequence of calls let in, or the one the session already had. */
  function LastLetIn(s: SessionValue, calls: seq<Call>, before: Option<SigningKey>): Option<SigningKey>
    decreases |calls|
  {
    if calls == [] then before
    else
      var entered := EnteredWith(s, calls[0]);
      LastLetIn(After(s, calls[0]), calls[1..], if entered.Some? then entered else before)
  }

  /**
   At every moment of every life of a session that never confirmed a change, a live ratchet belongs to a
   peer whose signature was verified and whose fingerprint is the pinned one, and roles fit the state.
   */
  lemma {:induction false} LiveMeansPinned(s: SessionValue, calls: seq<Call>, before: Option<SigningKey>)
    requires NeverConfirms(calls) && RoleFits(s)
    requires Live(s) ==> before.Some? && s.trust.pinned == Some(FingerprintOf(before.value))
    ensures RoleFits(AfterAll(s, calls))
    ensures var end, last := AfterAll(s, calls), LastLetIn(s, calls, before);
            Live(end) ==> last.Some? && end.trust.pinned == Some(FingerprintOf(last.value))
    decreases |calls|
  {
    if calls != [] {
      EveryEntryIsVerifiedAndPinned(s, calls[0]);
      var entered := EnteredWith(s, calls[0]);
      LiveMeansPinned(After(s, calls[0]), calls[1..], if entered.Some? then entered else before);
    }
  }

  /** A refused change is only a question: confirming the new key makes the very same call succeed. */
  lemma ConfirmedRetrySucceeds(s: SessionValue, identity: Identity, ekSecret: Secret)
    requires Accepted(s, identity, ekSecret).Err? && Accepted(s, identity, ekSecret).error.FingerprintChanged?
    ensures var current := Accepted(s, identity, ekSecret).error.current;
            && After(s, Accept(identity, ekSecret)) == s
            && Accepted(After(s, ConfirmFingerprintChange(current)), identity, ekSecret).Ok?
  {
  }

  // ---- the honest handshake ----

  /** The ratchet an honest answer opens, and the boot message it carries. */
  function ResponderStart(sk: Term, spk: Secret, ek: Secret): RatchetState {
    var dh := SharedSecret(spk, ek);
    RatchetState(RootHalf(sk, dh), ek, Some(Of(spk)), Some(NextChain(ChainHalf(sk, dh))), None, 1, 0, 0, EMPTY)
  }

  function BootMessage(sk: Term, spk: Secret, ek: Secret): RatchetMessage {
    var header := Header(Of(ek), 0, 0);
    RatchetMessage(header, Seal(MessageKey(ChainHalf(sk, SharedSecret(spk, ek))), header, []))
  }

  /** The ratchet the initiator has once it has read that message. */
  function InitiatorStart(sk: Term, spk: Secret, ek: Secret, first: Secret): RatchetState {
    var dh1, dh2 := SharedSecret(spk, ek), SharedSecret(ek, first);
    var root := RootHalf(sk, dh1);
    RatchetState(RootHalf(root, dh2), first, Some(Of(ek)), Some(ChainHalf(root, dh2)), Some(NextChain(ChainHalf(sk, dh1))),
                 0, 1, 0, EMPTY)
  }

  lemma HonestAnswer(idA: Identity, idB: Identity, spk: Secret, opk: Secret, ek: Secret)
    returns (response: HandshakeResponse)
    ensures var sk := HonestSecret(spk, idA.agreement, opk, idB.agreement, ek);
            && OfferAccepted(idB, CreateOffer(idA, spk, opk).bundle, ek) == Ok((response, ResponderStart(sk, spk, ek)))
            && response.boot == BootMessage(sk, spk, ek)
    ensures response.ik == Of(idB.agreement) && response.ek == Of(ek) && response.sik == SignerOf(idB.signing)
    ensures response.sig == SignedBy(idB.signing, [response.ik, response.ek])
  {
    var sk := HonestSecret(spk, idA.agreement, opk, idB.agreement, ek);
    assert SecretOfResponder(idB.agreement, ek, Of(idA.agreement), Of(spk), Of(opk)) == Ok(sk);
    response := OfferAccepted(idB, CreateOffer(idA, spk, opk).bundle, ek).value.0;
  }

  lemma BootDecrypts(sk: Term, spk: Secret, ek: Secret, first: Secret)
    ensures Decrypted(InitAsInitiator(sk, spk), BootMessage(sk, spk, ek), first) == Ok((InitiatorStart(sk, spk, ek, first), []))
  {
    var s, boot := InitAsInitiator(sk, spk), BootMessage(sk, spk, ek);
    var t := DhStep(s, Of(ek), first).value;
    assert Positioned(s, boot.header, first) == Ok(t);
    assert t.recvChain == Some(ChainHalf(sk, SharedSecret(spk, ek)));
    assert Unseal(MessageKey(t.recvChain.value), boot) == Ok([]) by {
      UnpadUndoesPad([]);
    }
    assert InitiatorStart(sk, spk, ek, first) == t.(recvChain := Some(NextChain(t.recvChain.value)), nRecv := 1);
  }

  lemma HonestCompletion(idA: Identity, idB: Identity, spk: Secret, opk: Secret, ek: Secret, first: Secret, response: HandshakeResponse)
    requires response.ik == Of(idB.agreement) && response.ek == Of(ek) && response.sik == SignerOf(idB.signing)
    requires response.sig == SignedBy(idB.signing, [response.ik, response.ek])
    requires response.boot == BootMessage(HonestSecret(spk, idA.agreement, opk, idB.agreement, ek), spk, ek)
    ensures HandshakeCompleted(idA, CreateOffer(idA, spk, opk), response, first)
         == Ok(InitiatorStart(HonestSecret(spk, idA.agreement, opk, idB.agreement, ek), spk, ek, first))
  {
    var sk := HonestSecret(spk, idA.agreement, opk, idB.agreement, ek);
    assert SecretOfInitiator(spk, idA.agreement, opk, Of(idB.agreement), Of(ek)) == Ok(sk);
    BootDecrypts(sk, spk, ek, first);
  }

  /** The conversation at the moment the initiator is established: only the responder's boot message exists. */
  function StartWorld(sk: Term, spk: Secret, ek: Secret, first: Secret): Runs.World {
    Runs.World(sk, [spk, ek, first], [[], [[]], []], InitiatorStart(sk, spk, ek, first), ResponderStart(sk, spk, ek), {(1, 0)})
  }

  lemma StartKeys(sk: Term, spk: Secret, ek: Secret, first: Secret)
    requires sk.X3dhSecret?
    ensures var epochs, base := [spk, ek, first], ChainHalf(sk, SharedSecret(spk, ek));
            && Runs.RootAt(sk, epochs, 0) == sk
            && Runs.RootAt(sk, epochs, 1) == RootHalf(sk, SharedSecret(spk, ek))
            && Runs.ChainAt(sk, epochs, 1) == base && Advance(base, 0) == base && Advance(base, 1) == NextChain(base)
  {
  }

  lemma ResponderStartsAligned(sk: Term, spk: Secret, ek: Secret, first: Secret)
    requires sk.X3dhSecret? && spk != ek && first != spk && first != ek
    ensures var w := StartWorld(sk, spk, ek, first); Runs.Shape(w) && Runs.Aligned(w, w.responder, 1)
  {
    StartKeys(sk, spk, ek, first);
  }

  lemma InitiatorStartsAligned(sk: Term, spk: Secret, ek: Secret, first: Secret)
    requires sk.X3dhSecret? && spk != ek && first != spk && first != ek
    ensures var w := StartWorld(sk, spk, ek, first); Runs.Shape(w) && Runs.Aligned(w, w.initiator, 2)
  {
    StartKeys(sk, spk, ek, first);
  }

  /** That moment satisfies the invariant every run keeps, with nothing lost. */
  lemma StartIsAligned(sk: Term, spk: Secret, ek: Secret, first: Secret)
    requires sk.X3dhSecret? && spk != ek && first != spk && first != ek
    ensures Runs.Inv(StartWorld(sk, spk, ek, first)) && Theorems.NothingLost(StartWorld(sk, spk, ek, first))
  {
    ResponderStartsAligned(sk, spk, ek, first);
    InitiatorStartsAligned(sk, spk, ek, first);
  }

  /** Nothing pinned yet, or this very peer. */
  predicate Expects(s: SessionValue, key: SigningKey) {
    s.trust.pinned == None || s.trust.pinned == Some(FingerprintOf(key))
  }

  /** The two sides once the offer has been answered and the answer taken in. */
  lemma OfferAndAnswer(a: SessionValue, b: SessionValue, idA: Identity, idB: Identity, spk: Secret, opk: Secret, ek: Secret, first: Secret)
    returns (response: HandshakeResponse, a2: SessionValue, b2: SessionValue)
    requires Expects(a, SignerOf(idB.signing)) && Expects(b, SignerOf(idA.signing))
    ensures var offered := After(a, Start(idA, spk, opk));
            var received := After(b, ReceiveOffer(CreateOffer(idA, spk, opk).bundle));
            && Accepted(received, idB, ek) == Ok((b2, response))
            && AcceptReceived(offered, idA, response, first) == Ok(a2)
    ensures var sk := HonestSecret(spk, idA.agreement, opk, idB.agreement, ek);
            && b2 == SessionValue(AwaitingAck(ResponderStart(sk, spk, ek)), b2.trust, Some(Responder))
            && a2 == SessionValue(Established(InitiatorStart(sk, spk, ek, first)), a2.trust, Some(Initiator))
    ensures a2.trust.pinned == Some(FingerprintOf(SignerOf(idB.signing)))
    ensures b2.trust.pinned == Some(FingerprintOf(SignerOf(idA.signing)))
  {
    response := HonestAnswer(idA, idB, spk, opk, ek);
    HonestCompletion(idA, idB, spk, opk, ek, first, response);
    var offered := After(a, Start(idA, spk, opk));
    var received := After(b, ReceiveOffer(CreateOffer(idA, spk, opk).bundle));
    b2 := Accepted(received, idB, ek).value.0;
    a2 := AcceptReceived(offered, idA, response, first).value;
  }

  /** The conversation once the initiator has sent its ack. */
  function AckedWorld(sk: Term, spk: Secret, ek: Secret, first: Secret): Runs.World {
    StartWorld(sk, spk, ek, first).(sent := [[], [[]], [[]]], initiator := Encrypted(InitiatorStart(sk, spk, ek, first), []).0)
  }

  function Ack(sk: Term, spk: Secret, ek: Secret, first: Secret): RatchetMessage {
    Encrypted(InitiatorStart(sk, spk, ek, first), []).1.value
  }

  lemma AckIsSent(sk: Term, spk: Secret, ek: Secret, first: Secret)
    requires sk.X3dhSecret? && spk != ek && first != spk && first != ek
    ensures Runs.Next(StartWorld(sk, spk, ek, first), Runs.Send(Runs.Initiator, [])) == AckedWorld(sk, spk, ek, first)
    ensures Runs.Inv(AckedWorld(sk, spk, ek, first))
    ensures Ack(sk, spk, ek, first) == Runs.Genuine(AckedWorld(sk, spk, ek, first), 2, 0)
  {
    StartIsAligned(sk, spk, ek, first);
    var w, v := StartWorld(sk, spk, ek, first), AckedWorld(sk, spk, ek, first);
    assert Runs.EpochOf(w, Runs.Initiator) == 2;
    var empty: seq<byte> := [];
    assert w.sent[2] + [empty] == [empty] && w.sent[2 := [empty]] == v.sent;
    assert Runs.Next(w, Runs.Send(Runs.Initiator, [])) == v;
    Runs.SendKeepsInv(w, Runs.Initiator, []);
    assert Runs.RootAt(sk, w.epochs, 0) == sk;
    assert Runs.RootAt(sk, w.epochs, 1) == RootHalf(sk, SharedSecret(spk, ek));
  }

  /** The initiator's ack opens the responder's session: it is a deliverable message of the conversation. */
  lemma AckIsAccepted(sk: Term, spk: Secret, ek: Secret, first: Secret, second: Secret)
    requires sk.X3dhSecret? && spk != ek && first != spk && first != ek
    ensures Decrypted(ResponderStart(sk, spk, ek), Ack(sk, spk, ek, first), second).Ok?
  {
    AckIsSent(sk, spk, ek, first);
    var v := AckedWorld(sk, spk, ek, first);
    assert Runs.Deliverable(v, Runs.Responder, 2, 0);
    Runs.DeliverableIsAccepted(v, Runs.Responder, 2, 0, second);
  }

  lemma AckIsAllowed(sk: Term, spk: Secret, ek: Secret, first: Secret, second: Secret)
    requires sk.X3dhSecret? && spk != ek && first != spk && first != ek && second !in [spk, ek, first]
    ensures Runs.Shape(AckedWorld(sk, spk, ek, first))
    ensures Runs.Allowed(AckedWorld(sk, spk, ek, first), Runs.Deliver(Runs.Responder, Ack(sk, spk, ek, first), second))
  {
    AckIsSent(sk, spk, ek, first);
    assert Runs.IsSent(AckedWorld(sk, spk, ek, first), 2, 0);
  }

  /** What the two ratchets become when the responder takes the ack. */
  lemma AckTaken(v: Runs.World, ack: RatchetMessage, second: Secret, done: (RatchetState, seq<byte>))
    requires Runs.Shape(v) && Decrypted(v.responder, ack, second) == Ok(done)
    ensures var next := Runs.Next(v, Runs.Deliver(Runs.Responder, ack, second));
            next.initiator == v.initiator && next.responder == done.0
  {
  }

  lemma AckRun(sk: Term, spk: Secret, ek: Secret, first: Secret, second: Secret) returns (done: (RatchetState, seq<byte>))
    requires sk.X3dhSecret? && spk != ek && first != spk && first != ek && second !in [spk, ek, first]
    ensures var w, ack := StartWorld(sk, spk, ek, first), Ack(sk, spk, ek, first);
            && Decrypted(ResponderStart(sk, spk, ek), ack, second) == Ok(done)
            && Theorems.AllowedRun(w, HandshakeRun(ack, second))
            && Theorems.After(w, HandshakeRun(ack, second)).initiator == AckedWorld(sk, spk, ek, first).initiator
            && Theorems.After(w, HandshakeRun(ack, second)).responder == done.0
  {
    var w, v, ack := StartWorld(sk, spk, ek, first), AckedWorld(sk, spk, ek, first), Ack(sk, spk, ek, first);
    AckIsAccepted(sk, spk, ek, first, second);
    done := Decrypted(ResponderStart(sk, spk, ek), ack, second).value;
    AckTaken(v, ack, second, done);
    AckIsAllowed(sk, spk, ek, first, second);
    StartIsAligned(sk, spk, ek, first);
    AckIsSent(sk, spk, ek, first);
    Theorems.TwoStepRun(w, Runs.Send(Runs.Initiator, []), Runs.Deliver(Runs.Responder, ack, second));
  }

  /** The conversation's first two steps: the initiator sends its ack, the responder takes it. */
  function HandshakeRun(ack: RatchetMessage, second: Secret): seq<Runs.Step> {
    [Runs.Send(Runs.Initiator, []), Runs.Deliver(Runs.Responder, ack, second)]
  }

  ghost predicate IsEstablished(s: SessionValue, role: Role, peer: SigningKey, ratchet: RatchetState) {
    && s.state == Established(ratchet)
    && s.role == Some(role)
    && s.trust.pinned == Some(FingerprintOf(peer))
  }

  /** An established side sends what its ratchet encrypts. */
  lemma AckGoesOut(s: SessionValue, start: RatchetState, ack: RatchetMessage, after: RatchetState)
    requires s.state == Established(start) && Encrypted(start, []) == (after, Ok(ack))
    ensures Sent(s, []).1 == Ok(ack) && After(s, Send([])) == s.(state := Established(after))
  {
  }

  /** A side that waits for the ack is established by decrypting it. */
  lemma AckComesIn(s: SessionValue, start: RatchetState, ack: RatchetMessage, second: Secret, done: (RatchetState, seq<byte>))
    requires s.state == AwaitingAck(start) && Decrypted(start, ack, second) == Ok(done)
    ensures After(s, ReceiveAck(ack, second)) == s.(state := Established(done.0))
  {
    assert AckReceived(s, ack, second) == Ok(s.(state := Established(done.0)));
  }

  lemma AckEncrypted(sk: Term, spk: Secret, ek: Secret, first: Secret)
    ensures Encrypted(InitiatorStart(sk, spk, ek, first), [])
         == (AckedWorld(sk, spk, ek, first).initiator, Ok(Ack(sk, spk, ek, first)))
  {
  }

  lemma InitiatorSide(a: SessionValue, a1: SessionValue, idA: Identity, spk: Secret, opk: Secret, first: Secret,
                      response: HandshakeResponse, peer: SigningKey, start: RatchetState, ack: RatchetMessage)
    requires AcceptReceived(After(a, Start(idA, spk, opk)), idA, response, first) == Ok(a1)
    requires a1.role == Some(Initiator) && a1.trust.pinned == Some(FingerprintOf(peer))
    requires Sent(a1, []).1 == Ok(ack) && After(a1, Send([])) == a1.(state := Established(start))
    ensures IsEstablished(AfterAll(a, [Start(idA, spk, opk), ReceiveAccept(idA, response, first), Send([])]), Initiator, peer, start)
    ensures Sent(AfterAll(a, [Start(idA, spk, opk), ReceiveAccept(idA, response, first)]), []).1 == Ok(ack)
  {
    TwoCalls(a, Start(idA, spk, opk), ReceiveAccept(idA, response, first));
    ThreeCalls(a, Start(idA, spk, opk), ReceiveAccept(idA, response, first), Send([]));
  }

  lemma ResponderSide(b: SessionValue, b1: SessionValue, bundle: PreKeyBundle, idB: Identity, ek: Secret, second: Secret,
                      response: HandshakeResponse, peer: SigningKey, start: RatchetState, ack: RatchetMessage)
    requires Accepted(After(b, ReceiveOffer(bundle)), idB, ek) == Ok((b1, response))
    requires b1.role == Some(Responder) && b1.trust.pinned == Some(FingerprintOf(peer))
    requires After(b1, ReceiveAck(ack, second)) == b1.(state := Established(start))
    ensures IsEstablished(AfterAll(b, [ReceiveOffer(bundle), Accept(idB, ek), ReceiveAck(ack, second)]), Responder, peer, start)
  {
    ThreeCalls(b, ReceiveOffer(bundle), Accept(idB, ek), ReceiveAck(ack, second));
  }

  /**
   Two fresh or returning parties that exchange offer, answer and ack are both established, each as its own
   role with the other's fingerprint pinned, and their ratchets are those of a run of the conversation, two
   steps from a start that satisfies the invariant: what is proved of runs holds of all they send from here.
   */
  lemma HonestHandshakeEstablishesBoth(a: SessionValue, b: SessionValue, idA: Identity, idB: Identity,
                                       spk: Secret, opk: Secret, ek: Secret, first: Secret, second: Secret)
    returns (response: HandshakeResponse, ack: RatchetMessage, start: Runs.World)
    requires Expects(a, SignerOf(idB.signing)) && Expects(b, SignerOf(idA.signing))
    requires spk != ek && first != spk && first != ek && second !in [spk, ek, first]
    ensures Runs.Inv(start) && Theorems.NothingLost(start) && Theorems.AllowedRun(start, HandshakeRun(ack, second))
    ensures start.sk == HonestSecret(spk, idA.agreement, opk, idB.agreement, ek)
    ensures var w, bundle := Theorems.After(start, HandshakeRun(ack, second)), CreateOffer(idA, spk, opk).bundle;
            && IsEstablished(AfterAll(a, [Start(idA, spk, opk), ReceiveAccept(idA, response, first), Send([])]),
                             Initiator, SignerOf(idB.signing), w.initiator)
            && IsEstablished(AfterAll(b, [ReceiveOffer(bundle), Accept(idB, ek), ReceiveAck(ack, second)]),
                             Responder, SignerOf(idA.signing), w.responder)
    ensures Sent(AfterAll(a, [Start(idA, spk, opk), ReceiveAccept(idA, response, first)]), []).1 == Ok(ack)
  {
    var sk := HonestSecret(spk, idA.agreement, opk, idB.agreement, ek);
    var a1, b1;
    response, a1, b1 := OfferAndAnswer(a, b, idA, idB, spk, opk, ek, first);
    ack, start := Ack(sk, spk, ek, first), StartWorld(sk, spk, ek, first);
    StartIsAligned(sk, spk, ek, first);
    var done := AckRun(sk, spk, ek, first, second);
    var afterA := AckedWorld(sk, spk, ek, first).initiator;
    AckEncrypted(sk, spk, ek, first);
    AckGoesOut(a1, InitiatorStart(sk, spk, ek, first), ack, afterA);
    AckComesIn(b1, ResponderStart(sk, spk, ek), ack, second, done);
    InitiatorSide(a, a1, idA, spk, opk, first, response, SignerOf(idB.signing), afterA, ack);
    ResponderSide(b, b1, CreateOffer(idA, spk, opk).bundle, idB, ek, second, response, SignerOf(idA.signing), done.0, ack);
  }

  // ---- why the network cannot forge ----

  /** Any key of the session a computation reaches, it reached through the handshake secret. */
  lemma {:induction false} RootedNeedsTheSecret(r: Recipe, sk: Term, known: set<Secret>)
    requires sk.X3dhSecret? && Within(r, known, {}) && Runs.Rooted(Cook(r), sk)
    ensures Derivable(sk, known)
  {
    if Cook(r) != sk {
      match r
      case DeriveRoot(root, _) => RootedNeedsTheSecret(root, sk, known);
      case DeriveChain(root, _) => RootedNeedsTheSecret(root, sk, known);
      case Step(chain) => RootedNeedsTheSecret(chain, sk, known);
      case Message(chain) => RootedNeedsTheSecret(chain, sk, known);
    }
  }

  /**
   A network that holds no secret of the two parties, only any number of its own, derives none of the
   session's keys, so all it can seal under them is what it was sent: the assumption every run makes.
   */
  lemma NetworkCannotForge(r: Recipe, known: set<Secret>, spk: Secret, ikI: Secret, opk: Secret, ikR: Secret, ek: Secret)
    requires Within(r, known, {}) && known !! {spk, ikI, opk, ikR, ek}
    ensures !Runs.Rooted(Cook(r), HonestSecret(spk, ikI, opk, ikR, ek))
  {
    if Runs.Rooted(Cook(r), HonestSecret(spk, ikI, opk, ikR, ek)) {
      RootedNeedsTheSecret(r, HonestSecret(spk, ikI, opk, ikR, ek), known);
      SecretDerivableIffPairsLeak(spk, ikI, opk, ikR, ek, known);
    }
  }
}
