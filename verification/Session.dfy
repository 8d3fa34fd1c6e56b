/**
 Trust on first use and the session state machine of crates/obby-client/src/e2ee.rs:257-321 and 959-1217,
 proved against a function on values, and what every sequence of calls on a session keeps.
 */
module Sessions {
  import opened Wrappers
  import opened Integers
  import opened Crypto
  import opened Ratchets
  import opened Handshake

  datatype PinOutcome = New | Same | Changed(previous: Fingerprint)

  datatype Trust = Trust(pinned: Option<Fingerprint>, verified: bool)

  function Observed(t: Trust, fingerprint: Fingerprint): (Trust, PinOutcome) {
    match t.pinned
    case None => (t.(pinned := Some(fingerprint)), New)
    case Some(pinned) => (t, if pinned == fingerprint then Same else Changed(pinned))
  }

  class PeerTrust {
    var pinned: Option<Fingerprint>
    var verified: bool

    function State(): Trust
      reads this
    {
      Trust(pinned, verified)
    }

    constructor ()
      ensures State() == Trust(None, false)
    {
      pinned, verified := None, false;
    }

    method Observe(fingerprint: Fingerprint) returns (outcome: PinOutcome)
      modifies this
      ensures (State(), outcome) == Observed(old(State()), fingerprint)
    {
      if pinned.None? {
        pinned := Some(fingerprint);
        return New;
      }
      outcome := if pinned.value == fingerprint then Same else Changed(pinned.value);
    }

    method Repin(fingerprint: Fingerprint)
      modifies this
      ensures State() == Trust(Some(fingerprint), false)
    {
      pinned, verified := Some(fingerprint), false;
    }

    method SetVerified(verified: bool)
      modifies this
      ensures State() == Trust(old(pinned), verified)
    {
      this.verified := verified;
    }
  }

  datatype Role = Initiator | Responder

  /** How far a conversation has got; `R` is a live ratchet in the session and its state in the specification. */
  datatype SessionState<R> =
    | Idle
    | Offered(pending: PendingOffer)
    | OfferReceived(bundle: PreKeyBundle)
    | AwaitingAck(ratchet: R)
    | Established(ratchet: R)
    | Rejected
    | Closed

  datatype SessionValue = SessionValue(state: SessionState<RatchetState>, trust: Trust, role: Option<Role>)

  const FRESH: SessionValue := SessionValue(Idle, Trust(None, false), None)

  /** Adopt a ratchet whose handshake verified `key`, unless the pin says this peer had another key. */
  function Enter(s: SessionValue, key: SigningKey, role: Role, state: SessionState<RatchetState>): Result<SessionValue, Error> {
    var current := FingerprintOf(key);
    match Observed(s.trust, current)
    case (_, Changed(previous)) => Err(FingerprintChanged(previous, current))
    case (trust, _) => Ok(SessionValue(state, trust, Some(role)))
  }

  function Accepted(s: SessionValue, identity: Identity, ekSecret: Secret): Result<(SessionValue, HandshakeResponse), Error> {
    if !s.state.OfferReceived? then Err(WrongState)
    else
      match OfferAccepted(identity, s.state.bundle, ekSecret)
      case Err(e) => Err(e)
      case Ok((response, ratchet)) =>
        match Enter(s, s.state.bundle.sik, Responder, AwaitingAck(ratchet))
        case Err(e) => Err(e)
        case Ok(after) => Ok((after, response))
  }

  function AcceptReceived(s: SessionValue, identity: Identity, response: HandshakeResponse, newSecret: Secret): Result<SessionValue, Error> {
    if !s.state.Offered? then Err(WrongState)
    else
      match HandshakeCompleted(identity, s.state.pending, response, newSecret)
      case Err(e) => Err(e)
      case Ok(ratchet) => Enter(s, response.sik, Initiator, Established(ratchet))
  }

  function AckReceived(s: SessionValue, ct: RatchetMessage, newSecret: Secret): Result<SessionValue, Error> {
    if !s.state.AwaitingAck? then Err(WrongState)
    else
      match Decrypted(s.state.ratchet, ct, newSecret)
      case Err(e) => Err(e)
      case Ok(done) => Ok(s.(state := Established(done.0)))
  }

  function Sent(s: SessionValue, plaintext: seq<byte>): (SessionValue, Result<RatchetMessage, Error>) {
    if !s.state.Established? then (s, Err(WrongState))
    else
      var (ratchet, r) := Encrypted(s.state.ratchet, plaintext);
      (s.(state := Established(ratchet)), r)
  }

  function Received(s: SessionValue, ct: RatchetMessage, newSecret: Secret): Result<(SessionValue, seq<byte>), Error> {
    if !s.state.Established? then Err(WrongState)
    else
      match Decrypted(s.state.ratchet, ct, newSecret)
      case Err(e) => Err(e)
      case Ok(done) => Ok((s.(state := Established(done.0)), done.1))
  }

  class Session {
    var state: SessionState<Ratchet>
    const trust: PeerTrust
    var role: Option<Role>

    ghost function Footprint(): set<object>
      reads this
    {
      {this, trust} + match state
                      case AwaitingAck(r) => {r}
                      case Established(r) => {r}
                      case _ => {}
    }

    ghost function Value(): SessionValue
      reads this, Footprint(), match state
                               case AwaitingAck(r) => {r.skipped}
                               case Established(r) => {r.skipped}
                               case _ => {}
    {
      SessionValue(match state
                   case Idle => Idle
                   case Offered(pending) => Offered(pending)
                   case OfferReceived(bundle) => OfferReceived(bundle)
                   case AwaitingAck(r) => AwaitingAck(r.State())
                   case Established(r) => Established(r.State())
                   case Rejected => Rejected
                   case Closed => Closed,
                   trust.State(), role)
    }

    constructor ()
      ensures Value() == FRESH && fresh(Footprint())
    {
      state, role := Idle, None;
      trust := new PeerTrust();
    }

    method Start(identity: Identity, spkSecret: Secret, opkSecret: Secret) returns (bundle: PreKeyBundle)
      modifies this
      ensures var pending := CreateOffer(identity, spkSecret, opkSecret);
              bundle == pending.bundle && Value() == old(Value()).(state := Offered(pending))
    {
      var pending := CreateOffer(identity, spkSecret, opkSecret);
      bundle := pending.bundle;
      state := Offered(pending);
    }

    method ReceiveOffer(bundle: PreKeyBundle) returns (offered: Fingerprint)
      modifies this
      ensures offered == FingerprintOf(bundle.sik) && Value() == old(Value()).(state := OfferReceived(bundle))
    {
      offered := FingerprintOf(bundle.sik);
      state := OfferReceived(bundle);
    }

    method Accept(identity: Identity, ekSecret: Secret) returns (r: Result<HandshakeResponse, Error>)
      modifies Footprint()
      ensures fresh(Footprint() - old(Footprint()))
      ensures match Accepted(old(Value()), identity, ekSecret)
              case Err(e) => r == Err(e) && Value() == old(Value())
              case Ok((after, response)) => r == Ok(response) && Value() == after
    {
      if !state.OfferReceived? {
        return Err(WrongState);
      }
      var bundle := state.bundle;
      var unlocked := AcceptOffer(identity, bundle, ekSecret);
      if unlocked.Err? {
        return Err(unlocked.error);
      }
      var current := FingerprintOf(bundle.sik);
      var outcome := trust.Observe(current);
      if outcome.Changed? {
        return Err(FingerprintChanged(outcome.previous, current));
      }
      role := Some(Responder);
      state := AwaitingAck(unlocked.value.1);
      r := Ok(unlocked.value.0);
    }

    method Reject()
      modifies this
      ensures Value() == old(Value()).(state := Rejected)
    {
      state := Rejected;
    }

    method ReceiveReject()
      modifies this
      ensures Value() == old(Value()).(state := Rejected)
    {
      state := Rejected;
    }

    method ReceiveAccept(identity: Identity, response: HandshakeResponse, newSecret: Secret) returns (r: Result<(), Error>)
      modifies Footprint()
      ensures fresh(Footprint() - old(Footprint()))
      ensures match AcceptReceived(old(Value()), identity, response, newSecret)
              case Err(e) => r == Err(e) && Value() == old(Value())
              case Ok(after) => r == Ok(()) && Value() == after
    {
      if !state.Offered? {
        return Err(WrongState);
      }
      var completed := CompleteHandshake(identity, state.pending, response, newSecret);
      if completed.Err? {
        return Err(completed.error);
      }
      var current := FingerprintOf(response.sik);
      var outcome := trust.Observe(current);
      if outcome.Changed? {
        return Err(FingerprintChanged(outcome.previous, current));
      }
      role := Some(Initiator);
      state := Established(completed.value);
      r := Ok(());
    }

    method MakeAck() returns (r: Result<RatchetMessage, Error>)
      modifies Footprint()
      ensures Footprint() == old(Footprint())
      ensures (Value(), r) == Sent(old(Value()), [])
    {
      r := Send([]);
    }

    method ReceiveAck(ct: RatchetMessage, newSecret: Secret) returns (r: Result<(), Error>)
      modifies Footprint()
      ensures fresh(Footprint() - old(Footprint()))
      ensures match AckReceived(old(Value()), ct, newSecret)
              case Err(e) => r == Err(e) && Value() == old(Value())
              case Ok(after) => r == Ok(()) && Value() == after
    {
      if !state.AwaitingAck? {
        return Err(WrongState);
      }
      var ratchet := state.ratchet;
      var unlocked := ratchet.Decrypt(ct, newSecret);
      if unlocked.Err? {
        return Err(unlocked.error);
      }
      state := Established(ratchet);
      r := Ok(());
    }

    method Send(plaintext: seq<byte>) returns (r: Result<RatchetMessage, Error>)
      modifies Footprint()
      ensures Footprint() == old(Footprint())
      ensures (Value(), r) == Sent(old(Value()), plaintext)
    {
      if !state.Established? {
        return Err(WrongState);
      }
      var ratchet := state.ratchet;
      r := ratchet.Encrypt(plaintext);
    }

    method Receive(ct: RatchetMessage, newSecret: Secret) returns (r: Result<seq<byte>, Error>)
      modifies Footprint()
      ensures Footprint() == old(Footprint())
      ensures match Received(old(Value()), ct, newSecret)
              case Err(e) => r == Err(e) && Value() == old(Value())
              case Ok((after, plaintext)) => r == Ok(plaintext) && Value() == after
    {
      if !state.Established? {
        return Err(WrongState);
      }
      var ratchet := state.ratchet;
      r := ratchet.Decrypt(ct, newSecret);
    }

    method Close()
      modifies this
      ensures Value() == old(Value()).(state := Closed)
    {
      state := Closed;
    }

    method MarkPeerVerified()
      modifies trust
      ensures Value() == old(Value()).(trust := Trust(old(trust.pinned), true))
    {
      trust.SetVerified(true);
    }

    method ConfirmFingerprintChange(fingerprint: Fingerprint)
      modifies trust
      ensures Value() == old(Value()).(trust := Trust(Some(fingerprint), false))
    {
      trust.Repin(fingerprint);
    }
  }
}
