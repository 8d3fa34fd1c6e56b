/**
 Identities, signatures and the X3DH-style key agreement of crates/obby-client/src/e2ee.rs:155-654. A
 signature is the term that names who signed what, so one verifies exactly when that signer made it.
 */
module Handshake {
  import opened Wrappers
  import opened Crypto
  import opened Ratchets

  /** A signing key somebody holds the secret of, or bytes that are no key at all. */
  datatype SigningKey = SignerOf(secret: Secret) | NotAKey(code: nat)

  datatype Signature = SignedBy(secret: Secret, payload: seq<PublicKey>) | Scribble(code: nat)

  datatype Identity = Identity(agreement: Secret, signing: Secret)

  datatype PreKeyBundle = PreKeyBundle(ik: PublicKey, sik: SigningKey, spk: PublicKey, sig: Signature, opk: PublicKey)

  datatype HandshakeResponse =
    HandshakeResponse(ik: PublicKey, sik: SigningKey, ek: PublicKey, sig: Signature, boot: RatchetMessage)

  datatype PendingOffer = PendingOffer(bundle: PreKeyBundle, spkSecret: Secret, opkSecret: Secret)

  /** The fingerprint of a signing key. Distinct keys never share one. */
  function FingerprintOf(key: SigningKey): Fingerprint {
    match key
    case SignerOf(s) => Fingerprint(2 * s)
    case NotAKey(c) => Fingerprint(2 * c + 1)
  }

  lemma FingerprintsTellKeysApart(a: SigningKey, b: SigningKey)
    ensures FingerprintOf(a) == FingerprintOf(b) <==> a == b
  {
  }

  function Verify(key: SigningKey, payload: seq<PublicKey>, sig: Signature): Result<(), Error> {
    if key.SignerOf? && sig == SignedBy(key.secret, payload) then Ok(()) else Err(InvalidSignature)
  }

  /** Who keeps their offer when two cross: the lower fingerprint; a side that cannot read the other's yields. */
  predicate KeepsOwnOffer(own: Fingerprint, peer: Option<Fingerprint>) {
    peer.Some? && own.code < peer.value.code
  }

  /** Crossing offers never deadlock and never both survive: of two different identities exactly one keeps its offer. */
  lemma ExactlyOneKeepsItsOffer(a: SigningKey, b: SigningKey)
    requires a != b
    ensures KeepsOwnOffer(FingerprintOf(a), Some(FingerprintOf(b)))
       <==> !KeepsOwnOffer(FingerprintOf(b), Some(FingerprintOf(a)))
    ensures FingerprintOf(a).code < FingerprintOf(b).code ==> KeepsOwnOffer(FingerprintOf(a), Some(FingerprintOf(b)))
    ensures !KeepsOwnOffer(FingerprintOf(a), None)
  {
    FingerprintsTellKeysApart(a, b);
  }

  // ---- X3DH ----

  function X3dhKdf(dh1: Result<Term, Error>, dh2: Result<Term, Error>, dh3: Result<Term, Error>, dh4: Result<Term, Error>): Result<Term, Error> {
    if dh1.Ok? && dh2.Ok? && dh3.Ok? && dh4.Ok?
    then Ok(X3dhSecret(dh1.value, dh2.value, dh3.value, dh4.value))
    else Err(NonContributoryDh)
  }

  function SecretOfResponder(ownIdentity: Secret, ownEphemeral: Secret, peerIdentity: PublicKey,
                             peerSignedPrekey: PublicKey, peerOneTimePrekey: PublicKey): Result<Term, Error>
  {
    X3dhKdf(DiffieHellman(ownIdentity, peerSignedPrekey),
            DiffieHellman(ownEphemeral, peerIdentity),
            DiffieHellman(ownEphemeral, peerSignedPrekey),
            DiffieHellman(ownEphemeral, peerOneTimePrekey))
  }

  function SecretOfInitiator(ownSignedPrekey: Secret, ownIdentity: Secret, ownOneTimePrekey: Secret,
                             peerIdentity: PublicKey, peerEphemeral: PublicKey): Result<Term, Error>
  {
    X3dhKdf(DiffieHellman(ownSignedPrekey, peerIdentity),
            DiffieHellman(ownIdentity, peerEphemeral),
            DiffieHellman(ownSignedPrekey, peerEphemeral),
            DiffieHellman(ownOneTimePrekey, peerEphemeral))
  }

  /**
   The two sides, each using its own secrets and whatever keys it was shown, agree on a secret exactly
   when each was shown the other's true keys. The two sides' own secrets are distinct, as fresh ones are.
   */
  lemma SecretsAgreeIffKeysMatch(spk: Secret, ikI: Secret, opk: Secret, ikR: Secret, ek: Secret,
                                 shownIkR: PublicKey, shownEk: PublicKey,
                                 shownIkI: PublicKey, shownSpk: PublicKey, shownOpk: PublicKey)
    requires {spk, ikI, opk} !! {ikR, ek}
    ensures var i, r := SecretOfInitiator(spk, ikI, opk, shownIkR, shownEk), SecretOfResponder(ikR, ek, shownIkI, shownSpk, shownOpk);
            (i.Ok? && i == r)
            <==> shownIkR == Of(ikR) && shownEk == Of(ek) && shownIkI == Of(ikI) && shownSpk == Of(spk) && shownOpk == Of(opk)
  {
    assert spk != ikR && spk != ek && ikI != ek && opk != ek;
  }

  // ---- what an eavesdropper can derive ----

  /** A computation: pick bytes, use a key one was given, exchange with a secret one holds, run a key derivation. */
  datatype Recipe =
    | Pick(code: nat)
    | Given(key: Term)
    | Exchange(secret: Secret, public: Secret)
    | Agree(r1: Recipe, r2: Recipe, r3: Recipe, r4: Recipe)
    | DeriveRoot(root: Recipe, dh: Recipe)
    | DeriveChain(root: Recipe, dh: Recipe)
    | Step(chain: Recipe)
    | Message(chain: Recipe)

  function Cook(r: Recipe): Term {
    match r
    case Pick(code) => Raw(code)
    case Given(key) => key
    case Exchange(secret, public) => SharedSecret(secret, public)
    case Agree(r1, r2, r3, r4) => X3dhSecret(Cook(r1), Cook(r2), Cook(r3), Cook(r4))
    case DeriveRoot(root, dh) => RootHalf(Cook(root), Cook(dh))
    case DeriveChain(root, dh) => ChainHalf(Cook(root), Cook(dh))
    case Step(chain) => NextChain(Cook(chain))
    case Message(chain) => MessageKey(Cook(chain))
  }

  /** Whether a holder of these secrets and keys can carry the computation out. */
  predicate Within(r: Recipe, known: set<Secret>, keys: set<Term>) {
    match r
    case Pick(_) => true
    case Given(key) => key in keys
    case Exchange(secret, _) => secret in known
    case Agree(r1, r2, r3, r4) =>
      Within(r1, known, keys) && Within(r2, known, keys) && Within(r3, known, keys) && Within(r4, known, keys)
    case DeriveRoot(root, dh) => Within(root, known, keys) && Within(dh, known, keys)
    case DeriveChain(root, dh) => Within(root, known, keys) && Within(dh, known, keys)
    case Step(chain) => Within(chain, known, keys)
    case Message(chain) => Within(chain, known, keys)
  }

  ghost predicate DerivableFrom(t: Term, known: set<Secret>, keys: set<Term>) {
    exists r :: Within(r, known, keys) && Cook(r) == t
  }

  /** From secrets alone. */
  ghost predicate Derivable(t: Term, known: set<Secret>) {
    DerivableFrom(t, known, {})
  }

  lemma SharedIsDerivable(a: Secret, b: Secret, known: set<Secret>)
    ensures Derivable(SharedSecret(a, b), known) <==> a in known || b in known
  {
    if a in known {
      assert Within(Exchange(a, b), known, {}) && Cook(Exchange(a, b)) == SharedSecret(a, b);
    } else if b in known {
      assert Within(Exchange(b, a), known, {}) && Cook(Exchange(b, a)) == SharedSecret(a, b);
    }
  }

  function HonestSecret(spk: Secret, ikI: Secret, opk: Secret, ikR: Secret, ek: Secret): Term {
    X3dhSecret(SharedSecret(spk, ikR), SharedSecret(ikI, ek), SharedSecret(spk, ek), SharedSecret(opk, ek))
  }

  /**
   Exactly which leaks break a handshake: an outsider derives the session secret if and only if it holds
   one secret of each of the four pairs, so the ephemeral alone is not enough and neither are both identities.
   */
  lemma SecretDerivableIffPairsLeak(spk: Secret, ikI: Secret, opk: Secret, ikR: Secret, ek: Secret, known: set<Secret>)
    ensures Derivable(HonestSecret(spk, ikI, opk, ikR, ek), known)
       <==> (spk in known || ikR in known) && (ikI in known || ek in known)
            && (spk in known || ek in known) && (opk in known || ek in known)
  {
    var t := HonestSecret(spk, ikI, opk, ikR, ek);
    SharedIsDerivable(spk, ikR, known);
    SharedIsDerivable(ikI, ek, known);
    SharedIsDerivable(spk, ek, known);
    SharedIsDerivable(opk, ek, known);
    if Derivable(t, known) {
      var r :| Within(r, known, {}) && Cook(r) == t;
      assert Within(r.r1, known, {}) && Within(r.r2, known, {}) && Within(r.r3, known, {}) && Within(r.r4, known, {});
    }
    if Derivable(t.dh1, known) && Derivable(t.dh2, known) && Derivable(t.dh3, known) && Derivable(t.dh4, known) {
      var r1 :| Within(r1, known, {}) && Cook(r1) == t.dh1;
      var r2 :| Within(r2, known, {}) && Cook(r2) == t.dh2;
      var r3 :| Within(r3, known, {}) && Cook(r3) == t.dh3;
      var r4 :| Within(r4, known, {}) && Cook(r4) == t.dh4;
      assert Within(Agree(r1, r2, r3, r4), known, {}) && Cook(Agree(r1, r2, r3, r4)) == t;
    }
  }

  // ---- the offer and its answer ----

  function CreateOffer(identity: Identity, spkSecret: Secret, opkSecret: Secret): PendingOffer {
    var payload := [Of(identity.agreement), Of(spkSecret), Of(opkSecret)];
    PendingOffer(PreKeyBundle(Of(identity.agreement), SignerOf(identity.signing), Of(spkSecret),
                              SignedBy(identity.signing, payload), Of(opkSecret)),
                 spkSecret, opkSecret)
  }

  function VerifyBundle(bundle: PreKeyBundle): Result<(), Error> {
    Verify(bundle.sik, [bundle.ik, bundle.spk, bundle.opk], bundle.sig)
  }

  /** The answer to an offer, and the state of the sending-only ratchet it opens. */
  function OfferAccepted(identity: Identity, bundle: PreKeyBundle, ekSecret: Secret): Result<(HandshakeResponse, RatchetState), Error> {
    if VerifyBundle(bundle).Err? then Err(InvalidSignature)
    else
      match SecretOfResponder(identity.agreement, ekSecret, bundle.ik, bundle.spk, bundle.opk)
      case Err(e) => Err(e)
      case Ok(sk) =>
        match InitAsResponder(sk, ekSecret, bundle.spk)
        case Err(e) => Err(e)
        case Ok(started) =>
          var (ratchet, boot) := Encrypted(started, []);
          if boot.Err? then Err(boot.error)
          else
            Ok((HandshakeResponse(Of(identity.agreement), SignerOf(identity.signing), Of(ekSecret),
                                  SignedBy(identity.signing, [Of(identity.agreement), Of(ekSecret)]), boot.value),
                ratchet))
  }

  /** The state of the ratchet the initiator opens on an answer it could verify and whose first message it could read. */
  function HandshakeCompleted(identity: Identity, pending: PendingOffer, response: HandshakeResponse, newSecret: Secret): Result<RatchetState, Error> {
    if Verify(response.sik, [response.ik, response.ek], response.sig).Err? then Err(InvalidSignature)
    else
      match SecretOfInitiator(pending.spkSecret, identity.agreement, pending.opkSecret, response.ik, response.ek)
      case Err(e) => Err(e)
      case Ok(sk) =>
        match Decrypted(InitAsInitiator(sk, pending.spkSecret), response.boot, newSecret)
        case Err(e) => Err(e)
        case Ok(done) => Ok(done.0)
  }

  method AcceptOffer(identity: Identity, bundle: PreKeyBundle, ekSecret: Secret)
    returns (r: Result<(HandshakeResponse, Ratchet), Error>)
    ensures match OfferAccepted(identity, bundle, ekSecret)
            case Err(e) => r == Err(e)
            case Ok((response, state)) =>
              && r.Ok? && r.value.0 == response
              && fresh(r.value.1) && fresh(r.value.1.skipped) && r.value.1.State() == state
  {
    var verified := VerifyBundle(bundle);
    if verified.Err? {
      return Err(verified.error);
    }
    var sk := SecretOfResponder(identity.agreement, ekSecret, bundle.ik, bundle.spk, bundle.opk);
    if sk.Err? {
      return Err(sk.error);
    }
    // the signed prekey was contributory in the third agreement, so it is here
    var ratchet := new Ratchet.AsResponder(sk.value, ekSecret, bundle.spk, sk.value.dh3);
    var boot := ratchet.Encrypt([]);
    var response := HandshakeResponse(Of(identity.agreement), SignerOf(identity.signing), Of(ekSecret),
                                      SignedBy(identity.signing, [Of(identity.agreement), Of(ekSecret)]), boot.value);
    r := Ok((response, ratchet));
  }

  method CompleteHandshake(identity: Identity, pending: PendingOffer, response: HandshakeResponse, newSecret: Secret)
    returns (r: Result<Ratchet, Error>)
    ensures match HandshakeCompleted(identity, pending, response, newSecret)
            case Err(e) => r == Err(e)
            case Ok(state) => r.Ok? && fresh(r.value) && fresh(r.value.skipped) && r.value.State() == state
  {
    var verified := Verify(response.sik, [response.ik, response.ek], response.sig);
    if verified.Err? {
      return Err(verified.error);
    }
    var sk := SecretOfInitiator(pending.spkSecret, identity.agreement, pending.opkSecret, response.ik, response.ek);
    if sk.Err? {
      return Err(sk.error);
    }
    var ratchet := new Ratchet.AsInitiator(sk.value, pending.spkSecret);
    var boot := ratchet.Decrypt(response.boot, newSecret);
    if boot.Err? {
      return Err(boot.error);
    }
    r := Ok(ratchet);
  }
}
