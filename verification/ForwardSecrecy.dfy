/**
 What a party's ratchet state gives away (crates/obby-client/src/e2ee.rs:697-868). Whoever takes it, with any secrets
 that do not give the handshake secret, computes exactly the message keys still ahead on its two chains and those it
 holds as skipped: the key of a message sent, or received, is gone.
 */
module ForwardSecrecy {
  import opened Wrappers
  import opened Integers
  import opened Crypto
  import opened SkippedKeyStore
  import opened Ratchets
  import opened Handshake
  import opened RatchetRuns
  import opened RatchetTheorems

  /** The keys in a state: the root, both chains and the skipped message keys. */
  function KeysIn(s: RatchetState): set<Term> {
    {s.rootKey} + ChainIn(s.sendChain) + ChainIn(s.recvChain) + s.skipped.byId.Values
  }

  function ChainIn(chain: Option<Term>): set<Term> {
    if chain.Some? then {chain.value} else {}
  }

  /** A handshake secret as the two computations make it: four Diffie-Hellman values. */
  predicate FromExchanges(sk: Term) {
    sk.X3dhSecret? && sk.dh1.Shared? && sk.dh2.Shared? && sk.dh3.Shared? && sk.dh4.Shared?
  }

  /** What each key of a state in epoch `e` can be. */
  ghost predicate StateKey(w: World, s: RatchetState, e: nat, t: Term)
    requires Shape(w) && 1 <= e < |w.epochs|
  {
    || t == RootAt(w.sk, w.epochs, e)
    || t == Advance(ChainAt(w.sk, w.epochs, e), s.nSend)
    || (e >= 2 && t == Advance(ChainAt(w.sk, w.epochs, e - 1), s.nRecv))
    || (exists i: nat, m: u32 :: HeldKey(w, s, t, i, m))
  }

  /** A skipped key of message `m` of epoch `i`. */
  ghost predicate HeldKey(w: World, s: RatchetState, t: Term, i: nat, m: u32) {
    && 1 <= i < |w.epochs| && (Of(w.epochs[i]), m) in s.skipped.byId
    && t == KeyAt(ChainAt(w.sk, w.epochs, i), m)
  }

  ghost predicate AllStateKeys(w: World, s: RatchetState, e: nat, keys: set<Term>)
    requires Shape(w) && 1 <= e < |w.epochs|
  {
    forall t | t in keys :: StateKey(w, s, e, t)
  }

  lemma StateHoldsOnlyStateKeys(w: World, s: RatchetState, e: nat)
    requires Shape(w) && Aligned(w, s, e) && s.nSend < U32_MAX
    ensures AllStateKeys(w, s, e, KeysIn(s))
  {
    forall t | t in s.skipped.byId.Values ensures StateKey(w, s, e, t) {
      var id :| id in s.skipped.byId && s.skipped.byId[id] == t;
      var i := EntryOf(w, s.skipped, e, s.nRecv, id);
      assert HeldKey(w, s, t, i, id.1);
    }
  }

  /** A message whose key the state still leads to: held as skipped, or ahead on one of its two chains. */
  ghost predicate StillAhead(w: World, s: RatchetState, e: nat, i: nat, m: nat)
    requires i < |w.epochs|
  {
    (i == e && m >= s.nSend) || (e >= 2 && i == e - 1 && m >= s.nRecv) || Stored(w, s, i, m)
  }

  lemma AdvanceIsChain(c: Term, n: nat)
    requires c.ChainHalf?
    ensures Advance(c, n).ChainHalf? || Advance(c, n).NextChain?
  {
  }

  /** A Diffie-Hellman value is no key of a state, so it is computed from a secret. */
  lemma ExchangeNeedsASecret(r: Recipe, known: set<Secret>, keys: set<Term>, w: World, s: RatchetState, e: nat)
    requires Shape(w) && 1 <= e < |w.epochs| && AllStateKeys(w, s, e, keys)
    requires Within(r, known, keys) && Cook(r).Shared?
    ensures Derivable(Cook(r), known)
  {
    if r.Given? {
      AdvanceIsChain(ChainAt(w.sk, w.epochs, e), s.nSend);
      if e >= 2 {
        AdvanceIsChain(ChainAt(w.sk, w.epochs, e - 1), s.nRecv);
      }
    } else {
      assert Within(r, known, {});
    }
  }

  lemma HandshakeSecretIsSafe(r: Recipe, known: set<Secret>, keys: set<Term>, w: World, s: RatchetState, e: nat)
    requires Shape(w) && 1 <= e < |w.epochs| && AllStateKeys(w, s, e, keys) && FromExchanges(w.sk)
    requires Within(r, known, keys) && Cook(r) == w.sk
    ensures Derivable(w.sk, known)
  {
    if r.Given? {
      AdvanceIsChain(ChainAt(w.sk, w.epochs, e), s.nSend);
      if e >= 2 {
        AdvanceIsChain(ChainAt(w.sk, w.epochs, e - 1), s.nRecv);
      }
    } else {
      ExchangeNeedsASecret(r.r1, known, keys, w, s, e);
      ExchangeNeedsASecret(r.r2, known, keys, w, s, e);
      ExchangeNeedsASecret(r.r3, known, keys, w, s, e);
      ExchangeNeedsASecret(r.r4, known, keys, w, s, e);
      var r1 :| Within(r1, known, {}) && Cook(r1) == w.sk.dh1;
      var r2 :| Within(r2, known, {}) && Cook(r2) == w.sk.dh2;
      var r3 :| Within(r3, known, {}) && Cook(r3) == w.sk.dh3;
      var r4 :| Within(r4, known, {}) && Cook(r4) == w.sk.dh4;
      assert Within(Agree(r1, r2, r3, r4), known, {}) && Cook(Agree(r1, r2, r3, r4)) == w.sk;
    }
  }

  /** A root that the state has moved past cannot be computed back. */
  lemma {:induction false} OldRootIsGone(r: Recipe, known: set<Secret>, keys: set<Term>, w: World, s: RatchetState, e: nat, j: nat)
    requires Shape(w) && 1 <= e < |w.epochs| && AllStateKeys(w, s, e, keys) && FromExchanges(w.sk)
    requires !Derivable(w.sk, known) && Within(r, known, keys) && j < e
    ensures Cook(r) != RootAt(w.sk, w.epochs, j)
    decreases j
  {
    if Cook(r) == RootAt(w.sk, w.epochs, j) {
      if r.Given? {
        RootIsNotHeld(w, s, e, j);
      } else if j == 0 {
        HandshakeSecretIsSafe(r, known, keys, w, s, e);
      } else {
        OldRootIsGone(r.root, known, keys, w, s, e, j - 1);
      }
    }
  }

  lemma RootIsNotHeld(w: World, s: RatchetState, e: nat, j: nat)
    requires Shape(w) && 1 <= e < |w.epochs| && j < e
    ensures !StateKey(w, s, e, RootAt(w.sk, w.epochs, j))
  {
    AdvanceIsChain(ChainAt(w.sk, w.epochs, e), s.nSend);
    if e >= 2 {
      AdvanceIsChain(ChainAt(w.sk, w.epochs, e - 1), s.nRecv);
    }
    if RootAt(w.sk, w.epochs, e) == RootAt(w.sk, w.epochs, j) {
      RootsDiffer(w.sk, w.epochs, e, j);
    }
  }

  lemma ChainsDiffer(w: World, i: nat, j: nat, m: nat, n: nat)
    requires Shape(w) && 1 <= i < |w.epochs| && 1 <= j < |w.epochs|
    requires Advance(ChainAt(w.sk, w.epochs, i), m) == Advance(ChainAt(w.sk, w.epochs, j), n)
    ensures i == j && m == n
  {
    AdvanceInjective(ChainAt(w.sk, w.epochs, i), ChainAt(w.sk, w.epochs, j), m, n);
    RootsDiffer(w.sk, w.epochs, i - 1, j - 1);
  }

  lemma ChainIsNotHeld(w: World, s: RatchetState, e: nat, i: nat, m: nat)
    requires Shape(w) && 1 <= i <= e < |w.epochs|
    requires (i == e ==> m < s.nSend) && (i == e - 1 ==> m < s.nRecv)
    ensures !StateKey(w, s, e, Advance(ChainAt(w.sk, w.epochs, i), m))
  {
    var t := Advance(ChainAt(w.sk, w.epochs, i), m);
    AdvanceIsChain(ChainAt(w.sk, w.epochs, i), m);
    if t == Advance(ChainAt(w.sk, w.epochs, e), s.nSend) {
      ChainsDiffer(w, i, e, m, s.nSend);
    }
    if e >= 2 && t == Advance(ChainAt(w.sk, w.epochs, e - 1), s.nRecv) {
      ChainsDiffer(w, i, e - 1, m, s.nRecv);
    }
  }

  /** A chain position behind the state cannot be computed back. */
  lemma {:induction false} OldChainIsGone(r: Recipe, known: set<Secret>, keys: set<Term>, w: World, s: RatchetState, e: nat, i: nat, m: nat)
    requires Shape(w) && 1 <= i <= e < |w.epochs| && AllStateKeys(w, s, e, keys) && FromExchanges(w.sk)
    requires !Derivable(w.sk, known) && Within(r, known, keys)
    requires (i == e ==> m < s.nSend) && (i == e - 1 ==> m < s.nRecv)
    ensures Cook(r) != Advance(ChainAt(w.sk, w.epochs, i), m)
    decreases m
  {
    if Cook(r) == Advance(ChainAt(w.sk, w.epochs, i), m) {
      if r.Given? {
        ChainIsNotHeld(w, s, e, i, m);
      } else if m == 0 {
        OldRootIsGone(r.root, known, keys, w, s, e, i - 1);
      } else {
        OldChainIsGone(r.chain, known, keys, w, s, e, i, m - 1);
      }
    }
  }

  lemma OldKeyIsGone(r: Recipe, known: set<Secret>, w: World, s: RatchetState, e: nat, i: nat, m: nat)
    requires Shape(w) && Aligned(w, s, e) && s.nSend < U32_MAX && FromExchanges(w.sk)
    requires !Derivable(w.sk, known) && Within(r, known, KeysIn(s)) && 1 <= i <= e && !StillAhead(w, s, e, i, m)
    ensures Cook(r) != KeyAt(ChainAt(w.sk, w.epochs, i), m)
  {
    StateHoldsOnlyStateKeys(w, s, e);
    if Cook(r) == KeyAt(ChainAt(w.sk, w.epochs, i), m) {
      if r.Given? {
        HeldKeyIsStored(w, s, e, i, m);
      } else {
        OldChainIsGone(r.chain, known, KeysIn(s), w, s, e, i, m);
      }
    }
  }

  lemma HeldKeyIsStored(w: World, s: RatchetState, e: nat, i: nat, m: nat)
    requires Shape(w) && 1 <= i <= e < |w.epochs| && StateKey(w, s, e, KeyAt(ChainAt(w.sk, w.epochs, i), m))
    ensures Stored(w, s, i, m)
  {
    var t := KeyAt(ChainAt(w.sk, w.epochs, i), m);
    AdvanceIsChain(ChainAt(w.sk, w.epochs, e), s.nSend);
    if e >= 2 {
      AdvanceIsChain(ChainAt(w.sk, w.epochs, e - 1), s.nRecv);
    }
    var j: nat, n: u32 :| HeldKey(w, s, t, j, n);
    ChainsDiffer(w, i, j, m, n);
  }

  /** From a chain, every later message key. */
  lemma {:induction false} ChainGivesLaterKeys(c: Term, n: nat, m: nat, known: set<Secret>, keys: set<Term>) returns (r: Recipe)
    requires n <= m && Advance(c, n) in keys
    ensures Within(r, known, keys) && Cook(r) == Advance(c, m)
    decreases m
  {
    if n == m {
      r := Given(Advance(c, n));
    } else {
      r := ChainGivesLaterKeys(c, n, m - 1, known, keys);
      r := Step(r);
    }
  }

  lemma AheadIsDerivable(w: World, s: RatchetState, e: nat, i: nat, m: nat, known: set<Secret>)
    requires Shape(w) && Aligned(w, s, e) && s.nSend < U32_MAX && 1 <= i <= e && StillAhead(w, s, e, i, m)
    ensures DerivableFrom(KeyAt(ChainAt(w.sk, w.epochs, i), m), known, KeysIn(s))
  {
    var t := KeyAt(ChainAt(w.sk, w.epochs, i), m);
    if Stored(w, s, i, m) {
      var id: KeyId := (Of(w.epochs[i]), m);
      var j := EntryOf(w, s.skipped, e, s.nRecv, id);
      assert j == i && t in s.skipped.byId.Values;
      assert Within(Given(t), known, KeysIn(s)) && Cook(Given(t)) == t;
    } else {
      var r := ChainGivesLaterKeys(ChainAt(w.sk, w.epochs, i), if i == e then s.nSend else s.nRecv, m, known, KeysIn(s));
      assert Within(Message(r), known, KeysIn(s)) && Cook(Message(r)) == t;
    }
  }

  /**
   Exactly which message keys a party's state gives away, to whoever holds it and any secrets at all, the party's own
   ratchet secret included, that do not give the handshake secret: of the epochs up to its own, the keys ahead on its
   sending chain, those ahead on its receiving chain, and the skipped keys it still holds.
   */
  lemma StateGivesAwayIff(w: World, p: Party, i: nat, m: nat, known: set<Secret>)
    requires Inv(w) && FromExchanges(w.sk) && StateOf(w, p).nSend < U32_MAX && !Derivable(w.sk, known)
    requires 1 <= i <= EpochOf(w, p)
    ensures DerivableFrom(KeyAt(ChainAt(w.sk, w.epochs, i), m), known, KeysIn(StateOf(w, p)))
       <==> StillAhead(w, StateOf(w, p), EpochOf(w, p), i, m)
  {
    var s, e := StateOf(w, p), EpochOf(w, p);
    var t := KeyAt(ChainAt(w.sk, w.epochs, i), m);
    if StillAhead(w, s, e, i, m) {
      AheadIsDerivable(w, s, e, i, m, known);
    } else if DerivableFrom(t, known, KeysIn(s)) {
      var r :| Within(r, known, KeysIn(s)) && Cook(r) == t;
      OldKeyIsGone(r, known, w, s, e, i, m);
    }
  }

  /** Forward secrecy: the key of every message a party has sent or accepted is gone from its state. */
  lemma SentAndAcceptedKeysAreGone(w: World, p: Party, i: nat, m: nat, known: set<Secret>)
    requires Inv(w) && FromExchanges(w.sk) && StateOf(w, p).nSend < U32_MAX && !Derivable(w.sk, known)
    requires IsSent(w, i, m) && if FromPeer(EpochOf(w, p), i) then (i, m) in w.accepted else i <= EpochOf(w, p)
    ensures !DerivableFrom(KeyAt(ChainAt(w.sk, w.epochs, i), m), known, KeysIn(StateOf(w, p)))
  {
    var s, e := StateOf(w, p), EpochOf(w, p);
    assert FromPeer(e, i) ==> Passed(e, s.nRecv, i, m);
    if Stored(w, s, i, m) {
      StoredKey(w, s, e, i, m);
    }
    StateGivesAwayIff(w, p, i, m, known);
  }

  /** Without the responder's identity and the signed prekey, no other secrets give the handshake secret. */
  lemma OnePairIsEnough(spk: Secret, ikI: Secret, opk: Secret, ikR: Secret, ek: Secret, known: set<Secret>)
    requires spk !in known && ikR !in known
    ensures FromExchanges(HonestSecret(spk, ikI, opk, ikR, ek)) && !Derivable(HonestSecret(spk, ikI, opk, ikR, ek), known)
  {
    SecretDerivableIffPairsLeak(spk, ikI, opk, ikR, ek, known);
  }

  /**
   After every run of an honest conversation, a party's whole ratchet state, together with every other secret there is
   but two, leads to the key of no message that was accepted from its peer or sent by itself.
   */
  lemma EveryRunForgetsItsKeys(w: World, run: seq<RatchetRuns.Step>, p: Party, i: nat, m: nat, known: set<Secret>,
                               spk: Secret, ikI: Secret, opk: Secret, ikR: Secret, ek: Secret)
    requires Inv(w) && AllowedRun(w, run) && w.sk == HonestSecret(spk, ikI, opk, ikR, ek) && spk !in known && ikR !in known
    requires Shape(After(w, run)) && StateOf(After(w, run), p).nSend < U32_MAX
    requires var v := After(w, run);
             IsSent(v, i, m) && if FromPeer(EpochOf(v, p), i) then (i, m) in v.accepted else i <= EpochOf(v, p)
    ensures var v := After(w, run);
            !DerivableFrom(KeyAt(ChainAt(v.sk, v.epochs, i), m), known, KeysIn(StateOf(v, p)))
  {
    RunKeepsInv(w, run);
    OnePairIsEnough(spk, ikI, opk, ikR, ek, known);
    SentAndAcceptedKeysAreGone(After(w, run), p, i, m, known);
  }
}
