/**
 What every run of the two-party conversation keeps: the chains stay aligned, a message is accepted
 exactly when it is deliverable and yields what its sender encrypted, nothing is accepted twice, and a
 skipped key is lost only to the store's bound.
 */
module RatchetTheorems {
  import opened Wrappers
  import opened Integers
  import opened Crypto
  import opened SkippedKeyStore
  import opened Ratchets
  import opened RatchetRuns

  ghost predicate AllowedRun(w: World, run: seq<Step>)
    decreases |run|
  {
    run == [] || (Shape(w) && Allowed(w, run[0]) && AllowedRun(Next(w, run[0]), run[1..]))
  }

  ghost function After(w: World, run: seq<Step>): World
    requires AllowedRun(w, run)
    decreases |run|
  {
    if run == [] then w else After(Next(w, run[0]), run[1..])
  }

  lemma OneStepRun(w: World, s: Step)
    requires Shape(w) && Allowed(w, s)
    ensures AllowedRun(w, [s]) && After(w, [s]) == Next(w, s)
  {
    assert [s][1..] == [];
    assert AllowedRun(Next(w, s), []) && After(Next(w, s), []) == Next(w, s);
  }

  lemma TwoStepRun(w: World, s1: Step, s2: Step)
    requires Shape(w) && Allowed(w, s1) && Shape(Next(w, s1)) && Allowed(Next(w, s1), s2)
    ensures AllowedRun(w, [s1, s2]) && After(w, [s1, s2]) == Next(Next(w, s1), s2)
  {
    var v := Next(w, s1);
    assert [s1, s2][1..] == [s2];
    OneStepRun(v, s2);
  }

  /** `v` continues `w`: nothing is forgotten, and an epoch its owner has left says nothing more. */
  ghost predicate Continues(w: World, v: World)
    requires Shape(w) && Shape(v)
  {
    && Later(w, v)
    && w.accepted <= v.accepted
    && (forall i | 0 <= i && i + 2 < |w.epochs| :: v.sent[i] == w.sent[i])
  }

  lemma ContinuesFurther(u: World, v: World, w: World)
    requires Shape(u) && Shape(v) && Shape(w) && Continues(u, v) && Continues(v, w)
    ensures Continues(u, w)
  {
  }

  lemma StepKeepsInv(w: World, step: Step)
    requires Inv(w) && Allowed(w, step)
    ensures Inv(Next(w, step))
  {
    match step
    case Send(p, plaintext) => SendKeepsInv(w, p, plaintext);
    case Deliver(p, msg, newSecret) => DeliverKeepsInv(w, p, msg, newSecret);
  }

  lemma AcceptedContinues(w: World, p: Party, i: nat, n: nat, newSecret: Secret, v: World)
    requires Shape(w) && Shape(v) && AcceptedBy(w, p, i, n, newSecret, v)
    ensures Continues(w, v)
  {
  }

  lemma StepContinues(w: World, step: Step)
    requires Inv(w) && Allowed(w, step) && Shape(Next(w, step))
    ensures Continues(w, Next(w, step))
  {
    match step
    case Send(p, plaintext) => var v := SendEffect(w, p, plaintext);
    case Deliver(p, msg, newSecret) =>
      if Decrypted(StateOf(w, p), msg, newSecret).Ok? {
        var i, n, v := AcceptedDelivery(w, p, msg, newSecret);
        AcceptedContinues(w, p, i, n, newSecret, v);
      }
  }

  /** The alignment of both ratchets with the conversation survives every run. */
  lemma {:induction false} RunKeepsInv(w: World, run: seq<Step>)
    requires Inv(w) && AllowedRun(w, run)
    ensures Inv(After(w, run)) && Continues(w, After(w, run))
    decreases |run|
  {
    if run != [] {
      var next := Next(w, run[0]);
      StepKeepsInv(w, run[0]);
      RunKeepsInv(next, run[1..]);
      assert Continues(w, next) by {
        StepContinues(w, run[0]);
      }
      ContinuesFurther(w, next, After(w, run));
    }
  }

  /** One party is exactly one DH step behind the other, and the chain between them is one chain. */
  ghost predicate ChainsAgree(a: RatchetState, b: RatchetState, base: Term) {
    && a.rootKey == RootHalf(b.rootKey, SharedSecret(b.dhsSecret, a.dhsSecret))
    && a.dhr == Some(Of(b.dhsSecret)) && b.dhr != Some(Of(a.dhsSecret))
    && a.recvChain == Some(Advance(base, a.nRecv))
    && a.nRecv <= b.nSend
    && (b.nSend < U32_MAX ==> b.sendChain == Some(Advance(base, b.nSend)))
  }

  ghost predicate OneStepApart(w: World) {
    exists ahead: Party, base: Term :: ChainsAgree(StateOf(w, ahead), StateOf(w, Peer(ahead)), base)
  }

  lemma PartiesAgree(w: World, ahead: Party, e: nat)
    requires Shape(w) && e == |w.epochs| - 1 == EpochOf(w, ahead)
    requires Aligned(w, StateOf(w, ahead), e) && Aligned(w, StateOf(w, Peer(ahead)), e - 1)
    ensures ChainsAgree(StateOf(w, ahead), StateOf(w, Peer(ahead)), ChainAt(w.sk, w.epochs, e - 1))
  {
  }

  /**
   At any moment of any run one party is exactly one DH step behind the other. They agree on the root
   key at the shared step, the party ahead holds the other's key, and its receiving chain is the other's
   sending chain `n_recv` steps from the start, never further than the other has sent.
   */
  lemma ChainsStayAligned(w: World, run: seq<Step>)
    requires Inv(w) && AllowedRun(w, run)
    ensures OneStepApart(After(w, run))
  {
    RunKeepsInv(w, run);
    InvKeepsAgreement(After(w, run));
  }

  lemma InvKeepsAgreement(w: World)
    requires Inv(w)
    ensures OneStepApart(w)
  {
    if EpochOf(w, Initiator) == |w.epochs| - 1 {
      PartiesAgree(w, Initiator, |w.epochs| - 1);
    } else {
      PartiesAgree(w, Responder, |w.epochs| - 1);
    }
  }

  /**
   Acceptance is exact. Whatever the network puts on the wire, in any state a run reaches, `decrypt`
   succeeds if and only if the message is one the peer sent and it is deliverable.
   */
  lemma AcceptedIffDeliverable(w: World, run: seq<Step>, p: Party, msg: RatchetMessage, newSecret: Secret)
    requires Inv(w) && AllowedRun(w, run)
    requires Shape(After(w, run)) && NetworkCanSend(After(w, run), msg)
    ensures var v := After(w, run);
            Decrypted(StateOf(v, p), msg, newSecret).Ok?
            <==> exists i, n :: Deliverable(v, p, i, n) && msg == Genuine(v, i, n)
  {
    RunKeepsInv(w, run);
    AcceptedNowIffDeliverable(After(w, run), p, msg, newSecret);
  }

  lemma AcceptedNowIffDeliverable(w: World, p: Party, msg: RatchetMessage, newSecret: Secret)
    requires Shape(w) && AlignedParty(w, p) && NetworkCanSend(w, msg)
    ensures Decrypted(StateOf(w, p), msg, newSecret).Ok?
            <==> exists i, n :: Deliverable(w, p, i, n) && msg == Genuine(w, i, n)
  {
    if Decrypted(StateOf(w, p), msg, newSecret).Ok? {
      var i, n := AcceptsOnlyDeliverable(w, p, msg, newSecret);
    }
    if exists i, n :: Deliverable(w, p, i, n) && msg == Genuine(w, i, n) {
      var i, n :| Deliverable(w, p, i, n) && msg == Genuine(w, i, n);
      DeliverableIsAccepted(w, p, i, n, newSecret);
    }
  }

  /** Every accepted message yields exactly the plaintext its sender encrypted, and was not accepted before. */
  lemma AcceptedIsWhatWasSent(w: World, run: seq<Step>, p: Party, msg: RatchetMessage, newSecret: Secret)
    returns (i: nat, n: nat)
    requires Inv(w) && AllowedRun(w, run)
    requires Shape(After(w, run)) && NetworkCanSend(After(w, run), msg)
    requires Decrypted(StateOf(After(w, run), p), msg, newSecret).Ok?
    ensures var v := After(w, run);
            && IsSent(v, i, n) && FromPeer(EpochOf(v, p), i) && msg == Genuine(v, i, n)
            && Decrypted(StateOf(v, p), msg, newSecret).value.1 == v.sent[i][n]
            && (i, n) !in v.accepted
  {
    RunKeepsInv(w, run);
    i, n := AcceptsOnlyDeliverable(After(w, run), p, msg, newSecret);
  }

  lemma GenuineStays(w: World, v: World, i: nat, n: nat)
    requires Shape(w) && Shape(v) && Continues(w, v) && IsSent(w, i, n)
    ensures IsSent(v, i, n) && Genuine(v, i, n) == Genuine(w, i, n)
  {
    RootsStay(w.sk, w.epochs, v.epochs, i);
  }

  /** In a state where it has been accepted, a message is refused. */
  lemma AcceptedIsRefused(w: World, p: Party, i: nat, n: nat, newSecret: Secret)
    requires Inv(w) && IsSent(w, i, n) && (i, n) in w.accepted
    ensures Decrypted(StateOf(w, p), Genuine(w, i, n), newSecret).Err?
  {
    var msg := Genuine(w, i, n);
    if Decrypted(StateOf(w, p), msg, newSecret).Ok? {
      assert NetworkCanSend(w, msg);
      var j, m := AcceptsOnlyDeliverable(w, p, msg, newSecret);
      GenuineIsUnique(w, i, n, j, m);
    }
  }

  lemma GenuineIsUnique(w: World, i: nat, n: nat, j: nat, m: nat)
    requires Shape(w) && IsSent(w, i, n) && IsSent(w, j, m) && Genuine(w, i, n) == Genuine(w, j, m)
    ensures i == j && n == m
  {
    assert Genuine(w, i, n).header.dh == Of(w.epochs[i]) && Genuine(w, j, m).header.dh == Of(w.epochs[j]);
  }

  /**
   At most once. After a message has been accepted, no continuation of any length reaches a state in
   which either party accepts it again.
   */
  lemma AcceptedAtMostOnce(w: World, p: Party, msg: RatchetMessage, first: Secret, run: seq<Step>, q: Party, second: Secret)
    requires Inv(w) && Allowed(w, Deliver(p, msg, first)) && Decrypted(StateOf(w, p), msg, first).Ok?
    requires AllowedRun(Next(w, Deliver(p, msg, first)), run)
    ensures Decrypted(StateOf(After(Next(w, Deliver(p, msg, first)), run), q), msg, second).Err?
  {
    StepKeepsInv(w, Deliver(p, msg, first));
    var i, n, v := AcceptedDelivery(w, p, msg, first);
    assert IsSent(v, i, n) && Genuine(v, i, n) == msg by {
      StepContinues(w, Deliver(p, msg, first));
      GenuineStays(w, v, i, n);
    }
    RunKeepsInv(v, run);
    GenuineStays(v, After(v, run), i, n);
    AcceptedIsRefused(After(v, run), q, i, n, second);
  }

  // ---- what the bounded store costs ----

  /** A message the party has gone past, has not accepted, and no longer holds a key for. */
  ghost predicate Lost(w: World, p: Party, i: nat, n: nat)
    requires Shape(w)
  {
    && IsSent(w, i, n)
    && Passed(EpochOf(w, p), StateOf(w, p).nRecv, i, n)
    && (i, n) !in w.accepted
    && !Stored(w, StateOf(w, p), i, n)
  }

  ghost predicate NothingLost(w: World)
    requires Shape(w)
  {
    forall p, i, n :: !Lost(w, p, i, n)
  }

  /** How many counters accepting this message passes over. */
  function CountersPassed(s: RatchetState, header: Header): nat {
    if (header.dh, header.n) in s.skipped.byId then 0
    else if s.dhr == Some(header.dh) then Reached(s, header.n) - s.nRecv
    else (if s.recvChain == None then 0 else Reached(s, header.pn) - s.nRecv) + header.n
  }

  /** The store has room for every key this step would put into it. */
  predicate HasRoom(w: World, step: Step) {
    step.Deliver? ==>
      var s := StateOf(w, step.to);
      |s.skipped.order| + CountersPassed(s, step.msg.header) <= MAX_SKIPPED_KEYS
  }

  /** The room a party needs to accept message `n` of epoch `i`. */
  ghost predicate RoomFor(w: World, s: RatchetState, i: nat, n: nat)
    requires Shape(w) && IsSent(w, i, n)
  {
    |s.skipped.order| + CountersPassed(s, Genuine(w, i, n).header) <= MAX_SKIPPED_KEYS
  }

  ghost predicate Held(store: Store, dh: PublicKey, m: nat) {
    m <= U32_MAX && (dh, m) in store.byId
  }

  /**
   Going on to message `n` of epoch `i` keeps every key held and holds those of the counters passed: the
   rest of the current chain too, when the message opens the peer's next epoch.
   */
  ghost predicate KeepsGaps(w: World, e: nat, nRecv: nat, i: nat, n: nat, store: Store, after: Store)
    requires 1 <= e < |w.epochs| && i < |w.epochs| && |w.sent| == |w.epochs|
  {
    if i == e + 1 then exists closed :: ClosesAndOpens(w, e, nRecv, n, store, closed, after)
    else KeptAll(store, after, Of(w.epochs[e - 1]), nRecv, n)
  }

  ghost predicate ClosesAndOpens(w: World, e: nat, nRecv: nat, n: nat, store: Store, closed: Store, after: Store)
    requires 1 <= e && e + 1 < |w.epochs| == |w.sent|
  {
    && (2 <= e ==> KeptAll(store, closed, Of(w.epochs[e - 1]), nRecv, |w.sent[e - 1]|))
    && (forall id: KeyId | id in store.byId :: id in closed.byId)
    && KeptAll(closed, after, Of(w.epochs[e + 1]), 0, n)
  }

  lemma CurrentKeeps(w: World, s: RatchetState, e: nat, i: nat, n: nat, newSecret: Secret, t: RatchetState)
    requires Shape(w) && Aligned(w, s, e) && |w.epochs| <= e + 2 && i + 1 == e
    requires DeliverableTo(w, s, e, i, n) && !Passed(e, s.nRecv, i, n) && RoomFor(w, s, i, n)
    requires Positioned(s, Genuine(w, i, n).header, newSecret) == Ok(t)
    ensures KeepsGaps(w, e, s.nRecv, i, n, s.skipped, t.skipped)
  {
    if Stored(w, s, i, n) {
      StoredKey(w, s, e, i, n);
    }
    SkippedToEffect(s, ChainAt(w.sk, w.epochs, i), n);
  }

  /** Turning to a new key keeps what was held and holds what it passes, in both chains. */
  lemma StepKeeps(s: RatchetState, base: Term, header: Header, newSecret: Secret) returns (closed: Store)
    requires s.dhr.Some? && s.dhr != Some(header.dh) && header.dh.Of? && s.skipped.Valid()
    requires s.recvChain == None || s.recvChain == Some(Advance(base, s.nRecv))
    requires Positioned(s, header, newSecret).Ok? && (header.dh, header.n) !in s.skipped.byId
    requires |s.skipped.order| + CountersPassed(s, header) <= MAX_SKIPPED_KEYS
    ensures KeptAll(s.skipped, closed, s.dhr.value, s.nRecv, if s.recvChain == None then s.nRecv else Reached(s, header.pn))
    ensures KeptAll(closed, Positioned(s, header, newSecret).value.skipped, header.dh, 0, header.n)
  {
    closed := StepEffect(s, base, header, newSecret);
  }

  lemma NextKeeps(w: World, s: RatchetState, e: nat, i: nat, n: nat, newSecret: Secret, t: RatchetState)
    requires Shape(w) && Aligned(w, s, e) && |w.epochs| == e + 2 && i == e + 1
    requires IsSent(w, i, n) && RoomFor(w, s, i, n)
    requires Positioned(s, Genuine(w, i, n).header, newSecret) == Ok(t)
    ensures KeepsGaps(w, e, s.nRecv, i, n, s.skipped, t.skipped)
  {
    NextNotStored(w, s, e, n);
    var closed := StepKeeps(s, BaseAt(w, e), Genuine(w, i, n).header, newSecret);
    assert ClosesAndOpens(w, e, s.nRecv, n, s.skipped, closed, t.skipped);
  }

  lemma NextNotStored(w: World, s: RatchetState, e: nat, n: nat)
    requires Shape(w) && Aligned(w, s, e) && IsSent(w, e + 1, n)
    ensures !Held(s.skipped, Of(w.epochs[e + 1]), n)
  {
    if Stored(w, s, e + 1, n) {
      StoredKey(w, s, e, e + 1, n);
    }
  }

  lemma BystanderLosesNothing(w: World, v: World, p: Party, i: nat, n: nat)
    requires Shape(w) && Shape(v) && Continues(w, v) && AlignedParty(w, p)
    requires EpochOf(v, p) == EpochOf(w, p)
    requires StateOf(v, p).nRecv == StateOf(w, p).nRecv && StateOf(v, p).skipped == StateOf(w, p).skipped
    requires Lost(v, p, i, n)
    ensures Lost(w, p, i, n)
  {
    var e := EpochOf(w, p);
    if i < e - 1 {
      assert v.sent[i] == w.sent[i];
    }
  }

  /** The counters behind message `n` of the current epoch: those passed before, and those in between. */
  lemma CurrentCounters(e: nat, nRecv: nat, n: nat, j: nat, m: nat)
    requires Passed(e, n + 1, j, m) && (j, m) != (e - 1, n)
    ensures Passed(e, nRecv, j, m) || (j == e - 1 && nRecv <= m < n)
  {
  }

  /** The counters behind message `n` of epoch `e + 1`: earlier ones of that epoch, and all of those before. */
  lemma OpenCounters(e: nat, nRecv: nat, n: nat, j: nat, m: nat)
    requires Passed(e + 2, n + 1, j, m) && (j, m) != (e + 1, n)
    ensures (j == e + 1 && m < n) || Passed(e, nRecv, j, m) || (j == e - 1 && 2 <= e && nRecv <= m)
  {
  }

  /** Taking one message's key out of a store leaves the keys of all others. */
  lemma OthersStayHeld(w: World, store: Store, i: nat, n: nat, j: nat, m: nat)
    requires Shape(w) && i < |w.epochs| && j < |w.epochs| && (i, n) != (j, m)
    requires Held(store, Of(w.epochs[i]), n) && Held(store, Of(w.epochs[j]), m)
    ensures Held(Taken(store, (Of(w.epochs[i]), n)).value.1, Of(w.epochs[j]), m)
  {
  }

  lemma StoredLosesNothing(w: World, p: Party, i: nat, n: nat, v: World, j: nat, m: nat)
    requires Shape(w) && Shape(v) && IsSent(w, i, n) && Stored(w, StateOf(w, p), i, n)
    requires v == w.(accepted := w.accepted + {(i, n)}, initiator := v.initiator, responder := v.responder)
    requires var s := StateOf(w, p); StateOf(v, p) == s.(skipped := Taken(s.skipped, (Of(w.epochs[i]), n)).value.1)
    requires !Lost(w, p, j, m)
    ensures !Lost(v, p, j, m)
  {
    if Lost(v, p, j, m) {
      assert Stored(w, StateOf(w, p), j, m);
      OthersStayHeld(w, StateOf(w, p).skipped, i, n, j, m);
    }
  }

  /** Accepting message `n` of epoch `i` takes the party past message `m` of epoch `j`, another that is still wanted. */
  ghost predicate GoesPast(w: World, e: nat, i: nat, n: nat, j: nat, m: nat)
    requires Shape(w)
  {
    && IsSent(w, j, m) && (j, m) != (i, n) && (j, m) !in w.accepted
    && Passed(if i == e + 1 then e + 2 else e, n + 1, j, m)
  }

  /** If each message gone past is held, none is lost. */
  lemma HeldIsNotLost(w: World, p: Party, i: nat, n: nat, newSecret: Secret, v: World, j: nat, m: nat)
    requires Shape(w) && Shape(v) && AcceptedBy(w, p, i, n, newSecret, v) && IsSent(w, i, n)
    requires FromPeer(EpochOf(w, p), i) && StateOf(v, p).nRecv == n + 1
    requires GoesPast(w, EpochOf(w, p), i, n, j, m) ==> Held(StateOf(v, p).skipped, Of(w.epochs[j]), m)
    ensures !Lost(v, p, j, m)
  {
    if Lost(v, p, j, m) {
      assert IsSent(w, j, m) && (j, m) !in w.accepted;
    }
  }

  lemma AheadKeeps(w: World, p: Party, i: nat, n: nat, newSecret: Secret, t: RatchetState)
    requires Shape(w) && AlignedParty(w, p) && Deliverable(w, p, i, n) && RoomFor(w, StateOf(w, p), i, n)
    requires var e := EpochOf(w, p); if i == e + 1 then |w.epochs| == e + 2 else i + 1 == e
    requires !Passed(EpochOf(w, p), StateOf(w, p).nRecv, i, n)
    requires Positioned(StateOf(w, p), Genuine(w, i, n).header, newSecret) == Ok(t)
    ensures KeepsGaps(w, EpochOf(w, p), StateOf(w, p).nRecv, i, n, StateOf(w, p).skipped, t.skipped)
  {
    if i == EpochOf(w, p) + 1 {
      NextKeeps(w, StateOf(w, p), EpochOf(w, p), i, n, newSecret, t);
    } else {
      CurrentKeeps(w, StateOf(w, p), EpochOf(w, p), i, n, newSecret, t);
    }
  }

  lemma GonePastIsHeld(w: World, e: nat, nRecv: nat, i: nat, n: nat, store: Store, after: Store, j: nat, m: nat)
    requires Shape(w) && 1 <= e < |w.epochs| && IsSent(w, i, n) && (i == e + 1 || i + 1 == e)
    requires KeepsGaps(w, e, nRecv, i, n, store, after) && GoesPast(w, e, i, n, j, m)
    requires Passed(e, nRecv, j, m) ==> Held(store, Of(w.epochs[j]), m)
    ensures Held(after, Of(w.epochs[j]), m)
  {
    var id: KeyId := (Of(w.epochs[j]), m);
    if i == e + 1 {
      OpenCounters(e, nRecv, n, j, m);
      var closed :| ClosesAndOpens(w, e, nRecv, n, store, closed, after);
      assert id in closed.byId || (j == e + 1 && m < n);
    } else {
      CurrentCounters(e, nRecv, n, j, m);
    }
  }

  lemma AheadLosesNothing(w: World, p: Party, i: nat, n: nat, newSecret: Secret, v: World, j: nat, m: nat)
    requires Shape(w) && Shape(v) && IsSent(w, i, n) && FromPeer(EpochOf(w, p), i)
    requires i == EpochOf(w, p) + 1 || i + 1 == EpochOf(w, p)
    requires AcceptedBy(w, p, i, n, newSecret, v) && StateOf(v, p).nRecv == n + 1
    requires KeepsGaps(w, EpochOf(w, p), StateOf(w, p).nRecv, i, n, StateOf(w, p).skipped, StateOf(v, p).skipped)
    requires !Lost(w, p, j, m)
    ensures !Lost(v, p, j, m)
  {
    if GoesPast(w, EpochOf(w, p), i, n, j, m) {
      GonePastIsHeld(w, EpochOf(w, p), StateOf(w, p).nRecv, i, n, StateOf(w, p).skipped, StateOf(v, p).skipped, j, m);
    }
    HeldIsNotLost(w, p, i, n, newSecret, v, j, m);
  }

  lemma ReceiverLosesNothing(w: World, p: Party, i: nat, n: nat, newSecret: Secret, v: World, j: nat, m: nat)
    requires Shape(w) && Shape(v) && AlignedParty(w, p) && Deliverable(w, p, i, n) && RoomFor(w, StateOf(w, p), i, n)
    requires newSecret !in w.epochs && !Lost(w, p, j, m)
    requires v == Next(w, Deliver(p, Genuine(w, i, n), newSecret)) && AcceptedBy(w, p, i, n, newSecret, v)
    ensures !Lost(v, p, j, m)
  {
    if Stored(w, StateOf(w, p), i, n) {
      var u := StoredWorld(w, p, i, n, newSecret);
      StoredLosesNothing(w, p, i, n, v, j, m);
    } else {
      var u, t := AheadWorld(w, p, i, n, newSecret);
      AheadKeeps(w, p, i, n, newSecret, t);
      AheadLosesNothing(w, p, i, n, newSecret, v, j, m);
    }
  }

  lemma SendLosesNothing(w: World, p: Party, plaintext: seq<byte>, v: World)
    requires Inv(w) && NothingLost(w) && Shape(v) && v == Next(w, Send(p, plaintext))
    ensures NothingLost(v)
  {
    StepContinues(w, Send(p, plaintext));
    forall q, j, m ensures !Lost(v, q, j, m) {
      assert !Lost(w, q, j, m);
      SendReceivesNothing(w, p, plaintext, v, q);
      SendLosesNoOne(w, v, q, j, m);
    }
  }

  /** A send leaves both parties' epochs, receiving counters and stores as they were. */
  lemma SendReceivesNothing(w: World, p: Party, plaintext: seq<byte>, v: World, q: Party)
    requires Inv(w) && v == Next(w, Send(p, plaintext))
    ensures v.epochs == w.epochs
    ensures StateOf(v, q).nRecv == StateOf(w, q).nRecv && StateOf(v, q).skipped == StateOf(w, q).skipped
  {
  }

  lemma SendLosesNoOne(w: World, v: World, q: Party, j: nat, m: nat)
    requires Shape(w) && Shape(v) && AlignedParty(w, q) && Continues(w, v) && v.epochs == w.epochs
    requires StateOf(v, q).nRecv == StateOf(w, q).nRecv && StateOf(v, q).skipped == StateOf(w, q).skipped
    requires !Lost(w, q, j, m)
    ensures !Lost(v, q, j, m)
  {
    if Lost(v, q, j, m) {
      BystanderLosesNothing(w, v, q, j, m);
    }
  }

  lemma PeerLosesNothing(w: World, p: Party, i: nat, n: nat, newSecret: Secret, v: World, j: nat, m: nat)
    requires Shape(w) && Shape(v) && AlignedParty(w, Peer(p)) && Continues(w, v)
    requires IsSent(w, i, n) && FromPeer(EpochOf(w, p), i)
    requires AcceptedBy(w, p, i, n, newSecret, v) && !Lost(w, Peer(p), j, m)
    ensures !Lost(v, Peer(p), j, m)
  {
    if Lost(v, Peer(p), j, m) {
      PeerKeepsItsEpoch(w, p, i, n, newSecret, v);
      BystanderLosesNothing(w, v, Peer(p), j, m);
    }
  }

  lemma DeliverLosesNothing(w: World, p: Party, msg: RatchetMessage, newSecret: Secret, v: World)
    requires Inv(w) && NothingLost(w) && Allowed(w, Deliver(p, msg, newSecret)) && HasRoom(w, Deliver(p, msg, newSecret))
    requires Shape(v) && v == Next(w, Deliver(p, msg, newSecret)) && Decrypted(StateOf(w, p), msg, newSecret).Ok?
    ensures NothingLost(v)
  {
    StepContinues(w, Deliver(p, msg, newSecret));
    var i, n, u := AcceptedDelivery(w, p, msg, newSecret);
    forall q, j, m ensures !Lost(v, q, j, m) {
      assert !Lost(w, q, j, m);
      AcceptanceLosesNoOne(w, p, i, n, newSecret, v, q, j, m);
    }
  }

  lemma AcceptanceLosesNoOne(w: World, p: Party, i: nat, n: nat, newSecret: Secret, v: World, q: Party, j: nat, m: nat)
    requires Shape(w) && Shape(v) && AlignedParty(w, p) && AlignedParty(w, Peer(p)) && Continues(w, v)
    requires Deliverable(w, p, i, n) && RoomFor(w, StateOf(w, p), i, n) && newSecret !in w.epochs
    requires v == Next(w, Deliver(p, Genuine(w, i, n), newSecret)) && AcceptedBy(w, p, i, n, newSecret, v)
    requires !Lost(w, q, j, m)
    ensures !Lost(v, q, j, m)
  {
    if q == p {
      ReceiverLosesNothing(w, p, i, n, newSecret, v, j, m);
    } else {
      PeerLosesNothing(w, p, i, n, newSecret, v, j, m);
    }
  }

  /** With room in the store, a step loses no skipped key. */
  lemma RoomLosesNothing(w: World, step: Step)
    requires Inv(w) && Allowed(w, step) && HasRoom(w, step) && NothingLost(w) && Shape(Next(w, step))
    ensures NothingLost(Next(w, step))
  {
    match step
    case Send(p, plaintext) => SendLosesNothing(w, p, plaintext, Next(w, step));
    case Deliver(p, msg, newSecret) =>
      if Decrypted(StateOf(w, p), msg, newSecret).Ok? {
        DeliverLosesNothing(w, p, msg, newSecret, Next(w, step));
      }
  }

  /** Every step of the run leaves room for the keys it passes over. */
  ghost predicate RoomyRun(w: World, run: seq<Step>)
    requires AllowedRun(w, run)
    decreases |run|
  {
    run == [] || (HasRoom(w, run[0]) && RoomyRun(Next(w, run[0]), run[1..]))
  }

  lemma {:induction false} RoomyRunLosesNothing(w: World, run: seq<Step>)
    requires Inv(w) && AllowedRun(w, run) && RoomyRun(w, run) && NothingLost(w)
    ensures Shape(After(w, run)) && NothingLost(After(w, run))
    decreases |run|
  {
    if run != [] {
      StepKeepsInv(w, run[0]);
      RoomLosesNothing(w, run[0]);
      RoomyRunLosesNothing(Next(w, run[0]), run[1..]);
    }
  }

  /** How far ahead of its position a party may still be asked to go. */
  ghost predicate WithinSkip(w: World, s: RatchetState, e: nat, i: nat, n: nat)
    requires 1 <= e <= |w.sent|
  {
    && (i == e - 1 ==> n - s.nRecv <= MAX_SKIP)
    && (i > e ==> n <= MAX_SKIP && (e == 1 || |w.sent[e - 1]| - s.nRecv <= MAX_SKIP))
  }

  lemma UnlostIsDeliverable(w: World, p: Party, i: nat, n: nat)
    requires Shape(w) && AlignedParty(w, p) && IsSent(w, i, n) && !Lost(w, p, i, n)
    requires FromPeer(EpochOf(w, p), i) && (i, n) !in w.accepted && WithinSkip(w, StateOf(w, p), EpochOf(w, p), i, n)
    ensures Deliverable(w, p, i, n)
  {
  }

  lemma RoomyRunReaches(w: World, run: seq<Step>, p: Party, i: nat, n: nat)
    requires Inv(w) && NothingLost(w) && AllowedRun(w, run) && RoomyRun(w, run)
    ensures Shape(After(w, run)) && AlignedParty(After(w, run), p) && !Lost(After(w, run), p, i, n)
  {
    RunKeepsInv(w, run);
    RoomyRunLosesNothing(w, run);
  }

  /**
   Delivery in every run. As long as the store never overflowed, every message the peer sent and that has
   not been accepted yet decrypts to exactly what was encrypted, whatever was sent, delivered, reordered,
   dropped, replayed or forged before it, provided only that it is within the skip bound.
   */
  lemma UnacceptedIsDeliverable(w: World, run: seq<Step>, p: Party, i: nat, n: nat, newSecret: Secret)
    requires Inv(w) && NothingLost(w) && AllowedRun(w, run) && RoomyRun(w, run)
    requires Shape(After(w, run)) && IsSent(After(w, run), i, n)
    requires var v := After(w, run);
             && FromPeer(EpochOf(v, p), i) && (i, n) !in v.accepted
             && WithinSkip(v, StateOf(v, p), EpochOf(v, p), i, n)
    ensures var v := After(w, run);
            && Decrypted(StateOf(v, p), Genuine(v, i, n), newSecret).Ok?
            && Decrypted(StateOf(v, p), Genuine(v, i, n), newSecret).value.1 == v.sent[i][n]
  {
    var v := After(w, run);
    RoomyRunReaches(w, run, p, i, n);
    UnlostIsDeliverable(v, p, i, n);
    DeliverableIsAccepted(v, p, i, n, newSecret);
  }

  /** When nothing was lost, the store holds exactly the keys of the counters passed over and not yet accepted. */
  lemma StoreIsExactlyTheGaps(w: World, run: seq<Step>, p: Party, i: nat, n: nat)
    requires Inv(w) && NothingLost(w) && AllowedRun(w, run) && RoomyRun(w, run)
    requires Shape(After(w, run)) && IsSent(After(w, run), i, n)
    ensures var v := After(w, run);
            Stored(v, StateOf(v, p), i, n)
            <==> Passed(EpochOf(v, p), StateOf(v, p).nRecv, i, n) && (i, n) !in v.accepted
  {
    RoomyRunReaches(w, run, p, i, n);
    UnlostIsStored(After(w, run), p, i, n);
  }

  lemma UnlostIsStored(w: World, p: Party, i: nat, n: nat)
    requires Shape(w) && AlignedParty(w, p) && IsSent(w, i, n) && !Lost(w, p, i, n)
    ensures Stored(w, StateOf(w, p), i, n)
            <==> Passed(EpochOf(w, p), StateOf(w, p).nRecv, i, n) && (i, n) !in w.accepted
  {
    if Stored(w, StateOf(w, p), i, n) {
      StoredKey(w, StateOf(w, p), EpochOf(w, p), i, n);
    }
  }
}
