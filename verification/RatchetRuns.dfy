/**
 Two parties, one hostile network. After the handshake either side may send at any time; a message may
 be delivered to either party at any moment, out of order, twice, never, with its header altered, or be
 made up altogether. The theorems at the end say what every such run keeps.
 */
module RatchetRuns {
  import opened Wrappers
  import opened Integers
  import opened Padding
  import opened Crypto
  import opened SkippedKeyStore
  import opened Ratchets

  datatype Party = Initiator | Responder

  /**
   `epochs[i]` is the i-th ratchet secret of the conversation: even ones are the initiator's, odd ones
   the responder's. `sent[i]` lists what its owner encrypted under it, and `accepted` the (epoch,
   counter) pairs some party has decrypted.
   */
  datatype World = World(
    sk: Term,
    epochs: seq<Secret>,
    sent: seq<seq<seq<byte>>>,
    initiator: RatchetState,
    responder: RatchetState,
    accepted: set<(nat, nat)>)

  function StateOf(w: World, p: Party): RatchetState {
    if p.Initiator? then w.initiator else w.responder
  }

  /** The epoch a party sends in: one of the last two, told apart by parity. */
  function EpochOf(w: World, p: Party): nat
    requires |w.epochs| >= 2
  {
    var last := |w.epochs| - 1;
    if (last % 2 == 0) == p.Initiator? then last else last - 1
  }

  function RootAt(sk: Term, epochs: seq<Secret>, i: nat): Term
    requires i < |epochs|
  {
    if i == 0 then sk else RootHalf(RootAt(sk, epochs, i - 1), SharedSecret(epochs[i - 1], epochs[i]))
  }

  /** The chain the owner of epoch `i` sends on. */
  function ChainAt(sk: Term, epochs: seq<Secret>, i: nat): Term
    requires 1 <= i < |epochs|
  {
    ChainHalf(RootAt(sk, epochs, i - 1), SharedSecret(epochs[i - 1], epochs[i]))
  }

  ghost predicate Shape(w: World) {
    && w.sk.X3dhSecret?
    && |w.epochs| >= 3
    && |w.sent| == |w.epochs|
    && (forall i, j | 0 <= i < j < |w.epochs| :: w.epochs[i] != w.epochs[j])
    && w.sent[0] == []
    && (forall i | 0 <= i < |w.sent| :: |w.sent[i]| <= U32_MAX)
  }

  ghost predicate IsSent(w: World, i: nat, n: nat)
    requires Shape(w)
  {
    1 <= i < |w.epochs| && n < |w.sent[i]|
  }

  /** The message that carried the n-th plaintext of epoch `i`. */
  ghost function Genuine(w: World, i: nat, n: nat): RatchetMessage
    requires Shape(w) && IsSent(w, i, n)
  {
    var header := Header(Of(w.epochs[i]), if i >= 2 then |w.sent[i - 2]| else 0, n);
    RatchetMessage(header, Seal(KeyAt(ChainAt(w.sk, w.epochs, i), n), header, w.sent[i][n]))
  }

  /** True of the epochs a party in epoch `e` receives on. */
  predicate FromPeer(e: nat, i: nat) {
    (e - i) % 2 == 1
  }

  /** A party in epoch `e` whose current receiving counter is `nRecv` has gone past message `n` of epoch `i`. */
  predicate Passed(e: nat, nRecv: nat, i: nat, n: nat) {
    1 <= i < e && FromPeer(e, i) && (i == e - 1 ==> n < nRecv)
  }

  /** One entry of a skipped-key store, read as the key of message `id.1` of epoch `i`. */
  ghost predicate Entry(w: World, e: nat, nRecv: nat, id: KeyId, key: Term, i: nat)
    requires Shape(w) && e < |w.epochs|
  {
    && Passed(e, nRecv, i, id.1)
    && id.0 == Of(w.epochs[i])
    && id.1 < |w.sent[i]|
    && (i, id.1) !in w.accepted
    && key == KeyAt(ChainAt(w.sk, w.epochs, i), id.1)
  }

  ghost predicate HasEntry(w: World, e: nat, nRecv: nat, id: KeyId, key: Term)
    requires Shape(w) && e < |w.epochs|
  {
    exists i: nat :: Entry(w, e, nRecv, id, key, i)
  }

  ghost predicate StoreAligned(w: World, store: Store, e: nat, nRecv: nat)
    requires Shape(w) && e < |w.epochs|
  {
    && store.Valid()
    && forall it | it in store.byId.Items :: HasEntry(w, e, nRecv, it.0, it.1)
  }

  lemma EntryOf(w: World, store: Store, e: nat, nRecv: nat, id: KeyId) returns (i: nat)
    requires Shape(w) && e < |w.epochs| && StoreAligned(w, store, e, nRecv) && id in store.byId
    ensures Entry(w, e, nRecv, id, store.byId[id], i)
  {
    assert (id, store.byId[id]) in store.byId.Items;
    i :| Entry(w, e, nRecv, id, store.byId[id], i);
  }

  /** A party's ratchet, read off the conversation: every field is what epoch `e` makes it. */
  ghost predicate Aligned(w: World, s: RatchetState, e: nat)
    requires Shape(w)
  {
    && 1 <= e < |w.epochs|
    && s.rootKey == RootAt(w.sk, w.epochs, e)
    && s.dhsSecret == w.epochs[e]
    && s.dhr == Some(Of(w.epochs[e - 1]))
    && s.nSend == |w.sent[e]|
    && s.prevChainLen == (if e >= 2 then |w.sent[e - 2]| else 0)
    && s.sendChain.Some?
    && (s.nSend < U32_MAX ==> s.sendChain.value == Advance(ChainAt(w.sk, w.epochs, e), s.nSend))
    && s.nRecv <= |w.sent[e - 1]|
    && s.recvChain == (if e == 1 then None else Some(Advance(ChainAt(w.sk, w.epochs, e - 1), s.nRecv)))
    && StoreAligned(w, s.skipped, e, s.nRecv)
    && (forall a | a in w.accepted && FromPeer(e, a.0) :: Passed(e, s.nRecv, a.0, a.1) && a.1 < |w.sent[a.0]|)
  }

  ghost predicate AlignedParty(w: World, p: Party)
    requires Shape(w)
  {
    && Aligned(w, StateOf(w, p), EpochOf(w, p))
    && (forall a | a in w.accepted :: 1 <= a.0 < |w.epochs|)
  }

  ghost predicate Inv(w: World) {
    Shape(w) && AlignedParty(w, Initiator) && AlignedParty(w, Responder)
  }

  ghost predicate Stored(w: World, s: RatchetState, i: nat, n: nat)
    requires i < |w.epochs|
  {
    n <= U32_MAX && (Of(w.epochs[i]), n) in s.skipped.byId
  }

  /**
   Whether a party in state `s` and epoch `e` would accept message `n` of epoch `i` now: its skipped key
   is still held, or it lies ahead on the current chain, or it opens the peer's next epoch, in each case
   within the skip bound.
   */
  ghost predicate DeliverableTo(w: World, s: RatchetState, e: nat, i: nat, n: nat)
    requires Shape(w) && 1 <= e < |w.epochs|
  {
    && IsSent(w, i, n)
    && FromPeer(e, i)
    && if Passed(e, s.nRecv, i, n) then Stored(w, s, i, n)
       else if i == e - 1 then n - s.nRecv <= MAX_SKIP
       else n <= MAX_SKIP && (e == 1 || |w.sent[e - 1]| - s.nRecv <= MAX_SKIP)
  }

  ghost predicate Deliverable(w: World, p: Party, i: nat, n: nat)
    requires Shape(w)
  {
    DeliverableTo(w, StateOf(w, p), EpochOf(w, p), i, n)
  }

  // ---- what the network may do ----

  /** Keys that only somebody who holds the handshake secret can derive. */
  predicate Rooted(t: Term, sk: Term) {
    t == sk ||
    match t
    case RootHalf(r, _) => Rooted(r, sk)
    case ChainHalf(r, _) => Rooted(r, sk)
    case NextChain(c) => Rooted(c, sk)
    case MessageKey(c) => Rooted(c, sk)
    case _ => false
  }

  /**
   A network without the handshake secret may put any header on any ciphertext, but a ciphertext under
   one of the session's keys can only be one that was sent.
   */
  ghost predicate NetworkCanSend(w: World, msg: RatchetMessage)
    requires Shape(w)
  {
    msg.ct.Sealed? && Rooted(msg.ct.key, w.sk) ==>
      exists i, n :: IsSent(w, i, n) && msg.ct == Genuine(w, i, n).ct
  }

  datatype Step =
    | Send(from: Party, plaintext: seq<byte>)
    | Deliver(to: Party, msg: RatchetMessage, newSecret: Secret)

  ghost predicate Allowed(w: World, step: Step)
    requires Shape(w)
  {
    step.Deliver? ==> NetworkCanSend(w, step.msg) && step.newSecret !in w.epochs
  }

  function WithState(w: World, p: Party, s: RatchetState): World {
    if p.Initiator? then w.(initiator := s) else w.(responder := s)
  }

  /** The epoch whose key a header names, if the conversation has one. */
  ghost function EpochNamed(w: World, dh: PublicKey): Option<nat> {
    if exists i: nat :: i < |w.epochs| && Of(w.epochs[i]) == dh
    then var i: nat :| i < |w.epochs| && Of(w.epochs[i]) == dh; Some(i)
    else None
  }

  /** What one step does. Sending appends to the sender's epoch; accepting records which message it was. */
  ghost function Next(w: World, step: Step): World
    requires Shape(w)
  {
    match step
    case Send(p, plaintext) =>
      (var (s, r) := Encrypted(StateOf(w, p), plaintext);
       var e := EpochOf(w, p);
       WithState(if r.Ok? then w.(sent := w.sent[e := w.sent[e] + [plaintext]]) else w, p, s))
    case Deliver(p, msg, newSecret) =>
      match Decrypted(StateOf(w, p), msg, newSecret)
      case Err(_) => w
      case Ok((s, _)) =>
        var i := EpochNamed(w, msg.header.dh);
        var w1 := w.(accepted := w.accepted + (if i.Some? then {(i.value, msg.header.n)} else {}));
        // a party that opened a new epoch publishes its new key under it
        var w2 := if s.dhsSecret == StateOf(w, p).dhsSecret then w1
                  else w1.(epochs := w.epochs + [newSecret], sent := w.sent + [[]]);
        WithState(w2, p, s)
  }

  // ---- facts about keys ----

  lemma {:induction false} RootsDiffer(sk: Term, epochs: seq<Secret>, i: nat, j: nat)
    requires sk.X3dhSecret? && i < |epochs| && j < |epochs|
    requires RootAt(sk, epochs, i) == RootAt(sk, epochs, j)
    ensures i == j
  {
    if i > 0 && j > 0 {
      RootsDiffer(sk, epochs, i - 1, j - 1);
    }
  }

  lemma {:induction false} RootsStay(sk: Term, a: seq<Secret>, b: seq<Secret>, i: nat)
    requires i < |a| && a <= b
    ensures RootAt(sk, a, i) == RootAt(sk, b, i)
    ensures i >= 1 ==> ChainAt(sk, a, i) == ChainAt(sk, b, i)
  {
    if i > 0 {
      RootsStay(sk, a, b, i - 1);
    }
  }

  lemma {:induction false} RootIsRooted(sk: Term, epochs: seq<Secret>, i: nat)
    requires i < |epochs|
    ensures Rooted(RootAt(sk, epochs, i), sk)
  {
    if i > 0 {
      RootIsRooted(sk, epochs, i - 1);
    }
  }

  lemma {:induction false} KeyIsRooted(sk: Term, root: Term, dh: Term, n: nat)
    requires Rooted(root, sk)
    ensures Rooted(Advance(ChainHalf(root, dh), n), sk) && Rooted(KeyAt(ChainHalf(root, dh), n), sk)
  {
    if n > 0 {
      KeyIsRooted(sk, root, dh, n - 1);
    }
  }

  lemma KeysDiffer(c: Term, d: Term, j: nat, k: nat)
    requires c.ChainHalf? && d.ChainHalf? && KeyAt(c, j) == KeyAt(d, k)
    ensures c == d && j == k
  {
    AdvanceInjective(c, d, j, k);
  }

  // ---- facts about skipping ----

  /** Everything in store `t` was in `s`, or is a key of this chain for a counter in the range. */
  ghost predicate GrewBy(s: Store, t: Store, dhr: PublicKey, base: Term, from: nat, to: nat) {
    forall id: KeyId | id in t.byId ::
      || (id in s.byId && t.byId[id] == s.byId[id])
      || (id.0 == dhr && from <= id.1 < to && t.byId[id] == KeyAt(base, id.1))
  }

  /** Nothing fell out, and every counter in the range is there. */
  ghost predicate KeptAll(s: Store, t: Store, dhr: PublicKey, from: nat, to: nat) {
    && (forall id: KeyId | id in s.byId :: id in t.byId)
    && (forall n: u32 | from <= n < to :: (dhr, n) in t.byId)
  }

  lemma SkipOneGrows(s: RatchetState, base: Term)
    requires s.dhr.Some? && s.nRecv < U32_MAX && s.skipped.Valid()
    requires s.recvChain == Some(Advance(base, s.nRecv))
    ensures SkipOne(s).skipped.Valid()
    ensures GrewBy(s.skipped, SkipOne(s).skipped, s.dhr.value, base, s.nRecv, s.nRecv + 1)
  {
    InsertKeepsTheNewest(s.skipped, (s.dhr.value, s.nRecv), MessageKey(s.recvChain.value));
  }

  lemma SkipOneKeeps(s: RatchetState)
    requires s.dhr.Some? && s.recvChain.Some? && s.nRecv < U32_MAX && s.skipped.Valid()
    requires |s.skipped.order| < MAX_SKIPPED_KEYS
    ensures SkipOne(s).skipped.Valid() && |SkipOne(s).skipped.order| <= |s.skipped.order| + 1
    ensures KeptAll(s.skipped, SkipOne(s).skipped, s.dhr.value, s.nRecv, s.nRecv + 1)
  {
    InsertKeepsTheNewest(s.skipped, (s.dhr.value, s.nRecv), MessageKey(s.recvChain.value));
  }

  /** Passing over `count` counters moves the chain that far and touches nothing but the store. */
  lemma {:induction false} SkipManyMoves(s: RatchetState, base: Term, count: nat)
    requires s.dhr.Some? && s.nRecv + count <= U32_MAX
    requires s.recvChain == Some(Advance(base, s.nRecv))
    ensures var t := SkipMany(s, count);
            t == s.(skipped := t.skipped, recvChain := Some(Advance(base, s.nRecv + count)), nRecv := s.nRecv + count)
    decreases count
  {
    if count > 0 {
      SkipManyMoves(SkipOne(s), base, count - 1);
    }
  }

  lemma GrowsByOneMore(s: RatchetState, one: RatchetState, end: Store, base: Term, count: nat)
    requires s.dhr.Some? && one.dhr == s.dhr && one.nRecv == s.nRecv + 1 && count > 0
    requires GrewBy(s.skipped, one.skipped, s.dhr.value, base, s.nRecv, s.nRecv + 1)
    requires GrewBy(one.skipped, end, one.dhr.value, base, one.nRecv, one.nRecv + (count - 1))
    ensures GrewBy(s.skipped, end, s.dhr.value, base, s.nRecv, s.nRecv + count)
  {
  }

  lemma KeepingAddsUp(s: Store, t: Store, u: Store, dhr: PublicKey, from: nat, mid: nat, to: nat)
    requires from <= mid <= to && KeptAll(s, t, dhr, from, mid) && KeptAll(t, u, dhr, mid, to)
    ensures KeptAll(s, u, dhr, from, to)
  {
    forall n: u32 | from <= n < to ensures (dhr, n) in u.byId {
      if n < mid {
        assert (dhr, n) in t.byId;
      }
    }
  }

  /** It adds only the keys of the counters passed. */
  lemma {:induction false} SkipManyGrows(s: RatchetState, base: Term, count: nat)
    requires s.dhr.Some? && s.nRecv + count <= U32_MAX && s.skipped.Valid()
    requires s.recvChain == Some(Advance(base, s.nRecv))
    ensures SkipMany(s, count).skipped.Valid()
    ensures GrewBy(s.skipped, SkipMany(s, count).skipped, s.dhr.value, base, s.nRecv, s.nRecv + count)
    decreases count
  {
    if count > 0 {
      SkipOneGrows(s, base);
      SkipManyGrows(SkipOne(s), base, count - 1);
      GrowsByOneMore(s, SkipOne(s), SkipMany(s, count).skipped, base, count);
    }
  }

  /** It loses none while there is room. */
  lemma {:induction false} SkipManyKeeps(s: RatchetState, base: Term, count: nat)
    requires s.dhr.Some? && s.nRecv + count <= U32_MAX && s.skipped.Valid()
    requires s.recvChain == Some(Advance(base, s.nRecv)) && |s.skipped.order| + count <= MAX_SKIPPED_KEYS
    ensures |SkipMany(s, count).skipped.order| <= |s.skipped.order| + count
    ensures KeptAll(s.skipped, SkipMany(s, count).skipped, s.dhr.value, s.nRecv, s.nRecv + count)
    decreases count
  {
    if count > 0 {
      SkipOneKeeps(s);
      var one := SkipOne(s);
      SkipManyKeeps(one, base, count - 1);
      var end := SkipMany(one, count - 1);
      assert SkipMany(s, count) == end && one.dhr == s.dhr && one.nRecv == s.nRecv + 1;
      KeepingAddsUp(s.skipped, one.skipped, end.skipped, s.dhr.value, s.nRecv, s.nRecv + 1, s.nRecv + count);
    }
  }

  function Reached(s: RatchetState, until: u32): u32 {
    if until <= s.nRecv then s.nRecv else until
  }

  lemma SkippedToIs(s: RatchetState, until: u32)
    requires s.dhr.Some? && s.recvChain.Some?
    ensures SkippedTo(s, until) ==
            if until <= s.nRecv then Ok(s)
            else if until - s.nRecv > MAX_SKIP then Err(TooManySkipped)
            else Ok(SkipMany(s, until - s.nRecv))
  {
  }

  lemma SkippedToMoves(s: RatchetState, base: Term, until: u32)
    requires s.dhr.Some? && s.recvChain == Some(Advance(base, s.nRecv)) && SkippedTo(s, until).Ok?
    ensures var t, reached := SkippedTo(s, until).value, Reached(s, until);
            t == s.(skipped := t.skipped, recvChain := Some(Advance(base, reached)), nRecv := reached)
  {
    SkippedToIs(s, until);
    if s.nRecv < until {
      SkipManyMoves(s, base, until - s.nRecv);
    }
  }

  lemma SkippedToGrows(s: RatchetState, base: Term, until: u32)
    requires s.dhr.Some? && s.skipped.Valid() && s.recvChain == Some(Advance(base, s.nRecv)) && SkippedTo(s, until).Ok?
    ensures var t := SkippedTo(s, until).value;
            t.skipped.Valid() && GrewBy(s.skipped, t.skipped, s.dhr.value, base, s.nRecv, Reached(s, until))
  {
    SkippedToIs(s, until);
    if s.nRecv < until {
      SkipManyGrows(s, base, until - s.nRecv);
    }
  }

  lemma SkippedToKeeps(s: RatchetState, base: Term, until: u32)
    requires s.dhr.Some? && s.skipped.Valid() && s.recvChain == Some(Advance(base, s.nRecv)) && SkippedTo(s, until).Ok?
    requires |s.skipped.order| + Reached(s, until) - s.nRecv <= MAX_SKIPPED_KEYS
    ensures var t, reached := SkippedTo(s, until).value, Reached(s, until);
            && |t.skipped.order| <= |s.skipped.order| + reached - s.nRecv
            && KeptAll(s.skipped, t.skipped, s.dhr.value, s.nRecv, reached)
  {
    SkippedToIs(s, until);
    if s.nRecv < until {
      SkipManyKeeps(s, base, until - s.nRecv);
    }
  }

  lemma SkippedToEffect(s: RatchetState, base: Term, until: u32)
    requires s.dhr.Some? && s.skipped.Valid() && s.recvChain == Some(Advance(base, s.nRecv))
    ensures SkippedTo(s, until).Ok? <==> until - s.nRecv <= MAX_SKIP
    ensures SkippedTo(s, until).Ok? ==>
              var t, reached := SkippedTo(s, until).value, Reached(s, until);
              && t == s.(skipped := t.skipped, recvChain := Some(Advance(base, reached)), nRecv := reached)
              && t.skipped.Valid()
              && GrewBy(s.skipped, t.skipped, s.dhr.value, base, s.nRecv, reached)
              && (|s.skipped.order| + reached - s.nRecv <= MAX_SKIPPED_KEYS ==>
                    && |t.skipped.order| <= |s.skipped.order| + reached - s.nRecv
                    && KeptAll(s.skipped, t.skipped, s.dhr.value, s.nRecv, reached))
  {
    SkippedToIs(s, until);
    if SkippedTo(s, until).Ok? {
      SkippedToMoves(s, base, until);
      SkippedToGrows(s, base, until);
      if |s.skipped.order| + Reached(s, until) - s.nRecv <= MAX_SKIPPED_KEYS {
        SkippedToKeeps(s, base, until);
      }
    }
  }

  /** Turning to a key the party has not met: close the current chain, step, and open the peer's new one. */
  lemma StepEffect(s: RatchetState, base: Term, header: Header, newSecret: Secret)
    returns (closed: Store)
    requires s.dhr.Some? && s.dhr != Some(header.dh) && header.dh.Of? && s.skipped.Valid()
    requires s.recvChain == None || s.recvChain == Some(Advance(base, s.nRecv))
    ensures var dhIn, dhOut := SharedSecret(s.dhsSecret, header.dh.secret), SharedSecret(newSecret, header.dh.secret);
            var chain, root := ChainHalf(s.rootKey, dhIn), RootHalf(s.rootKey, dhIn);
            var result := Positioned(s, header, newSecret);
            && (result.Ok? <==> (s.recvChain == None || header.pn - s.nRecv <= MAX_SKIP) && header.n <= MAX_SKIP)
            && (result.Ok? ==>
                  var reached := if s.recvChain == None then s.nRecv else Reached(s, header.pn);
                  && result.value == RatchetState(RootHalf(root, dhOut), newSecret, Some(header.dh),
                                                  Some(ChainHalf(root, dhOut)), Some(Advance(chain, header.n)),
                                                  0, header.n, s.nSend, result.value.skipped)
                  && closed.Valid() && result.value.skipped.Valid()
                  && GrewBy(s.skipped, closed, s.dhr.value, base, s.nRecv, reached)
                  && GrewBy(closed, result.value.skipped, header.dh, chain, 0, header.n)
                  && (|s.skipped.order| + reached - s.nRecv + header.n <= MAX_SKIPPED_KEYS ==>
                        && KeptAll(s.skipped, closed, s.dhr.value, s.nRecv, reached)
                        && KeptAll(closed, result.value.skipped, header.dh, 0, header.n)))
  {
    closed := s.skipped;
    if s.recvChain != None {
      SkippedToEffect(s, base, header.pn);
    }
    var first := SkippedTo(s, header.pn);
    if first.Ok? {
      closed := first.value.skipped;
      var stepped := DhStep(first.value, header.dh, newSecret).value;
      SkippedToEffect(stepped, ChainHalf(s.rootKey, SharedSecret(s.dhsSecret, header.dh.secret)), header.n);
    }
  }

  // ---- what is accepted ----

  /** A ciphertext that opens under one of the session's keys came from the conversation, header and all. */
  lemma OpenedIsGenuine(w: World, msg: RatchetMessage, root: Term, dh: Term, at: nat) returns (i: nat, n: nat)
    requires Shape(w) && NetworkCanSend(w, msg) && Rooted(root, w.sk)
    requires Unseal(KeyAt(ChainHalf(root, dh), at), msg).Ok?
    ensures IsSent(w, i, n) && msg == Genuine(w, i, n) && n == at
    ensures ChainAt(w.sk, w.epochs, i) == ChainHalf(root, dh)
    ensures Unseal(KeyAt(ChainHalf(root, dh), at), msg) == Ok(w.sent[i][n])
  {
    KeyIsRooted(w.sk, root, dh, at);
    i, n :| IsSent(w, i, n) && msg.ct == Genuine(w, i, n).ct;
    UnpadUndoesPad(w.sent[i][n]);
    KeysDiffer(ChainHalf(root, dh), ChainAt(w.sk, w.epochs, i), at, n);
  }

  lemma AcceptsStored(w: World, s: RatchetState, e: nat, msg: RatchetMessage) returns (i: nat, n: nat)
    requires Shape(w) && Aligned(w, s, e) && NetworkCanSend(w, msg)
    requires (msg.header.dh, msg.header.n) in s.skipped.byId
    requires Unseal(s.skipped.byId[(msg.header.dh, msg.header.n)], msg).Ok?
    ensures DeliverableTo(w, s, e, i, n) && msg == Genuine(w, i, n) && (i, n) !in w.accepted
    ensures Passed(e, s.nRecv, i, n)
    ensures Unseal(s.skipped.byId[(msg.header.dh, msg.header.n)], msg) == Ok(w.sent[i][n])
  {
    var id := (msg.header.dh, msg.header.n);
    var j := EntryOf(w, s.skipped, e, s.nRecv, id);
    RootIsRooted(w.sk, w.epochs, j - 1);
    i, n := OpenedIsGenuine(w, msg, RootAt(w.sk, w.epochs, j - 1), SharedSecret(w.epochs[j - 1], w.epochs[j]), id.1);
    assert i == j;
  }

  lemma AcceptsCurrent(w: World, s: RatchetState, e: nat, msg: RatchetMessage) returns (i: nat, n: nat)
    requires Shape(w) && Aligned(w, s, e) && NetworkCanSend(w, msg)
    requires s.dhr == Some(msg.header.dh) && SkippedTo(s, msg.header.n).Ok?
    requires var t := SkippedTo(s, msg.header.n).value;
             t.recvChain.Some? && Unseal(MessageKey(t.recvChain.value), msg).Ok?
    ensures DeliverableTo(w, s, e, i, n) && msg == Genuine(w, i, n) && (i, n) !in w.accepted
    ensures i == e - 1 && !Passed(e, s.nRecv, i, n)
    ensures var t := SkippedTo(s, msg.header.n).value;
            Unseal(MessageKey(t.recvChain.value), msg) == Ok(w.sent[i][n])
  {
    var base := ChainAt(w.sk, w.epochs, e - 1);
    SkippedToEffect(s, base, msg.header.n);
    RootIsRooted(w.sk, w.epochs, e - 2);
    i, n := OpenedIsGenuine(w, msg, base.root, base.dh, Reached(s, msg.header.n));
    assert Of(w.epochs[i]) == Of(w.epochs[e - 1]);
  }

  /** Where a step leaves the receiving chain, and that both skips were within bounds. */
  lemma StepChain(s: RatchetState, base: Term, header: Header, newSecret: Secret)
    requires s.dhr.Some? && s.dhr != Some(header.dh) && s.skipped.Valid()
    requires s.recvChain == None || s.recvChain == Some(Advance(base, s.nRecv))
    requires Positioned(s, header, newSecret).Ok?
    ensures header.dh.Of? && header.n <= MAX_SKIP && (s.recvChain == None || header.pn - s.nRecv <= MAX_SKIP)
    ensures Positioned(s, header, newSecret).value.recvChain
         == Some(Advance(ChainHalf(s.rootKey, SharedSecret(s.dhsSecret, header.dh.secret)), header.n))
  {
    var closed := StepEffect(s, base, header, newSecret);
  }

  /** A message of the peer's next epoch that lies within both skip bounds is deliverable. */
  lemma NextIsDeliverable(w: World, s: RatchetState, e: nat, n: nat)
    requires Shape(w) && Aligned(w, s, e) && IsSent(w, e + 1, n) && n <= MAX_SKIP
    requires s.recvChain == None || Genuine(w, e + 1, n).header.pn - s.nRecv <= MAX_SKIP
    ensures DeliverableTo(w, s, e, e + 1, n) && (e + 1, n) !in w.accepted
  {
  }

  /** A ciphertext under the chain that a new header opens is a message of the peer's next epoch. */
  lemma OpensOnlyTheNext(w: World, e: nat, msg: RatchetMessage, other: Secret) returns (n: nat)
    requires Shape(w) && NetworkCanSend(w, msg) && e < |w.epochs|
    requires Unseal(KeyAt(ChainHalf(RootAt(w.sk, w.epochs, e), SharedSecret(w.epochs[e], other)), msg.header.n), msg).Ok?
    ensures IsSent(w, e + 1, n) && msg == Genuine(w, e + 1, n)
    ensures Unseal(KeyAt(ChainHalf(RootAt(w.sk, w.epochs, e), SharedSecret(w.epochs[e], other)), msg.header.n), msg)
         == Ok(w.sent[e + 1][n])
  {
    RootIsRooted(w.sk, w.epochs, e);
    var i;
    i, n := OpenedIsGenuine(w, msg, RootAt(w.sk, w.epochs, e), SharedSecret(w.epochs[e], other), msg.header.n);
    RootsDiffer(w.sk, w.epochs, e, i - 1);
  }

  /** Where a new header leaves a party's receiving chain, in terms of the conversation. */
  lemma NextChainOf(w: World, s: RatchetState, e: nat, header: Header, newSecret: Secret)
    requires Shape(w) && Aligned(w, s, e) && s.dhr != Some(header.dh) && Positioned(s, header, newSecret).Ok?
    ensures header.dh.Of? && header.n <= MAX_SKIP && (s.recvChain == None || header.pn - s.nRecv <= MAX_SKIP)
    ensures Positioned(s, header, newSecret).value.recvChain
         == Some(Advance(ChainHalf(RootAt(w.sk, w.epochs, e), SharedSecret(w.epochs[e], header.dh.secret)), header.n))
  {
    StepChain(s, BaseAt(w, e), header, newSecret);
  }

  lemma AcceptsNext(w: World, s: RatchetState, e: nat, msg: RatchetMessage, newSecret: Secret)
    returns (i: nat, n: nat)
    requires Shape(w) && Aligned(w, s, e) && NetworkCanSend(w, msg)
    requires s.dhr != Some(msg.header.dh) && Positioned(s, msg.header, newSecret).Ok?
    requires var t := Positioned(s, msg.header, newSecret).value;
             t.recvChain.Some? && Unseal(MessageKey(t.recvChain.value), msg).Ok?
    ensures DeliverableTo(w, s, e, i, n) && msg == Genuine(w, i, n) && (i, n) !in w.accepted
    ensures i == e + 1
    ensures var t := Positioned(s, msg.header, newSecret).value;
            Unseal(MessageKey(t.recvChain.value), msg) == Ok(w.sent[i][n])
  {
    NextChainOf(w, s, e, msg.header, newSecret);
    i := e + 1;
    n := OpensOnlyTheNext(w, e, msg, msg.header.dh.secret);
    assert IsSent(w, i, n) && msg.header == Genuine(w, i, n).header;
    NextIsDeliverable(w, s, e, n);
  }

  /** Whatever the network does, only a deliverable message of the peer's is ever accepted. */
  lemma AcceptsOnlyDeliverable(w: World, p: Party, msg: RatchetMessage, newSecret: Secret)
    returns (i: nat, n: nat)
    requires Shape(w) && Aligned(w, StateOf(w, p), EpochOf(w, p)) && NetworkCanSend(w, msg)
    requires Decrypted(StateOf(w, p), msg, newSecret).Ok?
    ensures Deliverable(w, p, i, n) && msg == Genuine(w, i, n) && (i, n) !in w.accepted
    ensures Decrypted(StateOf(w, p), msg, newSecret).value.1 == w.sent[i][n]
  {
    var s, e := StateOf(w, p), EpochOf(w, p);
    if (msg.header.dh, msg.header.n) in s.skipped.byId {
      i, n := AcceptsStored(w, s, e, msg);
    } else if s.dhr == Some(msg.header.dh) {
      i, n := AcceptsCurrent(w, s, e, msg);
    } else {
      i, n := AcceptsNext(w, s, e, msg, newSecret);
    }
  }

  /** A stored key is the key of the message its id names. */
  lemma StoredKey(w: World, s: RatchetState, e: nat, i: nat, n: nat)
    requires Shape(w) && Aligned(w, s, e) && IsSent(w, i, n)
    requires Stored(w, s, i, n)
    ensures Passed(e, s.nRecv, i, n) && (i, n) !in w.accepted
    ensures s.skipped.byId[(Of(w.epochs[i]), n)] == KeyAt(ChainAt(w.sk, w.epochs, i), n)
  {
    var id: KeyId := (Of(w.epochs[i]), n);
    var j := EntryOf(w, s.skipped, e, s.nRecv, id);
    assert i == j;
  }

  /** The key a party arrives at for a deliverable message it has not passed, and where that leaves it. */
  lemma PositionedFor(w: World, s: RatchetState, e: nat, i: nat, n: nat, newSecret: Secret)
    requires Shape(w) && Aligned(w, s, e) && DeliverableTo(w, s, e, i, n) && !Passed(e, s.nRecv, i, n)
    requires |w.epochs| <= e + 2
    ensures Positioned(s, Genuine(w, i, n).header, newSecret).Ok?
    ensures var t := Positioned(s, Genuine(w, i, n).header, newSecret).value;
            && t.recvChain == Some(Advance(ChainAt(w.sk, w.epochs, i), n))
            && t.nRecv == n
            && (i == e - 1 || i == e + 1)
            && (i == e - 1 ==> t == s.(skipped := t.skipped, recvChain := t.recvChain, nRecv := n))
  {
    var header := Genuine(w, i, n).header;
    if i == e - 1 {
      SkippedToEffect(s, ChainAt(w.sk, w.epochs, e - 1), n);
    } else {
      assert i == e + 1;
      var closed := StepEffect(s, if e == 1 then w.sk else ChainAt(w.sk, w.epochs, e - 1), header, newSecret);
      assert SharedSecret(s.dhsSecret, w.epochs[i]) == SharedSecret(w.epochs[i - 1], w.epochs[i]);
      assert s.rootKey == RootAt(w.sk, w.epochs, i - 1);
    }
  }

  /** A deliverable message is accepted, and yields exactly what its sender encrypted. */
  lemma DeliverableIsAccepted(w: World, p: Party, i: nat, n: nat, newSecret: Secret)
    requires Shape(w) && Aligned(w, StateOf(w, p), EpochOf(w, p)) && Deliverable(w, p, i, n)
    ensures Decrypted(StateOf(w, p), Genuine(w, i, n), newSecret).Ok?
    ensures Decrypted(StateOf(w, p), Genuine(w, i, n), newSecret).value.1 == w.sent[i][n]
  {
    var s, e, msg := StateOf(w, p), EpochOf(w, p), Genuine(w, i, n);
    UnpadUndoesPad(w.sent[i][n]);
    if Stored(w, s, i, n) {
      StoredKey(w, s, e, i, n);
    } else {
      PositionedFor(w, s, e, i, n, newSecret);
    }
  }

  // ---- what every step keeps ----

  /** `v` is a later stage of the same conversation. */
  ghost predicate Later(w: World, v: World)
    requires Shape(w) && Shape(v)
  {
    && v.sk == w.sk
    && w.epochs <= v.epochs
    && (forall i | 0 <= i < |w.sent| :: w.sent[i] <= v.sent[i])
  }

  lemma EntryStays(w: World, v: World, e: nat, nRecv: nat, id: KeyId, key: Term, i: nat)
    requires Shape(w) && Shape(v) && Later(w, v) && e < |w.epochs|
    requires Entry(w, e, nRecv, id, key, i) && (i, id.1) !in v.accepted
    ensures Entry(v, e, nRecv, id, key, i)
  {
    RootsStay(w.sk, w.epochs, v.epochs, i);
  }

  /** A store stays aligned while the conversation grows, as long as nothing it holds is accepted. */
  lemma StoreStays(w: World, v: World, store: Store, e: nat, nRecv: nat)
    requires Shape(w) && Shape(v) && Later(w, v) && e < |w.epochs| && StoreAligned(w, store, e, nRecv)
    requires forall a | a in v.accepted :: a in w.accepted || !FromPeer(e, a.0)
    ensures StoreAligned(v, store, e, nRecv)
  {
    forall id | id in store.byId ensures HasEntry(v, e, nRecv, id, store.byId[id]) {
      var i := EntryOf(w, store, e, nRecv, id);
      EntryStays(w, v, e, nRecv, id, store.byId[id], i);
    }
  }

  /** A party that takes no part in a step stays aligned. */
  lemma BystanderStays(w: World, v: World, s: RatchetState, e: nat)
    requires Shape(w) && Shape(v) && Later(w, v) && Aligned(w, s, e)
    requires v.sent[e] == w.sent[e] && (e >= 2 ==> v.sent[e - 2] == w.sent[e - 2])
    requires forall a | a in v.accepted :: a in w.accepted || !FromPeer(e, a.0)
    ensures Aligned(v, s, e)
  {
    StoreStays(w, v, s.skipped, e, s.nRecv);
    RootsStay(w.sk, w.epochs, v.epochs, e);
    RootsStay(w.sk, w.epochs, v.epochs, e - 1);
  }

  lemma BystanderParty(w: World, v: World, p: Party)
    requires Shape(w) && Shape(v) && Later(w, v) && AlignedParty(w, p)
    requires StateOf(v, p) == StateOf(w, p) && EpochOf(v, p) == EpochOf(w, p)
    requires var e := EpochOf(w, p); v.sent[e] == w.sent[e] && (e >= 2 ==> v.sent[e - 2] == w.sent[e - 2])
    requires forall a | a in v.accepted :: a in w.accepted || (!FromPeer(EpochOf(w, p), a.0) && 1 <= a.0 < |w.epochs|)
    ensures AlignedParty(v, p)
  {
    BystanderStays(w, v, StateOf(w, p), EpochOf(w, p));
  }

  lemma SenderStays(w: World, v: World, s: RatchetState, e: nat, plaintext: seq<byte>)
    requires Shape(w) && Shape(v) && Aligned(w, s, e)
    requires v == w.(sent := v.sent, initiator := v.initiator, responder := v.responder)
    requires v.sent == if Encrypted(s, plaintext).1.Ok? then w.sent[e := w.sent[e] + [plaintext]] else w.sent
    ensures Aligned(v, Encrypted(s, plaintext).0, e)
  {
    StoreStays(w, v, s.skipped, e, s.nRecv);
  }

  function Peer(p: Party): Party {
    if p.Initiator? then Responder else Initiator
  }

  lemma SendEffect(w: World, p: Party, plaintext: seq<byte>) returns (v: World)
    requires Inv(w)
    ensures v == Next(w, Send(p, plaintext)) && Shape(v) && Later(w, v)
    ensures v == w.(sent := v.sent, initiator := v.initiator, responder := v.responder)
    ensures StateOf(v, p) == Encrypted(StateOf(w, p), plaintext).0 && StateOf(v, Peer(p)) == StateOf(w, Peer(p))
    ensures var e := EpochOf(w, p);
            v.sent == if Encrypted(StateOf(w, p), plaintext).1.Ok? then w.sent[e := w.sent[e] + [plaintext]] else w.sent
  {
    v := Next(w, Send(p, plaintext));
    var r := Encrypted(StateOf(w, p), plaintext).1;
    assert r.Ok? ==> |w.sent[EpochOf(w, p)]| < U32_MAX;
  }

  lemma SenderParty(w: World, p: Party, plaintext: seq<byte>, v: World)
    requires Shape(w) && Shape(v) && AlignedParty(w, p)
    requires v == w.(sent := v.sent, initiator := v.initiator, responder := v.responder)
    requires StateOf(v, p) == Encrypted(StateOf(w, p), plaintext).0
    requires var e := EpochOf(w, p);
             v.sent == if Encrypted(StateOf(w, p), plaintext).1.Ok? then w.sent[e := w.sent[e] + [plaintext]] else w.sent
    ensures AlignedParty(v, p)
  {
    SenderStays(w, v, StateOf(w, p), EpochOf(w, p), plaintext);
  }

  lemma PeerOfSender(w: World, p: Party, plaintext: seq<byte>, v: World)
    requires Shape(w) && Shape(v) && Later(w, v) && AlignedParty(w, Peer(p))
    requires v == w.(sent := v.sent, initiator := v.initiator, responder := v.responder)
    requires StateOf(v, Peer(p)) == StateOf(w, Peer(p))
    requires forall i | 0 <= i < |w.sent| && i != EpochOf(w, p) :: v.sent[i] == w.sent[i]
    ensures AlignedParty(v, Peer(p))
  {
    BystanderParty(w, v, Peer(p));
  }

  lemma BothParties(w: World, p: Party)
    requires Shape(w) && AlignedParty(w, p) && AlignedParty(w, Peer(p))
    ensures Inv(w)
  {
    if p.Initiator? {
      assert AlignedParty(w, Responder);
    } else {
      assert AlignedParty(w, Initiator);
    }
  }

  lemma SendKeepsInv(w: World, p: Party, plaintext: seq<byte>)
    requires Inv(w)
    ensures Inv(Next(w, Send(p, plaintext)))
  {
    var v := SendEffect(w, p, plaintext);
    SenderParty(w, p, plaintext, v);
    PeerOfSender(w, p, plaintext, v);
    BothParties(v, p);
  }

  /** A store stays aligned when one of its messages is taken out and accepted. */
  lemma TakenStays(w: World, v: World, store: Store, left: Store, e: nat, nRecv: nat, i: nat, n: u32)
    requires Shape(w) && Shape(v) && Later(w, v) && e < |w.epochs| && StoreAligned(w, store, e, nRecv)
    requires i < |w.epochs| && forall a | a in v.accepted :: a in w.accepted || a == (i, n)
    requires left.Valid()
    requires forall id: KeyId | id in left.byId ::
               id in store.byId && left.byId[id] == store.byId[id] && id != (Of(w.epochs[i]), n)
    ensures StoreAligned(v, left, e, nRecv)
  {
    forall id | id in left.byId ensures HasEntry(v, e, nRecv, id, left.byId[id]) {
      var j := EntryOf(w, store, e, nRecv, id);
      assert (j, id.1) != (i, n);
      EntryStays(w, v, e, nRecv, id, store.byId[id], j);
    }
  }

  /** What is accepted besides what was accepted before: message `n` of the current chain, or one of a later epoch. */
  ghost predicate AcceptsAlso(w: World, v: World, e: nat, n: nat) {
    forall a | a in v.accepted :: a in w.accepted || !FromPeer(e, a.0) || a == (e - 1, n) || a.0 == e + 1
  }

  /** An entry held before stays one when the current chain moves on and the message it comes to is accepted. */
  lemma HeldEntryStays(w: World, v: World, e: nat, from: nat, n: nat, to: nat, id: KeyId, key: Term)
    requires Shape(w) && Shape(v) && Later(w, v) && e < |w.epochs| && HasEntry(w, e, from, id, key)
    requires from <= n <= to && AcceptsAlso(w, v, e, n)
    ensures HasEntry(v, e, to, id, key)
  {
    var j: nat :| Entry(w, e, from, id, key, j);
    EntryStays(w, v, e, to, id, key, j);
  }

  /** The key of a counter that the current chain passes is an entry. */
  lemma PassedEntry(w: World, v: World, e: nat, from: nat, n: nat, to: nat, id: KeyId, key: Term)
    requires Shape(w) && Shape(v) && Later(w, v) && 2 <= e < |w.epochs|
    requires from <= id.1 < n <= to && n <= |w.sent[e - 1]| && AcceptsAlso(w, v, e, n)
    requires id.0 == Of(w.epochs[e - 1]) && key == KeyAt(ChainAt(w.sk, w.epochs, e - 1), id.1)
    requires forall a | a in w.accepted && FromPeer(e, a.0) :: Passed(e, from, a.0, a.1)
    ensures HasEntry(v, e, to, id, key)
  {
    assert (e - 1, id.1) !in v.accepted;
    ChainKeyIsEntry(w, v, e, to, id, key, e - 1);
  }

  /** A store stays aligned when the current chain passes some counters and the message after them is accepted. */
  lemma GrownStays(w: World, v: World, store: Store, grown: Store, e: nat, from: nat, n: nat, to: nat)
    requires Shape(w) && Shape(v) && Later(w, v) && 2 <= e < |w.epochs| && StoreAligned(w, store, e, from)
    requires from <= n <= |w.sent[e - 1]| && n <= to && grown.Valid() && AcceptsAlso(w, v, e, n)
    requires GrewBy(store, grown, Of(w.epochs[e - 1]), ChainAt(w.sk, w.epochs, e - 1), from, n)
    requires forall a | a in w.accepted && FromPeer(e, a.0) :: Passed(e, from, a.0, a.1)
    ensures StoreAligned(v, grown, e, to)
  {
    forall id | id in grown.byId ensures HasEntry(v, e, to, id, grown.byId[id]) {
      if id in store.byId && grown.byId[id] == store.byId[id] {
        assert (id, store.byId[id]) in store.byId.Items;
        HeldEntryStays(w, v, e, from, n, to, id, grown.byId[id]);
      } else {
        PassedEntry(w, v, e, from, n, to, id, grown.byId[id]);
      }
    }
  }

  /** Everything passed in epoch `e` stays passed two epochs on. */
  lemma EntryMovesOn(w: World, v: World, e: nat, from: nat, next: nat, to: nat, id: KeyId, key: Term, j: nat)
    requires Shape(w) && Shape(v) && Later(w, v) && next == e + 2 && next < |v.epochs| && e < |w.epochs|
    requires Entry(w, e, from, id, key, j) && (j, id.1) !in v.accepted
    ensures Entry(v, next, to, id, key, j)
  {
    RootsStay(w.sk, w.epochs, v.epochs, j);
  }

  /** A key taken from chain `j` of the conversation is an entry for its counter. */
  lemma ChainKeyIsEntry(w: World, v: World, next: nat, to: nat, id: KeyId, key: Term, j: nat)
    requires Shape(w) && Shape(v) && Later(w, v) && next < |v.epochs| && 1 <= j < |w.epochs|
    requires Passed(next, to, j, id.1) && id.0 == Of(w.epochs[j]) && id.1 < |w.sent[j]|
    requires key == KeyAt(ChainAt(w.sk, w.epochs, j), id.1) && (j, id.1) !in v.accepted
    ensures Entry(v, next, to, id, key, j)
  {
    RootsStay(w.sk, w.epochs, v.epochs, j);
  }

  /** An entry held before stays one when the party moves on to the peer's next epoch. */
  lemma HeldEntryMovesOn(w: World, v: World, e: nat, from: nat, n: nat, to: nat, id: KeyId, key: Term)
    requires Shape(w) && Shape(v) && Later(w, v) && |w.epochs| == e + 2 && e + 2 < |v.epochs|
    requires HasEntry(w, e, from, id, key) && forall a | a in v.accepted :: a in w.accepted || a == (e + 1, n)
    ensures HasEntry(v, e + 2, to, id, key)
  {
    var j: nat :| Entry(w, e, from, id, key, j);
    EntryMovesOn(w, v, e, from, e + 2, to, id, key, j);
  }

  /** The key of a counter left on the chain that is closed, from where the party stood to its end, is an entry. */
  lemma ClosedEntry(w: World, v: World, e: nat, from: nat, n: nat, to: nat, id: KeyId, key: Term)
    requires Shape(w) && Shape(v) && Later(w, v) && 2 <= e && |w.epochs| == e + 2 && e + 2 < |v.epochs|
    requires from <= id.1 < |w.sent[e - 1]|
    requires id.0 == Of(w.epochs[e - 1]) && key == KeyAt(ChainAt(w.sk, w.epochs, e - 1), id.1)
    requires forall a | a in w.accepted && FromPeer(e, a.0) :: Passed(e, from, a.0, a.1)
    requires forall a | a in v.accepted :: a in w.accepted || a == (e + 1, n)
    ensures HasEntry(v, e + 2, to, id, key)
  {
    assert (e - 1, id.1) !in v.accepted;
    ChainKeyIsEntry(w, v, e + 2, to, id, key, e - 1);
  }

  /** The key of a counter passed on the chain that is opened is an entry. */
  lemma OpenedEntry(w: World, v: World, e: nat, from: nat, n: nat, id: KeyId, key: Term)
    requires Shape(w) && Shape(v) && Later(w, v) && |w.epochs| == e + 2 && e + 2 < |v.epochs|
    requires id.1 < n < |w.sent[e + 1]|
    requires id.0 == Of(w.epochs[e + 1]) && key == KeyAt(ChainAt(w.sk, w.epochs, e + 1), id.1)
    requires forall a | a in w.accepted && FromPeer(e, a.0) :: Passed(e, from, a.0, a.1)
    requires forall a | a in v.accepted :: a in w.accepted || a == (e + 1, n)
    ensures HasEntry(v, e + 2, n + 1, id, key)
  {
    assert (e + 1, id.1) !in v.accepted;
    ChainKeyIsEntry(w, v, e + 2, n + 1, id, key, e + 1);
  }

  /** What closing the current chain adds to a store; in the first epoch there is none to close. */
  ghost predicate GrewByClosing(w: World, store: Store, closed: Store, e: nat, from: nat)
    requires Shape(w) && 1 <= e < |w.epochs|
  {
    if e == 1 then GrewBy(store, closed, Of(w.epochs[0]), w.sk, 0, 0)
    else GrewBy(store, closed, Of(w.epochs[e - 1]), ChainAt(w.sk, w.epochs, e - 1), from, |w.sent[e - 1]|)
  }

  /** Every key of the closed chain's store is an entry of the epoch the party moves on to. */
  lemma ClosedStays(w: World, v: World, store: Store, closed: Store, e: nat, from: nat, n: nat, to: nat, id: KeyId)
    requires Shape(w) && Shape(v) && Later(w, v) && 1 <= e && |w.epochs| == e + 2 && e + 2 < |v.epochs|
    requires StoreAligned(w, store, e, from) && GrewByClosing(w, store, closed, e, from) && id in closed.byId
    requires forall a | a in w.accepted && FromPeer(e, a.0) :: Passed(e, from, a.0, a.1)
    requires forall a | a in v.accepted :: a in w.accepted || a == (e + 1, n)
    ensures HasEntry(v, e + 2, to, id, closed.byId[id])
  {
    if id in store.byId && closed.byId[id] == store.byId[id] {
      assert (id, store.byId[id]) in store.byId.Items;
      HeldEntryMovesOn(w, v, e, from, n, to, id, closed.byId[id]);
    } else {
      ClosedEntry(w, v, e, from, n, to, id, closed.byId[id]);
    }
  }

  /** A store stays aligned when the party moves on to the peer's next epoch and accepts message `n` of it. */
  lemma SteppedStays(w: World, v: World, store: Store, closed: Store, grown: Store, e: nat, from: nat, n: nat)
    requires Shape(w) && Shape(v) && Later(w, v) && 1 <= e && |w.epochs| == e + 2 && e + 2 < |v.epochs|
    requires StoreAligned(w, store, e, from) && grown.Valid() && n < |w.sent[e + 1]|
    requires GrewByClosing(w, store, closed, e, from)
    requires GrewBy(closed, grown, Of(w.epochs[e + 1]), ChainAt(w.sk, w.epochs, e + 1), 0, n)
    requires forall a | a in w.accepted && FromPeer(e, a.0) :: Passed(e, from, a.0, a.1)
    requires forall a | a in v.accepted :: a in w.accepted || a == (e + 1, n)
    ensures StoreAligned(v, grown, e + 2, n + 1)
  {
    forall id | id in grown.byId ensures HasEntry(v, e + 2, n + 1, id, grown.byId[id]) {
      if id in closed.byId && grown.byId[id] == closed.byId[id] {
        ClosedStays(w, v, store, closed, e, from, n, n + 1, id);
      } else {
        OpenedEntry(w, v, e, from, n, id, grown.byId[id]);
      }
    }
  }

  lemma ReceiverStored(w: World, v: World, s: RatchetState, e: nat, i: nat, n: nat)
    requires Shape(w) && Shape(v) && Aligned(w, s, e) && IsSent(w, i, n) && Stored(w, s, i, n)
    requires v == w.(accepted := w.accepted + {(i, n)}, initiator := v.initiator, responder := v.responder)
    ensures Aligned(v, s.(skipped := Taken(s.skipped, (Of(w.epochs[i]), n)).value.1), e)
  {
    StoredKey(w, s, e, i, n);
    TakeKeepsValid(s.skipped, (Of(w.epochs[i]), n));
    var left := Taken(s.skipped, (Of(w.epochs[i]), n)).value.1;
    TakenStays(w, v, s.skipped, left, e, s.nRecv, i, n);
  }

  lemma SkippedFields(w: World, s: RatchetState, e: nat, n: nat, newSecret: Secret) returns (t: RatchetState)
    requires Shape(w) && Aligned(w, s, e) && |w.epochs| <= e + 2 && IsSent(w, e - 1, n)
    requires DeliverableTo(w, s, e, e - 1, n) && !Passed(e, s.nRecv, e - 1, n)
    ensures Positioned(s, Genuine(w, e - 1, n).header, newSecret) == Ok(t) && 2 <= e && s.nRecv <= n
    ensures t == s.(skipped := t.skipped, recvChain := Some(Advance(ChainAt(w.sk, w.epochs, e - 1), n)), nRecv := n)
    ensures t.skipped.Valid()
    ensures GrewBy(s.skipped, t.skipped, Of(w.epochs[e - 1]), ChainAt(w.sk, w.epochs, e - 1), s.nRecv, n)
  {
    PositionedFor(w, s, e, e - 1, n, newSecret);
    t := Positioned(s, Genuine(w, e - 1, n).header, newSecret).value;
    SkippedToEffect(s, ChainAt(w.sk, w.epochs, e - 1), n);
  }

  /** Skipping forward on the current chain: the store fits the conversation once the message is accepted. */
  lemma SkippedOnCurrent(w: World, v: World, s: RatchetState, e: nat, n: nat, newSecret: Secret) returns (t: RatchetState)
    requires Shape(w) && Shape(v) && Aligned(w, s, e) && |w.epochs| <= e + 2 && IsSent(w, e - 1, n)
    requires DeliverableTo(w, s, e, e - 1, n) && !Passed(e, s.nRecv, e - 1, n)
    requires v == w.(accepted := w.accepted + {(e - 1, n)}, initiator := v.initiator, responder := v.responder)
    ensures Positioned(s, Genuine(w, e - 1, n).header, newSecret) == Ok(t) && 2 <= e && s.nRecv <= n
    ensures t == s.(skipped := t.skipped, recvChain := Some(Advance(ChainAt(w.sk, w.epochs, e - 1), n)), nRecv := n)
    ensures StoreAligned(v, t.skipped, e, n + 1)
  {
    t := SkippedFields(w, s, e, n, newSecret);
    GrownStays(w, v, s.skipped, t.skipped, e, s.nRecv, n, n + 1);
  }

  lemma MovedOnIsAligned(w: World, v: World, s: RatchetState, e: nat, n: nat, u: RatchetState)
    requires Shape(w) && Shape(v) && Aligned(w, s, e) && 2 <= e && s.nRecv <= n < |w.sent[e - 1]|
    requires v == w.(accepted := w.accepted + {(e - 1, n)}, initiator := v.initiator, responder := v.responder)
    requires u == s.(skipped := u.skipped, nRecv := n + 1,
                     recvChain := Some(NextChain(Advance(ChainAt(w.sk, w.epochs, e - 1), n))))
    requires StoreAligned(v, u.skipped, e, n + 1)
    ensures Aligned(v, u, e)
  {
  }

  lemma ReceiverCurrent(w: World, v: World, s: RatchetState, e: nat, n: nat, newSecret: Secret)
    returns (t: RatchetState, u: RatchetState)
    requires Shape(w) && Shape(v) && Aligned(w, s, e) && |w.epochs| <= e + 2 && IsSent(w, e - 1, n)
    requires DeliverableTo(w, s, e, e - 1, n) && !Passed(e, s.nRecv, e - 1, n)
    requires v == w.(accepted := w.accepted + {(e - 1, n)}, initiator := v.initiator, responder := v.responder)
    ensures Positioned(s, Genuine(w, e - 1, n).header, newSecret) == Ok(t) && t.recvChain.Some?
    ensures u == t.(recvChain := Some(NextChain(t.recvChain.value)), nRecv := n + 1)
    ensures Aligned(v, u, e)
  {
    t := SkippedOnCurrent(w, v, s, e, n, newSecret);
    u := t.(recvChain := Some(NextChain(t.recvChain.value)), nRecv := n + 1);
    MovedOnIsAligned(w, v, s, e, n, u);
  }

  /** The keys of a new epoch `k`, which its owner adds to the conversation. */
  lemma NewEpochKeys(w: World, v: World, newSecret: Secret, k: nat)
    requires Shape(w) && k == |w.epochs| && v.sk == w.sk && v.epochs == w.epochs + [newSecret]
    ensures RootAt(v.sk, v.epochs, k) == RootHalf(RootAt(w.sk, w.epochs, k - 1), SharedSecret(w.epochs[k - 1], newSecret))
    ensures ChainAt(v.sk, v.epochs, k) == ChainHalf(RootAt(w.sk, w.epochs, k - 1), SharedSecret(w.epochs[k - 1], newSecret))
    ensures RootAt(v.sk, v.epochs, k - 1) == RootAt(w.sk, w.epochs, k - 1)
    ensures ChainAt(v.sk, v.epochs, k - 1) == ChainAt(w.sk, w.epochs, k - 1)
  {
    RootsStay(w.sk, w.epochs, v.epochs, k - 1);
  }

  lemma StepFields(s: RatchetState, base: Term, header: Header, newSecret: Secret)
    requires s.dhr.Some? && s.dhr != Some(header.dh) && header.dh.Of? && s.skipped.Valid()
    requires s.recvChain == None || s.recvChain == Some(Advance(base, s.nRecv))
    requires Positioned(s, header, newSecret).Ok?
    ensures var dhIn, dhOut := SharedSecret(s.dhsSecret, header.dh.secret), SharedSecret(newSecret, header.dh.secret);
            var root, t := RootHalf(s.rootKey, dhIn), Positioned(s, header, newSecret).value;
            t == RatchetState(RootHalf(root, dhOut), newSecret, Some(header.dh), Some(ChainHalf(root, dhOut)),
                              Some(Advance(ChainHalf(s.rootKey, dhIn), header.n)), 0, header.n, s.nSend, t.skipped)
  {
    var closed := StepEffect(s, base, header, newSecret);
  }

  lemma StepGrows(s: RatchetState, base: Term, header: Header, newSecret: Secret) returns (closed: Store)
    requires s.dhr.Some? && s.dhr != Some(header.dh) && header.dh.Of? && s.skipped.Valid()
    requires s.recvChain == None || s.recvChain == Some(Advance(base, s.nRecv))
    requires Positioned(s, header, newSecret).Ok?
    ensures var t, reached := Positioned(s, header, newSecret).value, if s.recvChain == None then s.nRecv else Reached(s, header.pn);
            && t.skipped.Valid() && GrewBy(s.skipped, closed, s.dhr.value, base, s.nRecv, reached)
            && GrewBy(closed, t.skipped, header.dh, ChainHalf(s.rootKey, SharedSecret(s.dhsSecret, header.dh.secret)), 0, header.n)
  {
    closed := StepEffect(s, base, header, newSecret);
  }

  /** The chain a party in this epoch receives on, or the handshake secret before it has one. */
  function BaseAt(w: World, e: nat): Term
    requires 1 <= e <= |w.epochs|
  {
    if e == 1 then w.sk else ChainAt(w.sk, w.epochs, e - 1)
  }

  /** The fields of a party that has just opened a new epoch on the peer's message `n`. */
  lemma SteppedFields(w: World, s: RatchetState, e: nat, n: nat, newSecret: Secret) returns (t: RatchetState)
    requires Shape(w) && Aligned(w, s, e) && |w.epochs| == e + 2 && DeliverableTo(w, s, e, e + 1, n)
    ensures Positioned(s, Genuine(w, e + 1, n).header, newSecret) == Ok(t)
    ensures var root, dh := RootAt(w.sk, w.epochs, e + 1), SharedSecret(w.epochs[e + 1], newSecret);
            t == RatchetState(RootHalf(root, dh), newSecret, Some(Of(w.epochs[e + 1])), Some(ChainHalf(root, dh)),
                              Some(Advance(ChainAt(w.sk, w.epochs, e + 1), n)), 0, n, |w.sent[e]|, t.skipped)
  {
    PositionedFor(w, s, e, e + 1, n, newSecret);
    var header := Genuine(w, e + 1, n).header;
    StepFields(s, BaseAt(w, e), header, newSecret);
    t := Positioned(s, header, newSecret).value;
    assert SharedSecret(s.dhsSecret, w.epochs[e + 1]) == SharedSecret(w.epochs[e], w.epochs[e + 1]);
  }

  lemma SteppedGrows(w: World, s: RatchetState, e: nat, n: nat, newSecret: Secret, t: RatchetState) returns (closed: Store)
    requires Shape(w) && Aligned(w, s, e) && |w.epochs| == e + 2 && IsSent(w, e + 1, n)
    requires Positioned(s, Genuine(w, e + 1, n).header, newSecret) == Ok(t)
    ensures t.skipped.Valid() && GrewByClosing(w, s.skipped, closed, e, s.nRecv)
    ensures GrewBy(closed, t.skipped, Of(w.epochs[e + 1]), ChainAt(w.sk, w.epochs, e + 1), 0, n)
  {
    closed := StepGrows(s, BaseAt(w, e), Genuine(w, e + 1, n).header, newSecret);
    assert SharedSecret(s.dhsSecret, w.epochs[e + 1]) == SharedSecret(w.epochs[e], w.epochs[e + 1]);
  }

  lemma AcceptedOnNext(w: World, v: World, s: RatchetState, e: nat, n: nat)
    requires Shape(w) && Shape(v) && Aligned(w, s, e) && |w.epochs| == e + 2 && n < |w.sent[e + 1]|
    requires v.sent == w.sent + [[]] && v.accepted == w.accepted + {(e + 1, n)}
    requires forall a | a in w.accepted :: 1 <= a.0 < |w.epochs|
    ensures forall a | a in v.accepted && FromPeer(e + 2, a.0) :: Passed(e + 2, n + 1, a.0, a.1) && a.1 < |v.sent[a.0]|
  {
    forall a | a in v.accepted && FromPeer(e + 2, a.0)
      ensures Passed(e + 2, n + 1, a.0, a.1) && a.1 < |v.sent[a.0]|
    {
      if a in w.accepted {
        assert FromPeer(e, a.0);
      }
    }
  }

  /** The fields of the opened epoch are what the new conversation makes them. */
  lemma NextFields(w: World, v: World, t: RatchetState, e: nat, n: nat, newSecret: Secret, u: RatchetState)
    requires Shape(w) && Shape(v) && |w.epochs| == e + 2 && n < |w.sent[e + 1]|
    requires v.sk == w.sk && v.epochs == w.epochs + [newSecret] && v.sent == w.sent + [[]]
    requires var root, dh := RootAt(w.sk, w.epochs, e + 1), SharedSecret(w.epochs[e + 1], newSecret);
             t == RatchetState(RootHalf(root, dh), newSecret, Some(Of(w.epochs[e + 1])), Some(ChainHalf(root, dh)),
                               Some(Advance(ChainAt(w.sk, w.epochs, e + 1), n)), 0, n, |w.sent[e]|, t.skipped)
    requires u == t.(recvChain := Some(NextChain(t.recvChain.value)), nRecv := n + 1)
    ensures var k := e + 2;
            && u.rootKey == RootAt(v.sk, v.epochs, k) && u.dhsSecret == v.epochs[k] && u.dhr == Some(Of(v.epochs[k - 1]))
            && u.nSend == |v.sent[k]| && u.prevChainLen == |v.sent[k - 2]| && u.nRecv <= |v.sent[k - 1]|
            && u.sendChain == Some(Advance(ChainAt(v.sk, v.epochs, k), u.nSend))
            && u.recvChain == Some(Advance(ChainAt(v.sk, v.epochs, k - 1), u.nRecv))
  {
    NewEpochKeys(w, v, newSecret, e + 2);
  }

  lemma NextStore(w: World, v: World, s: RatchetState, e: nat, n: nat, newSecret: Secret, closed: Store, grown: Store)
    requires Shape(w) && Shape(v) && Aligned(w, s, e) && |w.epochs| == e + 2 && n < |w.sent[e + 1]|
    requires v.sk == w.sk && v.epochs == w.epochs + [newSecret] && v.sent == w.sent + [[]]
    requires v.accepted == w.accepted + {(e + 1, n)} && grown.Valid()
    requires GrewByClosing(w, s.skipped, closed, e, s.nRecv)
    requires GrewBy(closed, grown, Of(w.epochs[e + 1]), ChainAt(w.sk, w.epochs, e + 1), 0, n)
    ensures StoreAligned(v, grown, e + 2, n + 1)
  {
    SteppedStays(w, v, s.skipped, closed, grown, e, s.nRecv, n);
  }

  /** The fields of the opened epoch, and a store that fits the new conversation. */
  lemma OpenedEpoch(w: World, v: World, s: RatchetState, e: nat, n: nat, newSecret: Secret) returns (t: RatchetState)
    requires Shape(w) && Shape(v) && Aligned(w, s, e) && |w.epochs| == e + 2 && DeliverableTo(w, s, e, e + 1, n)
    requires v.sk == w.sk && v.epochs == w.epochs + [newSecret] && v.sent == w.sent + [[]]
    requires v.accepted == w.accepted + {(e + 1, n)}
    ensures Positioned(s, Genuine(w, e + 1, n).header, newSecret) == Ok(t)
    ensures var root, dh := RootAt(w.sk, w.epochs, e + 1), SharedSecret(w.epochs[e + 1], newSecret);
            t == RatchetState(RootHalf(root, dh), newSecret, Some(Of(w.epochs[e + 1])), Some(ChainHalf(root, dh)),
                              Some(Advance(ChainAt(w.sk, w.epochs, e + 1), n)), 0, n, |w.sent[e]|, t.skipped)
    ensures StoreAligned(v, t.skipped, e + 2, n + 1)
  {
    t := SteppedFields(w, s, e, n, newSecret);
    var closed := SteppedGrows(w, s, e, n, newSecret, t);
    NextStore(w, v, s, e, n, newSecret, closed, t.skipped);
  }

  lemma Assembled(v: World, u: RatchetState, k: nat)
    requires Shape(v) && 2 <= k < |v.epochs|
    requires u.rootKey == RootAt(v.sk, v.epochs, k) && u.dhsSecret == v.epochs[k] && u.dhr == Some(Of(v.epochs[k - 1]))
    requires u.nSend == |v.sent[k]| && u.prevChainLen == |v.sent[k - 2]| && u.nRecv <= |v.sent[k - 1]|
    requires u.sendChain == Some(Advance(ChainAt(v.sk, v.epochs, k), u.nSend))
    requires u.recvChain == Some(Advance(ChainAt(v.sk, v.epochs, k - 1), u.nRecv))
    requires StoreAligned(v, u.skipped, k, u.nRecv)
    requires forall a | a in v.accepted && FromPeer(k, a.0) :: Passed(k, u.nRecv, a.0, a.1) && a.1 < |v.sent[a.0]|
    ensures Aligned(v, u, k)
  {
  }

  lemma OpenedIsAligned(w: World, v: World, s: RatchetState, e: nat, n: nat, newSecret: Secret, t: RatchetState, u: RatchetState)
    requires Shape(w) && Shape(v) && Aligned(w, s, e) && |w.epochs| == e + 2 && n < |w.sent[e + 1]|
    requires v.sk == w.sk && v.epochs == w.epochs + [newSecret] && v.sent == w.sent + [[]]
    requires v.accepted == w.accepted + {(e + 1, n)} && forall a | a in w.accepted :: 1 <= a.0 < |w.epochs|
    requires var root, dh := RootAt(w.sk, w.epochs, e + 1), SharedSecret(w.epochs[e + 1], newSecret);
             t == RatchetState(RootHalf(root, dh), newSecret, Some(Of(w.epochs[e + 1])), Some(ChainHalf(root, dh)),
                               Some(Advance(ChainAt(w.sk, w.epochs, e + 1), n)), 0, n, |w.sent[e]|, t.skipped)
    requires u == t.(recvChain := Some(NextChain(t.recvChain.value)), nRecv := n + 1)
    requires StoreAligned(v, u.skipped, e + 2, n + 1)
    ensures Aligned(v, u, e + 2)
  {
    NextFields(w, v, t, e, n, newSecret, u);
    AcceptedOnNext(w, v, s, e, n);
    Assembled(v, u, e + 2);
  }

  /** The world after an accepted delivery, in terms of the receiver's new state. */
  lemma NextOfAccepted(w: World, p: Party, msg: RatchetMessage, newSecret: Secret, after: RatchetState, i: nat)
    requires Shape(w) && i < |w.epochs| && msg.header.dh == Of(w.epochs[i])
    requires Decrypted(StateOf(w, p), msg, newSecret).Ok? && Decrypted(StateOf(w, p), msg, newSecret).value.0 == after
    ensures var v, stays := Next(w, Deliver(p, msg, newSecret)), after.dhsSecret == StateOf(w, p).dhsSecret;
            v == World(w.sk, if stays then w.epochs else w.epochs + [newSecret], if stays then w.sent else w.sent + [[]],
                       if p.Initiator? then after else w.initiator, if p.Initiator? then w.responder else after,
                       w.accepted + {(i, msg.header.n)})
  {
    assert EpochNamed(w, msg.header.dh) == Some(i);
  }

  /** What the conversation becomes when `p` accepts message `n` of epoch `i`. */
  ghost predicate AcceptedBy(w: World, p: Party, i: nat, n: nat, newSecret: Secret, v: World)
    requires |w.epochs| >= 2
  {
    && v.sk == w.sk
    && v.accepted == w.accepted + {(i, n)}
    && StateOf(v, Peer(p)) == StateOf(w, Peer(p))
    && (if i == EpochOf(w, p) + 1 then v.epochs == w.epochs + [newSecret] && v.sent == w.sent + [[]]
        else v.epochs == w.epochs && v.sent == w.sent)
  }

  lemma StoredWorld(w: World, p: Party, i: nat, n: nat, newSecret: Secret) returns (v: World)
    requires Shape(w) && AlignedParty(w, p) && Deliverable(w, p, i, n) && Stored(w, StateOf(w, p), i, n)
    ensures v == Next(w, Deliver(p, Genuine(w, i, n), newSecret)) && Shape(v)
    ensures v == w.(accepted := w.accepted + {(i, n)}, initiator := v.initiator, responder := v.responder)
    ensures StateOf(v, Peer(p)) == StateOf(w, Peer(p)) && i != EpochOf(w, p) + 1
    ensures var s := StateOf(w, p); StateOf(v, p) == s.(skipped := Taken(s.skipped, (Of(w.epochs[i]), n)).value.1)
  {
    var s, msg := StateOf(w, p), Genuine(w, i, n);
    DeliverableIsAccepted(w, p, i, n, newSecret);
    StoredKey(w, s, EpochOf(w, p), i, n);
    var after := s.(skipped := Taken(s.skipped, (Of(w.epochs[i]), n)).value.1);
    v := Next(w, Deliver(p, msg, newSecret));
    NextOfAccepted(w, p, msg, newSecret, after, i);
  }

  lemma PartyInPlace(w: World, v: World, p: Party, i: nat, n: nat)
    requires Shape(v) && v.epochs == w.epochs && Aligned(v, StateOf(v, p), EpochOf(w, p))
    requires v.accepted == w.accepted + {(i, n)} && 1 <= i < |w.epochs|
    requires forall a | a in w.accepted :: 1 <= a.0 < |w.epochs|
    ensures AlignedParty(v, p)
  {
  }

  lemma TakerStays(w: World, v: World, p: Party, i: nat, n: nat)
    requires Shape(w) && Shape(v) && AlignedParty(w, p) && IsSent(w, i, n) && Stored(w, StateOf(w, p), i, n)
    requires v == w.(accepted := w.accepted + {(i, n)}, initiator := v.initiator, responder := v.responder)
    requires var s := StateOf(w, p); StateOf(v, p) == s.(skipped := Taken(s.skipped, (Of(w.epochs[i]), n)).value.1)
    ensures AlignedParty(v, p)
  {
    ReceiverStored(w, v, StateOf(w, p), EpochOf(w, p), i, n);
    PartyInPlace(w, v, p, i, n);
  }

  lemma AcceptedStored(w: World, p: Party, i: nat, n: nat, newSecret: Secret) returns (v: World)
    requires Shape(w) && AlignedParty(w, p) && Deliverable(w, p, i, n) && Stored(w, StateOf(w, p), i, n)
    ensures v == Next(w, Deliver(p, Genuine(w, i, n), newSecret)) && Shape(v)
    ensures AcceptedBy(w, p, i, n, newSecret, v) && AlignedParty(v, p)
  {
    v := StoredWorld(w, p, i, n, newSecret);
    TakerStays(w, v, p, i, n);
  }

  lemma NotStored(w: World, p: Party, i: nat, n: nat)
    requires Shape(w) && AlignedParty(w, p) && IsSent(w, i, n)
    requires !Passed(EpochOf(w, p), StateOf(w, p).nRecv, i, n)
    ensures !Stored(w, StateOf(w, p), i, n)
  {
    if Stored(w, StateOf(w, p), i, n) {
      StoredKey(w, StateOf(w, p), EpochOf(w, p), i, n);
    }
  }

  /** The message opens under the key of its own chain and counter, and gives the plaintext sent. */
  lemma GenuineOpens(w: World, i: nat, n: nat)
    requires Shape(w) && IsSent(w, i, n)
    ensures Unseal(MessageKey(Advance(ChainAt(w.sk, w.epochs, i), n)), Genuine(w, i, n)) == Ok(w.sent[i][n])
  {
    UnpadUndoesPad(w.sent[i][n]);
  }

  lemma DecryptedOnTheChain(s: RatchetState, msg: RatchetMessage, newSecret: Secret, t: RatchetState, plaintext: seq<byte>)
    requires (msg.header.dh, msg.header.n) !in s.skipped.byId && Positioned(s, msg.header, newSecret) == Ok(t)
    requires t.recvChain.Some? && t.nRecv < U32_MAX && Unseal(MessageKey(t.recvChain.value), msg) == Ok(plaintext)
    ensures Decrypted(s, msg, newSecret)
         == Ok((t.(recvChain := Some(NextChain(t.recvChain.value)), nRecv := t.nRecv + 1), plaintext))
  {
  }

  /** Accepting a message ahead of the receiving position: the state is the position's, one step on. */
  lemma AheadState(w: World, s: RatchetState, i: nat, n: nat, newSecret: Secret, t: RatchetState)
    requires Shape(w) && IsSent(w, i, n) && !Stored(w, s, i, n)
    requires Positioned(s, Genuine(w, i, n).header, newSecret) == Ok(t)
    requires t.recvChain == Some(Advance(ChainAt(w.sk, w.epochs, i), n)) && t.nRecv == n < U32_MAX
    ensures Decrypted(s, Genuine(w, i, n), newSecret)
         == Ok((t.(recvChain := Some(NextChain(t.recvChain.value)), nRecv := n + 1), w.sent[i][n]))
  {
    GenuineOpens(w, i, n);
    DecryptedOnTheChain(s, Genuine(w, i, n), newSecret, t, w.sent[i][n]);
  }

  lemma SecretTakenUp(w: World, s: RatchetState, e: nat, i: nat, n: nat, newSecret: Secret, t: RatchetState)
    requires Shape(w) && Aligned(w, s, e) && |w.epochs| == e + 2 && i == e + 1 && DeliverableTo(w, s, e, i, n)
    requires Positioned(s, Genuine(w, i, n).header, newSecret) == Ok(t) && newSecret !in w.epochs
    ensures t.dhsSecret == newSecret && newSecret != s.dhsSecret
  {
    var u := SteppedFields(w, s, e, n, newSecret);
  }

  /** A fresh key is taken up exactly when the message opens the peer's next epoch. */
  lemma AheadPosition(w: World, p: Party, i: nat, n: nat, newSecret: Secret) returns (t: RatchetState)
    requires Shape(w) && AlignedParty(w, p) && Deliverable(w, p, i, n) && newSecret !in w.epochs
    requires !Passed(EpochOf(w, p), StateOf(w, p).nRecv, i, n)
    ensures Positioned(StateOf(w, p), Genuine(w, i, n).header, newSecret) == Ok(t)
    ensures t.recvChain == Some(Advance(ChainAt(w.sk, w.epochs, i), n)) && t.nRecv == n < U32_MAX
    ensures t.dhsSecret == if i == EpochOf(w, p) + 1 then newSecret else StateOf(w, p).dhsSecret
    ensures (t.dhsSecret == StateOf(w, p).dhsSecret) == (i != EpochOf(w, p) + 1)
    ensures if i == EpochOf(w, p) + 1 then |w.epochs| == EpochOf(w, p) + 2 else i + 1 == EpochOf(w, p)
  {
    var s, e := StateOf(w, p), EpochOf(w, p);
    PositionedFor(w, s, e, i, n, newSecret);
    t := Positioned(s, Genuine(w, i, n).header, newSecret).value;
    if i == e + 1 {
      SecretTakenUp(w, s, e, i, n, newSecret, t);
    }
  }

  lemma AheadDecrypted(w: World, p: Party, i: nat, n: nat, newSecret: Secret) returns (t: RatchetState)
    requires Shape(w) && AlignedParty(w, p) && Deliverable(w, p, i, n) && newSecret !in w.epochs
    requires !Passed(EpochOf(w, p), StateOf(w, p).nRecv, i, n)
    ensures Positioned(StateOf(w, p), Genuine(w, i, n).header, newSecret) == Ok(t) && t.recvChain.Some?
    ensures Decrypted(StateOf(w, p), Genuine(w, i, n), newSecret)
         == Ok((t.(recvChain := Some(NextChain(t.recvChain.value)), nRecv := n + 1), w.sent[i][n]))
    ensures (t.dhsSecret == StateOf(w, p).dhsSecret) == (i != EpochOf(w, p) + 1)
    ensures if i == EpochOf(w, p) + 1 then |w.epochs| == EpochOf(w, p) + 2 else i + 1 == EpochOf(w, p)
  {
    t := AheadPosition(w, p, i, n, newSecret);
    NotStored(w, p, i, n);
    AheadState(w, StateOf(w, p), i, n, newSecret, t);
  }

  lemma ShapeGrows(w: World, v: World, newSecret: Secret)
    requires Shape(w) && newSecret !in w.epochs && v.sk == w.sk
    requires v.epochs == w.epochs + [newSecret] && v.sent == w.sent + [[]]
    ensures Shape(v)
  {
  }

  /** The world after accepting a message ahead of the receiving position, which the receiver is first moved to. */
  lemma AheadWorld(w: World, p: Party, i: nat, n: nat, newSecret: Secret) returns (v: World, t: RatchetState)
    requires Shape(w) && AlignedParty(w, p) && Deliverable(w, p, i, n) && newSecret !in w.epochs
    requires !Passed(EpochOf(w, p), StateOf(w, p).nRecv, i, n)
    ensures v == Next(w, Deliver(p, Genuine(w, i, n), newSecret)) && Shape(v) && AcceptedBy(w, p, i, n, newSecret, v)
    ensures Positioned(StateOf(w, p), Genuine(w, i, n).header, newSecret) == Ok(t) && t.recvChain.Some?
    ensures StateOf(v, p) == t.(recvChain := Some(NextChain(t.recvChain.value)), nRecv := n + 1)
    ensures if i == EpochOf(w, p) + 1 then |w.epochs| == EpochOf(w, p) + 2 else i + 1 == EpochOf(w, p)
  {
    t := AheadDecrypted(w, p, i, n, newSecret);
    var after := t.(recvChain := Some(NextChain(t.recvChain.value)), nRecv := n + 1);
    v := Next(w, Deliver(p, Genuine(w, i, n), newSecret));
    NextOfAccepted(w, p, Genuine(w, i, n), newSecret, after, i);
    if i == EpochOf(w, p) + 1 {
      ShapeGrows(w, v, newSecret);
    }
  }

  lemma AheadOnCurrent(w: World, p: Party, i: nat, n: nat, newSecret: Secret, v: World, t: RatchetState)
    requires Shape(w) && Shape(v) && AlignedParty(w, p) && Deliverable(w, p, i, n) && i + 1 == EpochOf(w, p)
    requires !Passed(EpochOf(w, p), StateOf(w, p).nRecv, i, n)
    requires Positioned(StateOf(w, p), Genuine(w, i, n).header, newSecret) == Ok(t) && t.recvChain.Some?
    requires StateOf(v, p) == t.(recvChain := Some(NextChain(t.recvChain.value)), nRecv := n + 1)
    requires v == w.(accepted := w.accepted + {(i, n)}, initiator := v.initiator, responder := v.responder)
    ensures AlignedParty(v, p)
  {
    var x, u := ReceiverCurrent(w, v, StateOf(w, p), EpochOf(w, p), n, newSecret);
    PartyInPlace(w, v, p, i, n);
  }

  lemma AheadOnNext(w: World, p: Party, e: nat, n: nat, newSecret: Secret, v: World, t: RatchetState)
    requires Shape(w) && Shape(v) && AlignedParty(w, p) && e == EpochOf(w, p) && |w.epochs| == e + 2
    requires IsSent(w, e + 1, n)
    requires v.sk == w.sk && v.epochs == w.epochs + [newSecret] && v.sent == w.sent + [[]]
    requires v.accepted == w.accepted + {(e + 1, n)}
    requires var root, dh := RootAt(w.sk, w.epochs, e + 1), SharedSecret(w.epochs[e + 1], newSecret);
             t == RatchetState(RootHalf(root, dh), newSecret, Some(Of(w.epochs[e + 1])), Some(ChainHalf(root, dh)),
                               Some(Advance(ChainAt(w.sk, w.epochs, e + 1), n)), 0, n, |w.sent[e]|, t.skipped)
    requires StateOf(v, p) == t.(recvChain := Some(NextChain(t.recvChain.value)), nRecv := n + 1)
    requires StoreAligned(v, t.skipped, e + 2, n + 1)
    ensures AlignedParty(v, p)
  {
    OpenedIsAligned(w, v, StateOf(w, p), e, n, newSecret, t, StateOf(v, p));
    PartyMovedOn(w, v, p, e + 1, n);
  }

  lemma PartyMovedOn(w: World, v: World, p: Party, i: nat, n: nat)
    requires Shape(w) && Shape(v) && |w.epochs| == EpochOf(w, p) + 2 == |v.epochs| - 1 && i == EpochOf(w, p) + 1
    requires Aligned(v, StateOf(v, p), EpochOf(w, p) + 2) && v.accepted == w.accepted + {(i, n)}
    requires forall a | a in w.accepted :: 1 <= a.0 < |w.epochs|
    ensures AlignedParty(v, p)
  {
    assert EpochOf(v, p) == EpochOf(w, p) + 2;
  }

  lemma AcceptedAhead(w: World, p: Party, i: nat, n: nat, newSecret: Secret) returns (v: World)
    requires Shape(w) && AlignedParty(w, p) && Deliverable(w, p, i, n) && newSecret !in w.epochs
    requires !Passed(EpochOf(w, p), StateOf(w, p).nRecv, i, n)
    ensures v == Next(w, Deliver(p, Genuine(w, i, n), newSecret)) && Shape(v)
    ensures AcceptedBy(w, p, i, n, newSecret, v) && AlignedParty(v, p)
  {
    var t;
    v, t := AheadWorld(w, p, i, n, newSecret);
    if i == EpochOf(w, p) + 1 {
      var x := OpenedEpoch(w, v, StateOf(w, p), EpochOf(w, p), n, newSecret);
      AheadOnNext(w, p, EpochOf(w, p), n, newSecret, v, x);
    } else {
      AheadOnCurrent(w, p, i, n, newSecret, v, t);
    }
  }

  /** A delivery that is accepted, spelled out: which message it was, and what the world becomes. */
  lemma AcceptedDelivery(w: World, p: Party, msg: RatchetMessage, newSecret: Secret)
    returns (i: nat, n: nat, v: World)
    requires Inv(w) && Allowed(w, Deliver(p, msg, newSecret))
    requires Decrypted(StateOf(w, p), msg, newSecret).Ok?
    ensures v == Next(w, Deliver(p, msg, newSecret)) && Shape(v)
    ensures Deliverable(w, p, i, n) && msg == Genuine(w, i, n) && (i, n) !in w.accepted
    ensures AcceptedBy(w, p, i, n, newSecret, v) && AlignedParty(v, p)
  {
    i, n := AcceptsOnlyDeliverable(w, p, msg, newSecret);
    v := AcceptedDeliverable(w, p, i, n, newSecret);
  }

  lemma AcceptedDeliverable(w: World, p: Party, i: nat, n: nat, newSecret: Secret) returns (v: World)
    requires Shape(w) && AlignedParty(w, p) && Deliverable(w, p, i, n) && newSecret !in w.epochs
    ensures v == Next(w, Deliver(p, Genuine(w, i, n), newSecret)) && Shape(v)
    ensures AcceptedBy(w, p, i, n, newSecret, v) && AlignedParty(v, p)
  {
    if Passed(EpochOf(w, p), StateOf(w, p).nRecv, i, n) {
      v := AcceptedStored(w, p, i, n, newSecret);
    } else {
      v := AcceptedAhead(w, p, i, n, newSecret);
    }
  }

  /** The party that did not accept keeps its epoch: a new one is always the accepting party's. */
  lemma PeerKeepsItsEpoch(w: World, p: Party, i: nat, n: nat, newSecret: Secret, v: World)
    requires |w.epochs| >= 3 && FromPeer(EpochOf(w, p), i) && i < |w.epochs| && AcceptedBy(w, p, i, n, newSecret, v)
    ensures |v.epochs| >= 2 && EpochOf(v, Peer(p)) == EpochOf(w, Peer(p)) && !FromPeer(EpochOf(w, Peer(p)), i)
  {
  }

  lemma PeerStays(w: World, p: Party, i: nat, n: nat, newSecret: Secret, v: World)
    requires Shape(w) && Shape(v) && AlignedParty(w, Peer(p)) && FromPeer(EpochOf(w, p), i) && IsSent(w, i, n)
    requires AcceptedBy(w, p, i, n, newSecret, v)
    ensures AlignedParty(v, Peer(p))
  {
    PeerKeepsItsEpoch(w, p, i, n, newSecret, v);
    BystanderParty(w, v, Peer(p));
  }

  lemma DeliverKeepsInv(w: World, p: Party, msg: RatchetMessage, newSecret: Secret)
    requires Inv(w) && Allowed(w, Deliver(p, msg, newSecret))
    ensures Inv(Next(w, Deliver(p, msg, newSecret)))
  {
    if Decrypted(StateOf(w, p), msg, newSecret).Ok? {
      var i, n, v := AcceptedDelivery(w, p, msg, newSecret);
      PeerStays(w, p, i, n, newSecret, v);
      BothParties(v, p);
    }
  }
}
