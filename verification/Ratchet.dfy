/**
 The Double Ratchet of crates/obby-client/src/e2ee.rs:660-869: the bounded store of skipped message
 keys, and one party's half of a session. Each class is proved against functions on a value of its
 state, which the protocol proofs then use.
 */
module SkippedKeyStore {
  import opened Wrappers
  import opened Integers
  import opened Crypto

  const MAX_SKIPPED_KEYS: nat := 2000

  type KeyId = (PublicKey, u32)

  function Elements(order: seq<KeyId>): set<KeyId> {
    set id | id in order
  }

  ghost predicate NoRepeats(order: seq<KeyId>) {
    forall i, j | 0 <= i < j < |order| :: order[i] != order[j]
  }

  datatype Store = Store(byId: map<KeyId, Term>, order: seq<KeyId>) {
    ghost predicate Valid() {
      && NoRepeats(order)
      && Elements(order) == byId.Keys
      && |order| <= MAX_SKIPPED_KEYS
    }
  }

  const EMPTY: Store := Store(map[], [])

  function Without(order: seq<KeyId>, id: KeyId): (rest: seq<KeyId>)
    ensures forall x :: x in rest <==> x in order && x != id
    ensures |rest| <= |order|
    ensures id in order ==> |rest| < |order|
    ensures NoRepeats(order) ==> NoRepeats(rest)
  {
    if order == [] then []
    else
      var front, last := order[..|order| - 1], order[|order| - 1];
      assert NoRepeats(order) ==> NoRepeats(front) && last !in front;
      if last == id then Without(front, id) else Without(front, id) + [last]
  }

  function Evict(s: Store): Store
    decreases |s.order|
  {
    if |s.order| > MAX_SKIPPED_KEYS then Evict(Store(s.byId - {s.order[0]}, s.order[1..])) else s
  }

  function Inserted(s: Store, id: KeyId, key: Term): Store {
    Evict(Store(s.byId[id := key], if id in s.byId then s.order else s.order + [id]))
  }

  /** Removing one key: the key, if it was there, and the store that is left. */
  function Taken(s: Store, id: KeyId): Option<(Term, Store)> {
    if id in s.byId then Some((s.byId[id], Store(s.byId - {id}, Without(s.order, id)))) else None
  }

  lemma InsertReplaces(s: Store, id: KeyId, key: Term)
    requires s.Valid() && id in s.byId
    ensures Inserted(s, id, key) == Store(s.byId[id := key], s.order) && Inserted(s, id, key).Valid()
  {
    assert s.byId[id := key].Keys == s.byId.Keys;
  }

  lemma InsertAppends(s: Store, id: KeyId, key: Term)
    requires s.Valid() && id !in s.byId && |s.order| < MAX_SKIPPED_KEYS
    ensures Inserted(s, id, key) == Store(s.byId[id := key], s.order + [id]) && Inserted(s, id, key).Valid()
  {
    assert Elements(s.order + [id]) == s.byId[id := key].Keys;
  }

  lemma InsertEvicts(s: Store, id: KeyId, key: Term)
    requires s.Valid() && id !in s.byId && |s.order| == MAX_SKIPPED_KEYS
    ensures Inserted(s, id, key) == Store(s.byId[id := key] - {s.order[0]}, s.order[1..] + [id])
    ensures Inserted(s, id, key).Valid()
  {
    var grown := s.order + [id];
    var left := Store(s.byId[id := key] - {grown[0]}, grown[1..]);
    assert grown[1..] == s.order[1..] + [id] && grown[0] == s.order[0];
    assert Evict(Store(s.byId[id := key], grown)) == Evict(left) == left;
    OldestIsGone(s, id, key);
  }

  lemma WithoutTheOldest(order: seq<KeyId>)
    requires NoRepeats(order) && order != []
    ensures NoRepeats(order[1..]) && Elements(order[1..]) == Elements(order) - {order[0]}
  {
    assert order == [order[0]] + order[1..];
  }

  lemma WithANewest(order: seq<KeyId>, id: KeyId)
    requires NoRepeats(order) && id !in order
    ensures NoRepeats(order + [id]) && Elements(order + [id]) == Elements(order) + {id}
  {
  }

  lemma OldestIsGone(s: Store, id: KeyId, key: Term)
    requires s.Valid() && id !in s.byId && |s.order| == MAX_SKIPPED_KEYS
    ensures Store(s.byId[id := key] - {s.order[0]}, s.order[1..] + [id]).Valid()
  {
    WithoutTheOldest(s.order);
    assert id !in Elements(s.order);
    WithANewest(s.order[1..], id);
    assert s.order[0] in Elements(s.order);
    assert (s.byId[id := key] - {s.order[0]}).Keys == s.byId.Keys + {id} - {s.order[0]};
  }

  /**
   What an insertion does to a valid store: a key already held is replaced in place; a new one goes to
   the back, and when that makes one too many it is exactly the oldest key that goes.
   */
  lemma InsertKeepsTheNewest(s: Store, id: KeyId, key: Term)
    requires s.Valid()
    ensures Inserted(s, id, key).Valid()
    ensures id in s.byId ==> Inserted(s, id, key) == Store(s.byId[id := key], s.order)
    ensures id !in s.byId && |s.order| < MAX_SKIPPED_KEYS ==>
              Inserted(s, id, key) == Store(s.byId[id := key], s.order + [id])
    ensures id !in s.byId && |s.order| == MAX_SKIPPED_KEYS ==>
              Inserted(s, id, key) == Store(s.byId[id := key] - {s.order[0]}, s.order[1..] + [id])
  {
    if id in s.byId {
      InsertReplaces(s, id, key);
    } else if |s.order| < MAX_SKIPPED_KEYS {
      InsertAppends(s, id, key);
    } else {
      InsertEvicts(s, id, key);
    }
  }

  lemma TakeKeepsValid(s: Store, id: KeyId)
    requires s.Valid() && id in s.byId
    ensures Taken(s, id).value.1.Valid()
    ensures id !in Taken(s, id).value.1.byId
    ensures |Taken(s, id).value.1.order| < |s.order|
  {
  }

  class SkippedKeys {
    var byId: map<KeyId, Term>
    var order: seq<KeyId>

    function State(): Store
      reads this
    {
      Store(byId, order)
    }

    constructor ()
      ensures State() == EMPTY
    {
      byId := map[];
      order := [];
    }

    constructor Clone(other: SkippedKeys)
      ensures State() == other.State()
    {
      byId := other.byId;
      order := other.order;
    }

    method Insert(dh: PublicKey, n: u32, key: Term)
      modifies this
      ensures State() == Inserted(old(State()), (dh, n), key)
    {
      var id := (dh, n);
      if id !in byId {
        order := order + [id];
      }
      byId := byId[id := key];
      while |order| > MAX_SKIPPED_KEYS
        invariant Evict(State()) == Inserted(old(State()), (dh, n), key)
      {
        byId, order := byId - {order[0]}, order[1..];
      }
    }

    method Take(dh: PublicKey, n: u32) returns (key: Option<Term>)
      modifies this
      ensures match Taken(old(State()), (dh, n))
              case None => key == None && State() == old(State())
              case Some(taken) => key == Some(taken.0) && State() == taken.1
    {
      var id := (dh, n);
      if id !in byId {
        return None;
      }
      key := Some(byId[id]);
      byId := byId - {id};
      var kept: seq<KeyId> := [];
      for i := 0 to |order|
        invariant kept == Without(order[..i], id)
        invariant order == old(order) && byId == old(byId) - {id}
        invariant key == Some(old(byId)[id])
      {
        assert order[..i + 1][..i] == order[..i];
        if order[i] != id {
          kept := kept + [order[i]];
        }
      }
      assert order[..|order|] == order;
      order := kept;
    }
  }
}

module Ratchets {
  import opened Wrappers
  import opened Integers
  import opened Padding
  import opened Crypto
  import opened SkippedKeyStore

  const MAX_SKIP: nat := 1000

  datatype RatchetState = RatchetState(
    rootKey: Term,
    dhsSecret: Secret,
    dhr: Option<PublicKey>,
    sendChain: Option<Term>,
    recvChain: Option<Term>,
    nSend: u32,
    nRecv: u32,
    prevChainLen: u32,
    skipped: Store)

  function InitAsInitiator(rootKey: Term, ownSecret: Secret): RatchetState {
    RatchetState(rootKey, ownSecret, None, None, None, 0, 0, 0, EMPTY)
  }

  function InitAsResponder(rootKey: Term, ownSecret: Secret, theirs: PublicKey): Result<RatchetState, Error> {
    match DiffieHellman(ownSecret, theirs)
    case Err(e) => Err(e)
    case Ok(dh) =>
      Ok(RatchetState(RootHalf(rootKey, dh), ownSecret, Some(theirs), Some(ChainHalf(rootKey, dh)), None,
                      0, 0, 0, EMPTY))
  }

  /**
   One encryption: the state after it, and what it answers. The chain moves before the counter is
   checked, so a refused encryption at the last counter still moves the chain.
   */
  function Encrypted(s: RatchetState, plaintext: seq<byte>): (RatchetState, Result<RatchetMessage, Error>) {
    if s.sendChain.None? then (s, Err(NoChain))
    else
      var moved := s.(sendChain := Some(NextChain(s.sendChain.value)));
      if s.nSend == U32_MAX then (moved, Err(CounterOverflow))
      else
        var header := Header(Of(s.dhsSecret), s.prevChainLen, s.nSend);
        (moved.(nSend := s.nSend + 1),
         Ok(RatchetMessage(header, Seal(MessageKey(s.sendChain.value), header, plaintext))))
  }

  /** Pass over one counter of the receiving chain, keeping its key. */
  function SkipOne(s: RatchetState): RatchetState
    requires s.dhr.Some? && s.recvChain.Some? && s.nRecv < U32_MAX
  {
    s.(skipped := Inserted(s.skipped, (s.dhr.value, s.nRecv), MessageKey(s.recvChain.value)),
       recvChain := Some(NextChain(s.recvChain.value)),
       nRecv := s.nRecv + 1)
  }

  function SkipMany(s: RatchetState, count: nat): (after: RatchetState)
    requires s.dhr.Some? && s.recvChain.Some? && s.nRecv + count <= U32_MAX
    decreases count
  {
    if count == 0 then s else SkipMany(SkipOne(s), count - 1)
  }

  function SkippedTo(s: RatchetState, until: u32): Result<RatchetState, Error> {
    if s.dhr.None? || s.recvChain.None? || until <= s.nRecv then Ok(s)
    else if until - s.nRecv > MAX_SKIP then Err(TooManySkipped)
    else Ok(SkipMany(s, until - s.nRecv))
  }

  /** A DH ratchet step towards `theirs`, taking `newSecret` as the new keypair. */
  function DhStep(s: RatchetState, theirs: PublicKey, newSecret: Secret): Result<RatchetState, Error> {
    match theirs
    case SmallOrder(_) => Err(NonContributoryDh)
    case Of(other) =>
      var dhIn := SharedSecret(s.dhsSecret, other);
      var dhOut := SharedSecret(newSecret, other);
      var root := RootHalf(s.rootKey, dhIn);
      Ok(RatchetState(RootHalf(root, dhOut), newSecret, Some(theirs), Some(ChainHalf(root, dhOut)),
                      Some(ChainHalf(s.rootKey, dhIn)), 0, 0, s.nSend, s.skipped))
  }

  /** Bring the receiving side to the position a header names, on a working copy. */
  function Positioned(s: RatchetState, header: Header, newSecret: Secret): Result<RatchetState, Error> {
    if s.dhr == Some(header.dh) then SkippedTo(s, header.n)
    else
      match SkippedTo(s, header.pn)
      case Err(e) => Err(e)
      case Ok(closed) =>
        match DhStep(closed, header.dh, newSecret)
        case Err(e) => Err(e)
        case Ok(stepped) => SkippedTo(stepped, header.n)
  }

  /** One decryption: the state that results, and the plaintext. Nothing changes unless it succeeds. */
  function Decrypted(s: RatchetState, msg: RatchetMessage, newSecret: Secret): Result<(RatchetState, seq<byte>), Error> {
    match Taken(s.skipped, (msg.header.dh, msg.header.n))
    case Some(taken) =>
      (match Unseal(taken.0, msg)
       case Err(e) => Err(e)
       case Ok(plaintext) => Ok((s.(skipped := taken.1), plaintext)))
    case None =>
      match Positioned(s, msg.header, newSecret)
      case Err(e) => Err(e)
      case Ok(t) =>
        if t.recvChain.None? then Err(NoChain)
        else if t.nRecv == U32_MAX then Err(CounterOverflow)
        else
          match Unseal(MessageKey(t.recvChain.value), msg)
          case Err(e) => Err(e)
          case Ok(plaintext) =>
            Ok((t.(recvChain := Some(NextChain(t.recvChain.value)), nRecv := t.nRecv + 1), plaintext))
  }

  class Ratchet {
    var rootKey: Term
    var dhsSecret: Secret
    var dhr: Option<PublicKey>
    var sendChain: Option<Term>
    var recvChain: Option<Term>
    var nSend: u32
    var nRecv: u32
    var prevChainLen: u32
    var skipped: SkippedKeys

    function State(): RatchetState
      reads this, skipped
    {
      RatchetState(rootKey, dhsSecret, dhr, sendChain, recvChain, nSend, nRecv, prevChainLen, skipped.State())
    }

    constructor AsInitiator(rootKey: Term, ownSecret: Secret)
      ensures fresh(skipped) && State() == InitAsInitiator(rootKey, ownSecret)
    {
      this.rootKey, dhsSecret, dhr := rootKey, ownSecret, None;
      sendChain, recvChain := None, None;
      nSend, nRecv, prevChainLen := 0, 0, 0;
      skipped := new SkippedKeys();
    }

    /** `dh` is the agreement of `ownSecret` with `theirs`, which the caller has found contributory. */
    constructor AsResponder(rootKey: Term, ownSecret: Secret, theirs: PublicKey, dh: Term)
      requires DiffieHellman(ownSecret, theirs) == Ok(dh)
      ensures fresh(skipped) && Ok(State()) == InitAsResponder(rootKey, ownSecret, theirs)
    {
      this.rootKey, dhsSecret, dhr := RootHalf(rootKey, dh), ownSecret, Some(theirs);
      sendChain, recvChain := Some(ChainHalf(rootKey, dh)), None;
      nSend, nRecv, prevChainLen := 0, 0, 0;
      skipped := new SkippedKeys();
    }

    constructor Clone(other: Ratchet)
      ensures fresh(skipped) && State() == other.State()
    {
      rootKey, dhsSecret, dhr := other.rootKey, other.dhsSecret, other.dhr;
      sendChain, recvChain := other.sendChain, other.recvChain;
      nSend, nRecv, prevChainLen := other.nSend, other.nRecv, other.prevChainLen;
      skipped := new SkippedKeys.Clone(other.skipped);
    }

    method Encrypt(plaintext: seq<byte>) returns (r: Result<RatchetMessage, Error>)
      modifies this
      ensures skipped == old(skipped)
      ensures (State(), r) == Encrypted(old(State()), plaintext)
    {
      if sendChain.None? {
        return Err(NoChain);
      }
      var messageKey := MessageKey(sendChain.value);
      sendChain := Some(NextChain(sendChain.value));
      var header := Header(Of(dhsSecret), prevChainLen, nSend);
      if nSend == U32_MAX {
        return Err(CounterOverflow);
      }
      nSend := nSend + 1;
      var padded := Pad(plaintext);
      r := Ok(RatchetMessage(header, Sealed(messageKey, header, padded)));
    }

    /** Work on a copy and adopt it only once the tag has verified. */
    method Decrypt(msg: RatchetMessage, newSecret: Secret) returns (r: Result<seq<byte>, Error>)
      modifies this
      ensures skipped == old(skipped) || fresh(skipped)
      ensures match Decrypted(old(State()), msg, newSecret)
              case Err(e) => r == Err(e) && State() == old(State()) && skipped == old(skipped)
              case Ok(done) => r == Ok(done.1) && State() == done.0
    {
      var trial := new Ratchet.Clone(this);
      var stored := trial.skipped.Take(msg.header.dh, msg.header.n);
      if stored.Some? {
        r := Unseal(stored.value, msg);
        if r.Ok? {
          Adopt(trial);
        }
        return;
      }
      assert trial.State() == old(State());
      if trial.dhr != Some(msg.header.dh) {
        var closed := trial.SkipCurrentReceivingChain(msg.header.pn);
        if closed.Err? {
          return Err(closed.error);
        }
        var stepped := trial.DhRatchetReceive(msg.header.dh, newSecret);
        if stepped.Err? {
          return Err(stepped.error);
        }
      }
      var reached := trial.SkipCurrentReceivingChain(msg.header.n);
      if reached.Err? {
        return Err(reached.error);
      }
      assert Ok(trial.State()) == Positioned(old(State()), msg.header, newSecret);
      if trial.recvChain.None? {
        return Err(NoChain);
      }
      var messageKey := MessageKey(trial.recvChain.value);
      trial.recvChain := Some(NextChain(trial.recvChain.value));
      if trial.nRecv == U32_MAX {
        return Err(CounterOverflow);
      }
      trial.nRecv := trial.nRecv + 1;
      r := Unseal(messageKey, msg);
      if r.Ok? {
        Adopt(trial);
      }
    }

    method Adopt(other: Ratchet)
      modifies this
      ensures skipped == old(other.skipped) && State() == old(other.State())
    {
      rootKey, dhsSecret, dhr := other.rootKey, other.dhsSecret, other.dhr;
      sendChain, recvChain := other.sendChain, other.recvChain;
      nSend, nRecv, prevChainLen := other.nSend, other.nRecv, other.prevChainLen;
      skipped := other.skipped;
    }

    method SkipCurrentReceivingChain(until: u32) returns (r: Result<(), Error>)
      modifies this, skipped
      ensures skipped == old(skipped)
      ensures match SkippedTo(old(State()), until)
              case Err(e) => r == Err(e)
              case Ok(after) => r == Ok(()) && State() == after
    {
      if dhr.None? || recvChain.None? {
        return Ok(());
      }
      var chain := recvChain.value;
      recvChain := None;
      if until <= nRecv {
        recvChain := Some(chain);
        return Ok(());
      }
      var span := until - nRecv;
      if span > MAX_SKIP {
        recvChain := Some(chain);
        return Err(TooManySkipped);
      }
      for i := 0 to span
        invariant skipped == old(skipped) && dhr == old(dhr) && dhr.Some?
        invariant recvChain == None && nRecv == old(nRecv) + i
        invariant SkipMany(State().(recvChain := Some(chain)), span - i) == SkipMany(old(State()), span)
      {
        var here := State().(recvChain := Some(chain));
        skipped.Insert(dhr.value, nRecv, MessageKey(chain));
        chain := NextChain(chain);
        nRecv := nRecv + 1;
        assert State().(recvChain := Some(chain)) == SkipOne(here);
      }
      recvChain := Some(chain);
      r := Ok(());
    }

    method DhRatchetReceive(newDhr: PublicKey, newSecret: Secret) returns (r: Result<(), Error>)
      modifies this
      ensures skipped == old(skipped)
      ensures match DhStep(old(State()), newDhr, newSecret)
              case Err(e) => r == Err(e)
              case Ok(after) => r == Ok(()) && State() == after
    {
      prevChainLen := nSend;
      nSend, nRecv := 0, 0;
      dhr := Some(newDhr);
      var dhIn := DiffieHellman(dhsSecret, newDhr);
      if dhIn.Err? {
        return Err(dhIn.error);
      }
      recvChain := Some(ChainHalf(rootKey, dhIn.value));
      rootKey := RootHalf(rootKey, dhIn.value);
      dhsSecret := newSecret;
      // the point was contributory a moment ago, so the second exchange cannot be refused
      var dhOut := DiffieHellman(dhsSecret, newDhr);
      sendChain := Some(ChainHalf(rootKey, dhOut.value));
      rootKey := RootHalf(rootKey, dhOut.value);
      r := Ok(());
    }
  }
}
