/**
 The bounded, ordered log of one conversation and its index by id (crates/obby-client/src/model.rs:201-257). The
 index and the messages agree both ways, and the log keeps exactly the greatest keys whatever order they arrive in.
 */
module MessageLogs {
  import opened Wrappers
  import opened Integers
  import opened Maps
  import opened Orders

  datatype Key = Key(time: u64, seq_: u64)

  datatype Kind = Privmsg | Notice | Ctcp(command: string) | Tagmsg | Join | Part | Quit | Kick(target: string)
    | Nick(newNick: string) | Topic | Mode

  datatype ChatMessage = ChatMessage(key: Key, msgid: Option<string>, sender: string, kind: Kind, text: string)

  /** By time, then by arrival. */
  predicate Less(a: Key, b: Key) {
    a.time < b.time || (a.time == b.time && a.seq_ < b.seq_)
  }

  datatype Log = Log(messages: map<Key, ChatMessage>, byMsgid: map<string, Key>)

  const EMPTY := Log(map[], map[])

  // ---- the least key ----

  predicate IsLeast(keys: set<Key>, k: Key) {
    k in keys && forall j | j in keys :: j == k || Less(k, j)
  }

  lemma LessIsTotal()
    ensures StrictTotal(Less)
  {
  }

  function Least(keys: set<Key>): (k: Key)
    requires keys != {}
    ensures IsLeast(keys, k)
  {
    LessIsTotal();
    First(Less, keys)
  }

  // ---- inserting ----

  /** The next millisecond, or the last one again at the end of time. */
  function After(time: u64): u64 {
    if time < U64_MAX then time + 1 else U64_MAX
  }

  /** Stored at the same instant. The range is empty at the very last instant, where no repeat is found. */
  predicate SameInstant(k: Key, time: u64) {
    !Less(k, Key(time, 0)) && Less(k, Key(After(time), 0))
  }

  predicate Twins(a: ChatMessage, b: ChatMessage) {
    a.sender == b.sender && a.text == b.text && a.kind == b.kind
  }

  predicate HasTwin(log: Log, m: ChatMessage) {
    exists k | k in log.messages :: SameInstant(k, m.key.time) && Twins(log.messages[k], m)
  }

  /** Already known: by its id when it has one, by its content at that instant when it has none. */
  predicate Known(log: Log, m: ChatMessage) {
    match m.msgid
    case Some(id) => id in log.byMsgid
    case None => HasTwin(log, m)
  }

  function Put(log: Log, m: ChatMessage): Log {
    Log(log.messages[m.key := m], if m.msgid.Some? then log.byMsgid[m.msgid.value := m.key] else log.byMsgid)
  }

  function Without(log: Log, k: Key): Log
    requires k in log.messages
  {
    var id := log.messages[k].msgid;
    Log(log.messages - {k}, if id.Some? then log.byMsgid - {id.value} else log.byMsgid)
  }

  function Trimmed(log: Log, retention: nat): Log
    decreases |log.messages|
  {
    if |log.messages| <= retention then log
    else
      var k := Least(log.messages.Keys);
      RemoveSize(log.messages, k);
      Trimmed(Without(log, k), retention)
  }

  function Inserted(log: Log, m: ChatMessage, retention: nat): Log {
    if Known(log, m) then log else Trimmed(Put(log, m), retention)
  }

  class MessageLog {
    const retention: nat
    var messages: map<Key, ChatMessage>
    var byMsgid: map<string, Key>

    function View(): Log
      reads this
    {
      Log(messages, byMsgid)
    }

    constructor (retention: nat)
      ensures View() == EMPTY && this.retention == if retention == 0 then 1 else retention
    {
      messages, byMsgid := map[], map[];
      this.retention := if retention == 0 then 1 else retention;
    }

    method Insert(m: ChatMessage) returns (isNew: bool)
      modifies this
      ensures isNew == !Known(old(View()), m)
      ensures View() == Inserted(old(View()), m, retention)
    {
      if m.msgid.Some? {
        if m.msgid.value in byMsgid {
          return false;
        }
      } else if HasTwin(View(), m) {
        return false;
      }
      if m.msgid.Some? {
        byMsgid := byMsgid[m.msgid.value := m.key];
      }
      messages := messages[m.key := m];
      Trim();
      return true;
    }

    method Trim()
      modifies this
      ensures View() == Trimmed(old(View()), retention)
    {
      while |messages| > retention
        invariant Trimmed(View(), retention) == Trimmed(old(View()), retention)
        decreases |messages|
      {
        var k := Least(messages.Keys);
        RemoveSize(messages, k);
        var dropped := messages[k];
        messages := messages - {k};
        if dropped.msgid.Some? {
          byMsgid := byMsgid - {dropped.msgid.value};
        }
      }
    }
  }

  // ---- the index ----

  predicate Keyed(log: Log) {
    forall k | k in log.messages :: log.messages[k].key == k
  }

  /** Every indexed id leads to the message with it. */
  predicate IndexLeadsToMessages(log: Log) {
    forall id | id in log.byMsgid :: log.byMsgid[id] in log.messages && log.messages[log.byMsgid[id]].msgid == Some(id)
  }

  /** Every message with an id is indexed under it. */
  predicate MessagesAreIndexed(log: Log) {
    forall k | k in log.messages && log.messages[k].msgid.Some? ::
      log.messages[k].msgid.value in log.byMsgid && log.byMsgid[log.messages[k].msgid.value] == k
  }

  predicate Agrees(log: Log) {
    Keyed(log) && IndexLeadsToMessages(log) && MessagesAreIndexed(log)
  }

  lemma {:induction false} TrimKeepsAgreement(log: Log, retention: nat)
    requires Agrees(log)
    ensures Agrees(Trimmed(log, retention)) && |Trimmed(log, retention).messages| <= retention
    decreases |log.messages|
  {
    if |log.messages| > retention {
      var k := Least(log.messages.Keys);
      RemoveSize(log.messages, k);
      TrimKeepsAgreement(Without(log, k), retention);
    }
  }

  /**
   Index and messages agree both ways after any insertion that does not overwrite, and the log stays within its limit.
   */
  lemma InsertKeepsAgreement(log: Log, m: ChatMessage, retention: nat)
    requires Agrees(log) && m.key !in log.messages && |log.messages| <= retention
    ensures Agrees(Inserted(log, m, retention)) && |Inserted(log, m, retention).messages| <= retention
  {
    if !Known(log, m) {
      TrimKeepsAgreement(Put(log, m), retention);
    }
  }

  /**
   A new message under a key already in use keeps the agreement if and only if the one it overwrites had no id: the
   old id would lead to the wrong message.
   */
  lemma OverwritingKeepsAgreementIff(log: Log, m: ChatMessage, retention: nat)
    requires Agrees(log) && m.key in log.messages && !Known(log, m) && |log.messages| <= retention
    ensures Agrees(Inserted(log, m, retention)) <==> log.messages[m.key].msgid.None?
  {
    PutSize(log.messages, m.key, m);
    var after := Put(log, m);
    assert Inserted(log, m, retention) == after;
    var old_ := log.messages[m.key].msgid;
    if old_.Some? {
      assert after.byMsgid[old_.value] == m.key && after.messages[m.key].msgid != old_;
    }
  }

  // ---- which messages stay ----

  function Above(keys: set<Key>, k: Key): set<Key> {
    set j | j in keys && Less(k, j)
  }

  /** The greatest keys: those with fewer than so many above them. */
  function Greatest(keys: set<Key>, count: nat): set<Key> {
    set k | k in keys && |Above(keys, k)| < count
  }

  lemma AllAreGreatest(keys: set<Key>, count: nat)
    requires |keys| <= count
    ensures Greatest(keys, count) == keys
  {
    forall k | k in keys ensures |Above(keys, k)| < count {
      SubsetSize(Above(keys, k), keys - {k});
    }
  }

  /** The least of too many keys is not among the greatest, and the others' standing does not depend on it. */
  lemma LeastIsNotGreatest(keys: set<Key>, k: Key, count: nat)
    requires IsLeast(keys, k) && |keys| > count
    ensures Greatest(keys, count) == Greatest(keys - {k}, count)
  {
    assert Above(keys, k) == keys - {k};
    forall j | j in keys - {k} ensures Above(keys, j) == Above(keys - {k}, j) {
    }
  }

  lemma {:induction false} TrimKeepsTheGreatest(log: Log, retention: nat)
    ensures Trimmed(log, retention).messages.Keys == Greatest(log.messages.Keys, retention)
    ensures forall k | k in Trimmed(log, retention).messages ::
              k in log.messages && Trimmed(log, retention).messages[k] == log.messages[k]
    decreases |log.messages|
  {
    if |log.messages| <= retention {
      assert |log.messages.Keys| == |log.messages|;
      AllAreGreatest(log.messages.Keys, retention);
    } else {
      var k := Least(log.messages.Keys);
      RemoveSize(log.messages, k);
      assert |log.messages.Keys| == |log.messages|;
      LeastIsNotGreatest(log.messages.Keys, k, retention);
      TrimKeepsTheGreatest(Without(log, k), retention);
    }
  }

  /** One more key can be weighed against the greatest so far alone: what was dropped never comes back. */
  lemma {:induction false} GreatestOfMore(keys: set<Key>, k: Key, count: nat)
    requires k !in keys
    ensures Greatest(Greatest(keys, count) + {k}, count) == Greatest(keys + {k}, count)
    decreases |keys|
  {
    if |keys| <= count {
      AllAreGreatest(keys, count);
    } else {
      var m := Least(keys);
      LeastIsNotGreatest(keys, m, count);
      GreatestOfMore(keys - {m}, k, count);
      DroppingTheLeastFirst(keys, m, k, count);
    }
  }

  lemma DroppingTheLeastFirst(keys: set<Key>, m: Key, k: Key, count: nat)
    requires IsLeast(keys, m) && |keys| > count && k !in keys
    ensures Greatest(keys + {k}, count) == Greatest((keys - {m}) + {k}, count)
  {
    if Less(m, k) {
      LeastIsNotGreatest(keys + {k}, m, count);
      assert (keys + {k}) - {m} == (keys - {m}) + {k};
    } else {
      LeastIsNotGreatest(keys + {k}, k, count);
      assert (keys + {k}) - {k} == keys;
      LeastIsNotGreatest(keys, m, count);
      LeastIsNotGreatest((keys - {m}) + {k}, k, count);
      assert ((keys - {m}) + {k}) - {k} == keys - {m};
    }
  }

  // ---- any order of arrival ----

  ghost function InsertedAll(arrivals: seq<ChatMessage>, retention: nat): Log {
    if arrivals == [] then EMPTY
    else Inserted(InsertedAll(arrivals[..|arrivals| - 1], retention), arrivals[|arrivals| - 1], retention)
  }

  function KeysOf(arrivals: seq<ChatMessage>): set<Key> {
    set m | m in arrivals :: m.key
  }

  /** Every message has an id, and no two share an id or a key. */
  predicate Apart(arrivals: seq<ChatMessage>) {
    && (forall m | m in arrivals :: m.msgid.Some?)
    && forall i, j | 0 <= i < j < |arrivals| :: arrivals[i].msgid != arrivals[j].msgid && arrivals[i].key != arrivals[j].key
  }

  /** A log that holds exactly the greatest of the messages so far, each as it came, indexed by its id. */
  predicate HoldsTheGreatest(log: Log, arrivals: seq<ChatMessage>, retention: nat) {
    && Agrees(log)
    && log.messages.Keys == Greatest(KeysOf(arrivals), retention)
    && forall k | k in log.messages :: log.messages[k] in arrivals
  }

  lemma LastIsNew(arrivals: seq<ChatMessage>, log: Log, retention: nat)
    requires arrivals != [] && Apart(arrivals) && HoldsTheGreatest(log, arrivals[..|arrivals| - 1], retention)
    ensures !Known(log, arrivals[|arrivals| - 1]) && arrivals[|arrivals| - 1].key !in KeysOf(arrivals[..|arrivals| - 1])
    ensures KeysOf(arrivals) == KeysOf(arrivals[..|arrivals| - 1]) + {arrivals[|arrivals| - 1].key}
  {
    var front, last := arrivals[..|arrivals| - 1], arrivals[|arrivals| - 1];
    assert arrivals == front + [last];
    forall m | m in front ensures m.msgid != last.msgid && m.key != last.key {
      var i :| 0 <= i < |front| && front[i] == m;
      assert arrivals[i] == m;
    }
  }

  /** Messages with ids and keys of their own, in any order: the log holds exactly those with the greatest keys. */
  lemma {:induction false} TheGreatestStay(arrivals: seq<ChatMessage>, retention: nat)
    requires Apart(arrivals)
    ensures HoldsTheGreatest(InsertedAll(arrivals, retention), arrivals, retention)
  {
    if arrivals == [] {
      assert KeysOf(arrivals) == {};
    } else {
      var front, last := arrivals[..|arrivals| - 1], arrivals[|arrivals| - 1];
      TheGreatestStay(front, retention);
      LastIsNew(arrivals, InsertedAll(front, retention), retention);
      assert arrivals == front + [last];
      OneMoreOfTheGreatest(InsertedAll(front, retention), front, last, retention);
    }
  }

  lemma OneMoreOfTheGreatest(log: Log, front: seq<ChatMessage>, last: ChatMessage, retention: nat)
    requires HoldsTheGreatest(log, front, retention) && !Known(log, last) && last.key !in KeysOf(front)
    requires KeysOf(front + [last]) == KeysOf(front) + {last.key}
    ensures HoldsTheGreatest(Inserted(log, last, retention), front + [last], retention)
  {
    PutKeepsAgreement(log, last);
    TrimKeepsAgreement(Put(log, last), retention);
    KeysAfterInsert(log, KeysOf(front), last, retention);
    ContentsAfterInsert(log, front, last, retention);
  }

  lemma KeysAfterInsert(log: Log, keys: set<Key>, m: ChatMessage, retention: nat)
    requires log.messages.Keys == Greatest(keys, retention) && m.key !in keys
    ensures Trimmed(Put(log, m), retention).messages.Keys == Greatest(keys + {m.key}, retention)
  {
    TrimKeepsTheGreatest(Put(log, m), retention);
    assert Put(log, m).messages.Keys == log.messages.Keys + {m.key};
    GreatestOfMore(keys, m.key, retention);
  }

  lemma ContentsAfterInsert(log: Log, front: seq<ChatMessage>, m: ChatMessage, retention: nat)
    requires forall k | k in log.messages :: log.messages[k] in front
    ensures var after := Trimmed(Put(log, m), retention);
            forall k | k in after.messages :: after.messages[k] in front + [m]
  {
    TrimKeepsTheGreatest(Put(log, m), retention);
    forall k | k in Put(log, m).messages ensures Put(log, m).messages[k] in front + [m] {
    }
  }

  lemma PutKeepsAgreement(log: Log, m: ChatMessage)
    requires Agrees(log) && !Known(log, m) && m.key !in log.messages
    ensures Agrees(Put(log, m))
  {
  }

  lemma SameMessage(a: seq<ChatMessage>, b: seq<ChatMessage>, m: ChatMessage, n: ChatMessage)
    requires Apart(a) && (forall x | x in b :: x in a) && m in a && n in b && m.key == n.key
    ensures m == n
  {
    var i :| 0 <= i < |a| && a[i] == m;
    var j :| 0 <= j < |a| && a[j] == n;
  }

  lemma SameKeys(a: seq<ChatMessage>, b: seq<ChatMessage>)
    requires forall m :: m in a <==> m in b
    ensures KeysOf(a) == KeysOf(b)
  {
  }

  lemma SameContents(x: Log, y: Log, a: seq<ChatMessage>, b: seq<ChatMessage>, retention: nat)
    requires HoldsTheGreatest(x, a, retention) && HoldsTheGreatest(y, b, retention)
    requires Apart(a) && forall m :: m in a <==> m in b
    ensures x.messages == y.messages
  {
    SameKeys(a, b);
    forall k | k in x.messages ensures x.messages[k] == y.messages[k] {
      SameMessage(a, b, x.messages[k], y.messages[k]);
    }
  }

  /** The order of arrival does not matter: the messages and the index come out the same. */
  lemma ArrivalOrderDoesNotMatter(a: seq<ChatMessage>, b: seq<ChatMessage>, retention: nat)
    requires Apart(a) && Apart(b) && forall m :: m in a <==> m in b
    ensures InsertedAll(a, retention) == InsertedAll(b, retention)
  {
    TheGreatestStay(a, retention);
    TheGreatestStay(b, retention);
    SameContents(InsertedAll(a, retention), InsertedAll(b, retention), a, b, retention);
    AgreementDeterminesTheIndex(InsertedAll(a, retention), InsertedAll(b, retention));
  }

  /** Two logs that agree with themselves and hold the same messages have the same index. */
  lemma AgreementDeterminesTheIndex(x: Log, y: Log)
    requires Agrees(x) && Agrees(y) && x.messages == y.messages
    ensures x.byMsgid == y.byMsgid
  {
    forall id | id in x.byMsgid ensures id in y.byMsgid && y.byMsgid[id] == x.byMsgid[id] {
      assert x.messages[x.byMsgid[id]].msgid == Some(id);
    }
    forall id | id in y.byMsgid ensures id in x.byMsgid {
      assert y.messages[y.byMsgid[id]].msgid == Some(id);
    }
  }

  // ---- repeats ----

  /**
   `m` says again what `a` said: it has the same id, or, having none, it came at the same instant from the same sender
   with the same kind and text. At the very last instant there are no repeats without an id.
   */
  predicate Repeats(a: ChatMessage, m: ChatMessage) {
    if m.msgid.Some? then a.msgid == m.msgid
    else a.key.time == m.key.time && m.key.time < U64_MAX && a.sender == m.sender && a.kind == m.kind && a.text == m.text
  }

  /** A message is dropped if and only if one that is held says the same; otherwise it is held, and so is all that was. */
  lemma DroppedIffRepeated(log: Log, m: ChatMessage, retention: nat)
    requires Agrees(log) && m.key !in log.messages && |log.messages| < retention
    ensures var after := Inserted(log, m, retention);
            if exists k :: k in log.messages && Repeats(log.messages[k], m) then after == log
            else after.messages == log.messages[m.key := m]
  {
    KnownIffRepeated(log, m);
    PutSize(log.messages, m.key, m);
  }

  lemma KnownIffRepeated(log: Log, m: ChatMessage)
    requires Agrees(log)
    ensures Known(log, m) <==> exists k :: k in log.messages && Repeats(log.messages[k], m)
  {
    if m.msgid.Some? {
      if m.msgid.value in log.byMsgid {
        assert Repeats(log.messages[log.byMsgid[m.msgid.value]], m);
      }
    } else {
      forall k | k in log.messages
        ensures SameInstant(k, m.key.time) && Twins(log.messages[k], m) <==> Repeats(log.messages[k], m)
      {
      }
    }
  }

  /** A message of a run of arrivals stays unless an earlier one that stayed says the same. */
  predicate Stays(arrivals: seq<ChatMessage>, i: nat)
    requires i < |arrivals|
    decreases i
  {
    forall j: nat | j < i :: Stays(arrivals, j) ==> !Repeats(arrivals[j], arrivals[i])
  }

  lemma {:induction false} StaysAlready(front: seq<ChatMessage>, arrivals: seq<ChatMessage>, i: nat)
    requires front <= arrivals && i < |front|
    ensures Stays(front, i) == Stays(arrivals, i)
    decreases i
  {
    forall j: nat | j < i ensures Stays(front, j) == Stays(arrivals, j) {
      StaysAlready(front, arrivals, j);
    }
  }

  predicate KeysApart(arrivals: seq<ChatMessage>) {
    forall i, j | 0 <= i < j < |arrivals| :: arrivals[i].key != arrivals[j].key
  }

  lemma FrontApart(arrivals: seq<ChatMessage>)
    requires KeysApart(arrivals) && arrivals != []
    ensures var front := arrivals[..|arrivals| - 1];
            KeysApart(front) && arrivals == front + [arrivals[|arrivals| - 1]]
  {
  }

  ghost predicate OneThatStays(arrivals: seq<ChatMessage>, m: ChatMessage) {
    exists i: nat :: i < |arrivals| && arrivals[i] == m && Stays(arrivals, i)
  }

  /** The log holds exactly the arrivals that stay, each under its key. */
  ghost predicate HoldsWhatStays(log: Log, arrivals: seq<ChatMessage>) {
    && Agrees(log)
    && (forall k | k in log.messages :: OneThatStays(arrivals, log.messages[k]))
    && forall i: nat | i < |arrivals| && Stays(arrivals, i) ::
         arrivals[i].key in log.messages && log.messages[arrivals[i].key] == arrivals[i]
  }

  /**
   While there is room, after any run of arrivals, with ids or without, the log holds exactly those that do not say again
   what an earlier one that stayed had said.
   */
  lemma {:induction false} RepeatsAreDropped(arrivals: seq<ChatMessage>, retention: nat)
    requires KeysApart(arrivals) && |arrivals| <= retention
    ensures HoldsWhatStays(InsertedAll(arrivals, retention), arrivals)
    ensures |InsertedAll(arrivals, retention).messages| <= |arrivals|
  {
    if arrivals != [] {
      var front, last := arrivals[..|arrivals| - 1], arrivals[|arrivals| - 1];
      FrontApart(arrivals);
      RepeatsAreDropped(front, retention);
      OneMoreArrival(InsertedAll(front, retention), front, last, arrivals, retention);
    }
  }

  /** What stayed among the first arrivals stays among more. */
  lemma StillOneThatStays(front: seq<ChatMessage>, arrivals: seq<ChatMessage>, m: ChatMessage)
    requires front <= arrivals && OneThatStays(front, m)
    ensures OneThatStays(arrivals, m)
  {
    var i: nat :| i < |front| && front[i] == m && Stays(front, i);
    StaysAlready(front, arrivals, i);
    assert arrivals[i] == m;
  }

  lemma LastStaysIff(log: Log, front: seq<ChatMessage>, last: ChatMessage, arrivals: seq<ChatMessage>)
    requires HoldsWhatStays(log, front) && arrivals == front + [last]
    ensures Stays(arrivals, |front|) <==> !exists k :: k in log.messages && Repeats(log.messages[k], last)
  {
    forall k | k in log.messages && Repeats(log.messages[k], last) ensures !Stays(arrivals, |front|) {
      assert OneThatStays(front, log.messages[k]);
      var i: nat :| i < |front| && front[i] == log.messages[k] && Stays(front, i);
      StaysAlready(front, arrivals, i);
      assert Repeats(arrivals[i], arrivals[|front|]);
    }
    if !Stays(arrivals, |front|) {
      var j: nat :| j < |front| && Stays(arrivals, j) && Repeats(arrivals[j], arrivals[|front|]);
      StaysAlready(front, arrivals, j);
      assert Repeats(log.messages[front[j].key], last);
    }
  }

  lemma LastKeyIsNew(log: Log, front: seq<ChatMessage>, last: ChatMessage, arrivals: seq<ChatMessage>)
    requires HoldsWhatStays(log, front) && arrivals == front + [last] && KeysApart(arrivals)
    ensures last.key !in log.messages
  {
    forall k | k in log.messages ensures k != last.key {
      assert OneThatStays(front, log.messages[k]);
      var i: nat :| i < |front| && front[i] == log.messages[k] && Stays(front, i);
      assert arrivals[i] == front[i] && arrivals[i].key != arrivals[|front|].key;
    }
  }

  lemma LastIsDropped(log: Log, front: seq<ChatMessage>, last: ChatMessage, arrivals: seq<ChatMessage>)
    requires HoldsWhatStays(log, front) && arrivals == front + [last] && !Stays(arrivals, |front|)
    ensures HoldsWhatStays(log, arrivals)
  {
    forall k | k in log.messages ensures OneThatStays(arrivals, log.messages[k]) {
      StillOneThatStays(front, arrivals, log.messages[k]);
    }
    forall i: nat | i < |arrivals| && Stays(arrivals, i)
      ensures arrivals[i].key in log.messages && log.messages[arrivals[i].key] == arrivals[i]
    {
      StaysAlready(front, arrivals, i);
    }
  }

  lemma LastIsKept(log: Log, front: seq<ChatMessage>, last: ChatMessage, arrivals: seq<ChatMessage>, after: Log)
    requires HoldsWhatStays(log, front) && arrivals == front + [last] && Stays(arrivals, |front|)
    requires Agrees(after) && after.messages == log.messages[last.key := last] && last.key !in log.messages
    ensures HoldsWhatStays(after, arrivals)
  {
    forall k | k in after.messages ensures OneThatStays(arrivals, after.messages[k]) {
      if k == last.key {
        assert arrivals[|front|] == last;
      } else {
        StillOneThatStays(front, arrivals, log.messages[k]);
      }
    }
    forall i: nat | i < |arrivals| && Stays(arrivals, i)
      ensures arrivals[i].key in after.messages && after.messages[arrivals[i].key] == arrivals[i]
    {
      if i < |front| {
        StaysAlready(front, arrivals, i);
      }
    }
  }

  lemma OneMoreArrival(log: Log, front: seq<ChatMessage>, last: ChatMessage, arrivals: seq<ChatMessage>, retention: nat)
    requires HoldsWhatStays(log, front) && arrivals == front + [last] && KeysApart(arrivals) && |log.messages| < retention
    ensures var after := Inserted(log, last, retention);
            HoldsWhatStays(after, arrivals) && |after.messages| <= |log.messages| + 1
  {
    var after := Inserted(log, last, retention);
    LastKeyIsNew(log, front, last, arrivals);
    LastStaysIff(log, front, last, arrivals);
    DroppedIffRepeated(log, last, retention);
    PutSize(log.messages, last.key, last);
    if Stays(arrivals, |front|) {
      InsertKeepsAgreement(log, last, retention);
      LastIsKept(log, front, last, arrivals, after);
    } else {
      LastIsDropped(log, front, last, arrivals);
    }
  }
}
