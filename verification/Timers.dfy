/**
 Deadlines with no clock of their own (crates/obby-client/src/timer.rs): the drain both the timers and the labels
 share, the timers, and the reconnect delays.
 */
module Timers {
  import opened Wrappers
  import opened Integers
  import opened Orders
  import Names

  // ---- the drain ----

  function DueKeys<K, V>(m: map<K, V>, now: nat, at: V -> nat): set<K> {
    set k | k in m && at(m[k]) <= now
  }

  /** By deadline, then by key. */
  predicate Earlier<K(!new), V>(m: map<K, V>, at: V -> nat, less: Order<K>, a: K, b: K)
    requires a in m && b in m
  {
    at(m[a]) < at(m[b]) || (at(m[a]) == at(m[b]) && less(a, b))
  }

  /** All of them in the map, and strictly in that order, so without repeats. */
  predicate InOrder<K(!new), V>(m: map<K, V>, at: V -> nat, less: Order<K>, keys: seq<K>) {
    && (forall i | 0 <= i < |keys| :: keys[i] in m)
    && forall i, j | 0 <= i < j < |keys| :: Earlier(m, at, less, keys[i], keys[j])
  }

  /** Exactly the due entries, earliest first, ties by key. */
  ghost predicate IsDrain<K(!new), V>(m: map<K, V>, now: nat, at: V -> nat, less: Order<K>, keys: seq<K>) {
    && InOrder(m, at, less, keys)
    && forall k :: k in keys <==> k in DueKeys(m, now, at)
  }

  /** After every one that is not later: this is what keeps a sort by deadline stable. */
  function Placed<K(!new), V>(m: map<K, V>, at: V -> nat, keys: seq<K>, k: K): seq<K>
    requires k in m && forall i | 0 <= i < |keys| :: keys[i] in m
  {
    if keys == [] || at(m[k]) < at(m[keys[0]]) then [k] + keys
    else [keys[0]] + Placed(m, at, keys[1..], k)
  }

  lemma {:induction false} PlacedInOrder<K(!new), V>(m: map<K, V>, at: V -> nat, less: Order<K>, keys: seq<K>, k: K)
    requires StrictTotal(less) && InOrder(m, at, less, keys) && k in m && forall j | j in keys :: less(j, k)
    ensures InOrder(m, at, less, Placed(m, at, keys, k))
    ensures forall j :: j in Placed(m, at, keys, k) <==> j in keys || j == k
  {
    if keys == [] {
    } else if at(m[k]) < at(m[keys[0]]) {
      forall i | 0 <= i < |keys| ensures Earlier(m, at, less, k, keys[i]) {
        assert i > 0 ==> Earlier(m, at, less, keys[0], keys[i]);
      }
    } else {
      var rest := Placed(m, at, keys[1..], k);
      PlacedInOrder(m, at, less, keys[1..], k);
      forall j | j in rest ensures Earlier(m, at, less, keys[0], j) {
        assert j in keys[1..] || j == k;
      }
    }
  }

  /** Walk the map in key order keeping what is due, sort it by deadline, and take each entry out. */
  method DrainDue<K(!new), V>(m: map<K, V>, now: nat, at: V -> nat, less: Order<K>) returns (rest: map<K, V>, due: seq<K>)
    requires StrictTotal(less)
    ensures IsDrain(m, now, at, less, due)
    ensures rest == m - DueKeys(m, now, at)
  {
    due := [];
    var todo := DueKeys(m, now, at);
    while todo != {}
      invariant todo <= DueKeys(m, now, at)
      invariant InOrder(m, at, less, due)
      invariant forall k :: k in due <==> k in DueKeys(m, now, at) - todo
      invariant forall j, k | j in due && k in todo :: less(j, k)
      decreases |todo|
    {
      var k := First(less, todo);
      PlacedInOrder(m, at, less, due, k);
      due := Placed(m, at, due, k);
      todo := todo - {k};
    }
    rest := m;
    for i := 0 to |due|
      invariant rest == m - set j | j in due[..i]
    {
      rest := rest - {due[i]};
      assert due[..i + 1] == due[..i] + [due[i]];
    }
    assert due[..|due|] == due;
    assert DueKeys(m, now, at) == set j | j in due;
  }

  /** The drain is the only such list: the contract determines the result. */
  lemma {:induction false} DrainIsUnique<K(!new), V>(m: map<K, V>, at: V -> nat, less: Order<K>, a: seq<K>, b: seq<K>)
    requires StrictTotal(less) && InOrder(m, at, less, a) && InOrder(m, at, less, b) && forall k :: k in a <==> k in b
    ensures a == b
    decreases |a|
  {
    if a == [] {
      HeadIsIn(b);
    } else {
      assert a[0] in b && b != [];
      FirstIsFirst(m, at, less, a, b);
      FirstIsFirst(m, at, less, b, a);
      SameRest(m, at, less, a, b);
      SameRest(m, at, less, b, a);
      DrainIsUnique(m, at, less, a[1..], b[1..]);
      assert a == [a[0]] + a[1..] && b == [b[0]] + b[1..];
    }
  }

  lemma HeadIsIn<T>(s: seq<T>)
    ensures s == [] || s[0] in s
  {
  }

  lemma FirstIsFirst<K(!new), V>(m: map<K, V>, at: V -> nat, less: Order<K>, a: seq<K>, b: seq<K>)
    requires StrictTotal(less) && InOrder(m, at, less, a) && a != [] && b != [] && b[0] in a
    requires InOrder(m, at, less, b) && a[0] in b
    ensures a[0] == b[0]
  {
    HeadComesFirst(m, at, less, a, b[0]);
    HeadComesFirst(m, at, less, b, a[0]);
  }

  lemma HeadComesFirst<K(!new), V>(m: map<K, V>, at: V -> nat, less: Order<K>, a: seq<K>, x: K)
    requires InOrder(m, at, less, a) && x in a
    ensures x in m && (x == a[0] || Earlier(m, at, less, a[0], x))
  {
    var i :| 0 <= i < |a| && a[i] == x;
  }

  lemma SameRest<K(!new), V>(m: map<K, V>, at: V -> nat, less: Order<K>, a: seq<K>, b: seq<K>)
    requires StrictTotal(less) && InOrder(m, at, less, a) && a != [] && b != [] && a[0] == b[0]
    requires forall k :: k in a <==> k in b
    ensures forall k | k in a[1..] :: k in b[1..]
  {
    forall k | k in a[1..] ensures k in b[1..] {
      var i :| 0 < i < |a| && a[i] == k;
      assert Earlier(m, at, less, a[0], a[i]);
      assert k in b && k != b[0];
    }
  }

  /** Draining at one instant and then at a later one gives, in order, what draining once at the later one gives. */
  lemma TwoDrainsAreOne<K(!new), V>(m: map<K, V>, t1: nat, t2: nat, at: V -> nat, less: Order<K>, a: seq<K>, b: seq<K>)
    requires t1 <= t2 && IsDrain(m, t1, at, less, a) && IsDrain(m - DueKeys(m, t1, at), t2, at, less, b)
    ensures IsDrain(m, t2, at, less, a + b)
    ensures (m - DueKeys(m, t1, at)) - DueKeys(m - DueKeys(m, t1, at), t2, at) == m - DueKeys(m, t2, at)
  {
    var rest := m - DueKeys(m, t1, at);
    forall i | 0 <= i < |b| ensures b[i] in m && rest[b[i]] == m[b[i]] && at(m[b[i]]) > t1 {
      assert b[i] in b && b[i] in DueKeys(rest, t2, at);
    }
    forall i | 0 <= i < |a| ensures at(m[a[i]]) <= t1 {
      assert a[i] in a && a[i] in DueKeys(m, t1, at);
    }
    forall i, j | 0 <= i < j < |b| ensures Earlier(m, at, less, b[i], b[j]) {
      assert Earlier(rest, at, less, b[i], b[j]);
    }
    forall k ensures k in a + b <==> k in DueKeys(m, t2, at) {
      assert k in a <==> k in DueKeys(m, t1, at);
      assert k in b <==> k in DueKeys(rest, t2, at);
    }
  }

  // ---- the timers ----

  datatype Deadline = PingKeepalive | DeadLink | Reconnect | Typing(target: string, who: string)

  function Rank(d: Deadline): nat {
    match d
    case PingKeepalive => 0
    case DeadLink => 1
    case Reconnect => 2
    case Typing(_, _) => 3
  }

  /** By kind, then by where and who. */
  predicate DeadlineLess(a: Deadline, b: Deadline) {
    Rank(a) < Rank(b)
    || (a.Typing? && b.Typing?
        && (Names.Less(a.target, b.target) || (a.target == b.target && Names.Less(a.who, b.who))))
  }

  lemma DeadlineOrderIsTotal()
    ensures StrictTotal(DeadlineLess)
  {
    forall a, b ensures (a == b || DeadlineLess(a, b) || DeadlineLess(b, a)) && !DeadlineLess(a, a) {
      OneWayOrTheOther(a, b);
    }
    forall a, b, c | DeadlineLess(a, b) && DeadlineLess(b, c) ensures DeadlineLess(a, c) {
      Transitive(a, b, c);
    }
  }

  lemma OneWayOrTheOther(a: Deadline, b: Deadline)
    ensures (a == b || DeadlineLess(a, b) || DeadlineLess(b, a)) && !DeadlineLess(a, a)
  {
    if a.Typing? {
      Names.OneWayOrTheOther(a.target, a.target);
      Names.OneWayOrTheOther(a.who, a.who);
      if b.Typing? {
        Names.OneWayOrTheOther(a.target, b.target);
        Names.OneWayOrTheOther(a.who, b.who);
      }
    }
  }

  lemma Transitive(a: Deadline, b: Deadline, c: Deadline)
    requires DeadlineLess(a, b) && DeadlineLess(b, c)
    ensures DeadlineLess(a, c)
  {
    if a.Typing? {
      if Names.Less(a.target, b.target) && Names.Less(b.target, c.target) {
        Names.LessIsTransitive(a.target, b.target, c.target);
      } else if a.target == b.target && b.target == c.target {
        Names.LessIsTransitive(a.who, b.who, c.who);
      }
    }
  }

  function Instant(at: nat): nat {
    at
  }

  class TimerSet {
    var deadlines: map<Deadline, nat>

    constructor ()
      ensures deadlines == map[]
    {
      deadlines := map[];
    }

    method Set(d: Deadline, at: nat)
      modifies this
      ensures deadlines == old(deadlines)[d := at]
    {
      deadlines := deadlines[d := at];
    }

    method Clear(d: Deadline)
      modifies this
      ensures deadlines == old(deadlines) - {d}
    {
      deadlines := deadlines - {d};
    }

    method Expire(now: nat) returns (due: seq<Deadline>)
      modifies this
      ensures IsDrain(old(deadlines), now, Instant, DeadlineLess, due)
      ensures deadlines == old(deadlines) - DueKeys(old(deadlines), now, Instant)
    {
      DeadlineOrderIsTotal();
      deadlines, due := DrainDue(deadlines, now, Instant, DeadlineLess);
    }

    /** How long a host may sleep: nothing falls due sooner, and something does then. */
    method Next() returns (at: Option<nat>)
      ensures at.None? <==> deadlines == map[]
      ensures at.Some? ==> forall now: nat :: DueKeys(deadlines, now, Instant) != {} <==> now >= at.value
    {
      at := None;
      var todo := deadlines.Keys;
      while todo != {}
        invariant todo <= deadlines.Keys
        invariant at.None? <==> todo == deadlines.Keys
        invariant at.Some? ==> exists d :: d in deadlines && deadlines[d] == at.value
        invariant at.Some? ==> forall d | d in deadlines && d !in todo :: at.value <= deadlines[d]
      {
        var d :| d in todo;
        if at.None? || deadlines[d] < at.value {
          at := Some(deadlines[d]);
        }
        todo := todo - {d};
      }
      if at.None? {
        assert deadlines.Keys == {};
      } else {
        var first :| first in deadlines && deadlines[first] == at.value;
        forall now: nat ensures DueKeys(deadlines, now, Instant) != {} <==> now >= at.value {
          if now >= at.value {
            assert first in DueKeys(deadlines, now, Instant);
          }
        }
      }
    }
  }

  // ---- reconnecting ----

  function Pow2(n: nat): (p: nat)
    ensures p > 0
  {
    if n == 0 then 1 else 2 * Pow2(n - 1)
  }

  function Min(a: nat, b: nat): nat {
    if a <= b then a else b
  }

  /** The delay before an attempt, counted from zero. */
  function Delay(base: nat, cap: nat, attempt: nat): nat {
    Min(base * Pow2(attempt), cap)
  }

  lemma {:induction false} PowersGrow(a: nat, b: nat)
    requires a <= b
    ensures Pow2(a) <= Pow2(b)
  {
    if a < b {
      PowersGrow(a, b - 1);
    }
  }

  lemma Pow2Of16()
    ensures Pow2(16) == 0x1_0000
  {
    assert Pow2(4) == 2 * (2 * (2 * (2 * Pow2(0))));
    PowersAdd(4, 4);
    PowersAdd(8, 8);
  }

  lemma Pow2Of64()
    ensures Pow2(64) == U64_MAX + 1
  {
    Pow2Of16();
    PowersAdd(16, 16);
    PowersAdd(32, 32);
  }

  lemma {:induction false} PowersAdd(a: nat, b: nat)
    ensures Pow2(a + b) == Pow2(a) * Pow2(b)
  {
    if b > 0 {
      PowersAdd(a, b - 1);
    }
  }

  class ReconnectBackoff {
    const baseMs: nat
    const capMs: nat
    const maxAttempts: nat
    var attempts: nat

    constructor (baseMs: nat, capMs: nat, maxAttempts: nat)
      ensures this.baseMs == baseMs && this.capMs == capMs && this.maxAttempts == maxAttempts && attempts == 0
    {
      this.baseMs, this.capMs, this.maxAttempts := baseMs, capMs, maxAttempts;
      attempts := 0;
    }

    /** The shift and the product both saturate; the delay is the doubled one all the same, up to the cap. */
    method NextDelay() returns (delay: Option<nat>)
      requires baseMs <= U64_MAX && capMs <= U64_MAX
      modifies this`attempts
      ensures delay == if old(attempts) >= maxAttempts then None else Some(Delay(baseMs, capMs, old(attempts)))
      ensures attempts == if old(attempts) >= maxAttempts then old(attempts) else old(attempts) + 1
    {
      if attempts >= maxAttempts {
        return None;
      }
      Pow2Of64();
      var factor := if attempts < 64 then Pow2(attempts) else U64_MAX;
      var product := Min(baseMs * factor, U64_MAX);
      SaturatedIsExact(baseMs, capMs, attempts, factor);
      delay := Some(Min(product, capMs));
      attempts := attempts + 1;
    }

    method Reset()
      modifies this`attempts
      ensures attempts == 0
    {
      attempts := 0;
    }
  }

  lemma SaturatedIsExact(base: nat, cap: nat, attempt: nat, factor: nat)
    requires cap <= U64_MAX && factor == if attempt < 64 then Pow2(attempt) else U64_MAX
    ensures Min(Min(base * factor, U64_MAX), cap) == Delay(base, cap, attempt)
  {
    if attempt >= 64 && base > 0 {
      Pow2Of64();
      PowersGrow(64, attempt);
      ProductGrows(base, factor);
      ProductGrows(base, Pow2(attempt));
    }
    CapDecides(base * factor, base * Pow2(attempt), cap);
  }

  lemma CapDecides(x: nat, y: nat, cap: nat)
    requires cap <= U64_MAX && (x == y || (x >= U64_MAX && y >= U64_MAX))
    ensures Min(Min(x, U64_MAX), cap) == Min(y, cap)
  {
  }

  lemma ProductGrows(a: nat, b: nat)
    requires a > 0
    ensures a * b >= b
  {
  }

  /** Delays never shrink from one attempt to the next, and each is twice the one before until the cap. */
  lemma DelaysDouble(base: nat, cap: nat, attempt: nat)
    ensures Delay(base, cap, attempt + 1) == Min(2 * Delay(base, cap, attempt), cap)
    ensures Delay(base, cap, attempt) <= Delay(base, cap, attempt + 1)
  {
    assert base * Pow2(attempt + 1) == 2 * (base * Pow2(attempt));
  }
}
