/**
 Matching replies to labelled requests (crates/obby-client/src/label.rs:57-118). Whatever the server sends, every
 request is at all times outstanding, resolved or expired, in exactly one way, and is reported at most once.
 */
module Labels {
  import opened Wrappers
  import opened Messages
  import opened Timers
  import opened Numbers
  import Tags
  import Names

  datatype Pending<T> = Pending(deadline: nat, batchId: Option<string>, data: T)

  datatype State<T> = State(nextId: nat, pending: map<string, Pending<T>>, openBatches: map<string, string>)

  function Start<T>(): State<T> {
    State(0, map[], map[])
  }

  function LabelOf(n: nat): string {
    "l" + DecimalOf(n)
  }

  /** Generated labels are never used twice. */
  lemma LabelsDiffer(a: nat, b: nat)
    requires LabelOf(a) == LabelOf(b)
    ensures a == b
  {
    assert LabelOf(a)[1..] == DecimalOf(a) && LabelOf(b)[1..] == DecimalOf(b);
    DecimalReadsBack(a);
    DecimalReadsBack(b);
  }

  function At<T>(p: Pending<T>): nat {
    p.deadline
  }

  // ---- what each step does ----

  /** A new label for a request that was just sent. */
  function Registered<T>(st: State<T>, deadline: nat, data: T): State<T> {
    State(st.nextId + 1, st.pending[LabelOf(st.nextId + 1) := Pending(deadline, None, data)], st.openBatches)
  }

  function WithoutBatch(open_: map<string, string>, id: Option<string>): map<string, string> {
    if id.Some? then open_ - {id.value} else open_
  }

  /** Take a label out, with the data registered under it. */
  function Taken<T>(st: State<T>, name: string, open_: map<string, string>): (State<T>, Option<(string, T)>) {
    if name in st.pending then
      (State(st.nextId, st.pending - {name}, open_), Some((name, st.pending[name].data)))
    else (State(st.nextId, st.pending, open_), None)
  }

  function Resolved<T>(st: State<T>, m: Message): (State<T>, Option<(string, T)>) {
    var name := Tags.Get(m.tags, "label");
    if Is(m, "BATCH") then
      if m.params == [] || m.params[0] == "" then (st, None)
      else
        var id := m.params[0][1..];
        if m.params[0][0] == '-' then
          if id !in st.openBatches then (st, None)
          else Taken(st, st.openBatches[id], st.openBatches - {id})
        else if m.params[0][0] == '+' && name.Some? && name.value in st.pending then
          (State(st.nextId,
                 st.pending[name.value := st.pending[name.value].(batchId := Some(id))],
                 st.openBatches[id := name.value]), None)
        else (st, None)
    else if name.Some? && name.value in st.pending then
      Taken(st, name.value, WithoutBatch(st.openBatches, st.pending[name.value].batchId))
    else (st, None)
  }

  /** The batches of labels that are given up on. */
  function BatchesOf<T>(pending: map<string, Pending<T>>, labels: set<string>): set<string> {
    set l | l in labels && l in pending && pending[l].batchId.Some? :: pending[l].batchId.value
  }

  function SetOf<K>(s: seq<K>): set<K> {
    set k | k in s
  }

  lemma OneMoreBatch<T>(open: map<string, string>, pending: map<string, Pending<T>>, due: seq<string>, i: nat)
    requires i < |due| && due[i] in pending
    ensures var id, left := pending[due[i]].batchId, open - BatchesOf(pending, SetOf(due[..i]));
            open - BatchesOf(pending, SetOf(due[..i + 1])) == if id.Some? then left - {id.value} else left
  {
    assert due[..i + 1] == due[..i] + [due[i]];
    assert BatchesOf(pending, SetOf(due[..i + 1])) ==
           BatchesOf(pending, SetOf(due[..i]))
           + (if pending[due[i]].batchId.Some? then {pending[due[i]].batchId.value} else {});
  }

  function Expired<T>(st: State<T>, now: nat): State<T> {
    var due := DueKeys(st.pending, now, At);
    State(st.nextId, st.pending - due, st.openBatches - BatchesOf(st.pending, due))
  }

  lemma DueIsAll<T>(pending: map<string, Pending<T>>, now: nat, due: seq<string>)
    requires IsDrain(pending, now, At, Names.Less, due)
    ensures DueKeys(pending, now, At) == SetOf(due[..|due|])
  {
    assert due[..|due|] == due;
  }

  /** The data registered under these labels, in their order. */
  predicate Given<T(==)>(pending: map<string, Pending<T>>, due: seq<string>, given: seq<T>) {
    |given| == |due| && forall i | 0 <= i < |due| :: due[i] in pending && given[i] == pending[due[i]].data
  }

  class LabelTable<T(==)> {
    var nextId: nat
    var pending: map<string, Pending<T>>
    var openBatches: map<string, string>

    function View(): State<T>
      reads this
    {
      State(nextId, pending, openBatches)
    }

    constructor ()
      ensures View() == Start()
    {
      nextId, pending, openBatches := 0, map[], map[];
    }

    method Generate() returns (name: string)
      modifies this`nextId
      ensures nextId == old(nextId) + 1 && name == LabelOf(nextId)
    {
      nextId := nextId + 1;
      name := LabelOf(nextId);
    }

    method Register(name: string, deadline: nat, data: T)
      modifies this`pending
      ensures pending == old(pending)[name := Pending(deadline, None, data)]
    {
      pending := pending[name := Pending(deadline, None, data)];
    }

    method Resolve(m: Message) returns (r: Option<T>)
      modifies this
      ensures var (after, found) := Resolved(old(View()), m);
              View() == after && r == if found.Some? then Some(found.value.1) else None
    {
      var name := Tags.Get(m.tags, "label");
      if Is(m, "BATCH") {
        if m.params == [] || m.params[0] == "" {
          return None;
        }
        var id := m.params[0][1..];
        if m.params[0][0] == '-' {
          if id !in openBatches {
            return None;
          }
          var opener := openBatches[id];
          openBatches := openBatches - {id};
          if opener !in pending {
            return None;
          }
          r := Some(pending[opener].data);
          pending := pending - {opener};
          return;
        }
        if m.params[0][0] == '+' && name.Some? && name.value in pending {
          pending := pending[name.value := pending[name.value].(batchId := Some(id))];
          openBatches := openBatches[id := name.value];
        }
        return None;
      }
      if name.None? || name.value !in pending {
        return None;
      }
      var found := pending[name.value];
      pending := pending - {name.value};
      if found.batchId.Some? {
        openBatches := openBatches - {found.batchId.value};
      }
      return Some(found.data);
    }

    method Expire(now: nat) returns (given: seq<T>)
      modifies this
      ensures View() == Expired(old(View()), now)
      ensures exists due :: IsDrain(old(pending), now, At, Names.Less, due) && Given(old(pending), due, given)
    {
      Names.LessIsTotal();
      var before := pending;
      var rest, due := DrainDue(pending, now, At, Names.Less);
      pending := rest;
      given := [];
      ghost var batches := openBatches;
      for i := 0 to |due|
        invariant pending == rest && nextId == old(nextId)
        invariant openBatches == batches - BatchesOf(before, SetOf(due[..i]))
        invariant |given| == i && forall j | 0 <= j < i :: given[j] == before[due[j]].data
      {
        var p := before[due[i]];
        OneMoreBatch(batches, before, due, i);
        if p.batchId.Some? {
          openBatches := openBatches - {p.batchId.value};
        }
        given := given + [p.data];
      }
      DueIsAll(before, now, due);
    }
  }

  // ---- every run ----

  datatype Event<T> = Sent(deadline: nat, data: T) | Received(m: Message) | Ticked(now: nat)

  function Stepped<T>(st: State<T>, e: Event<T>): State<T> {
    match e
    case Sent(deadline, data) => Registered(st, deadline, data)
    case Received(m) => Resolved(st, m).0
    case Ticked(now) => Expired(st, now)
  }

  /** What a step hands back, under the labels it was registered with. */
  function Reported<T>(st: State<T>, e: Event<T>): map<string, T> {
    match e
    case Sent(_, _) => map[]
    case Received(m) => (match Resolved(st, m).1 case None => map[] case Some((name, data)) => map[name := data])
    case Ticked(now) => map l | l in DueKeys(st.pending, now, At) :: st.pending[l].data
  }

  /** The books over a run: everything ever registered, and what was resolved and what expired. */
  datatype Books<T> = Books(registered: map<string, T>, resolved: map<string, T>, expired: map<string, T>)

  function Reached<T>(h: seq<Event<T>>): State<T> {
    if h == [] then Start() else Stepped(Reached(h[..|h| - 1]), h[|h| - 1])
  }

  function Kept<T>(h: seq<Event<T>>): Books<T> {
    if h == [] then Books(map[], map[], map[])
    else
      var st, b, e := Reached(h[..|h| - 1]), Kept(h[..|h| - 1]), h[|h| - 1];
      match e
      case Sent(_, data) => b.(registered := b.registered[LabelOf(st.nextId + 1) := data])
      case Received(_) => b.(resolved := b.resolved + Reported(st, e))
      case Ticked(_) => b.(expired := b.expired + Reported(st, e))
  }

  function Outstanding<T>(st: State<T>): map<string, T> {
    map l | l in st.pending :: st.pending[l].data
  }

  /** Outstanding, resolved and expired requests are all different and together are all that were registered. */
  ghost predicate Balanced<T>(st: State<T>, b: Books<T>) {
    Splits(b.registered, Outstanding(st), b.resolved, b.expired)
  }

  ghost predicate Splits<T>(all: map<string, T>, a: map<string, T>, b: map<string, T>, c: map<string, T>) {
    a.Keys !! b.Keys && a.Keys !! c.Keys && b.Keys !! c.Keys && all == a + b + c
  }

  lemma SplitsMove<T>(all: map<string, T>, a: map<string, T>, b: map<string, T>, c: map<string, T>, r: map<string, T>)
    requires Splits(all, a, b, c) && forall l | l in r :: l in a && r[l] == a[l]
    ensures Splits(all, a - r.Keys, b + r, c)
  {
    assert a + b + c == (a - r.Keys) + (b + r) + c;
  }

  lemma SplitsSwap<T>(all: map<string, T>, a: map<string, T>, b: map<string, T>, c: map<string, T>)
    requires Splits(all, a, b, c)
    ensures Splits(all, a, c, b)
  {
    assert a + b + c == a + c + b;
  }

  lemma SplitsGrow<T>(all: map<string, T>, a: map<string, T>, b: map<string, T>, c: map<string, T>, l: string, data: T)
    requires Splits(all, a, b, c) && l !in all
    ensures Splits(all[l := data], a[l := data], b, c)
  {
    assert l !in a && l !in b && l !in c;
  }

  /** No label beyond the counter has been registered. */
  ghost predicate Numbered<T>(st: State<T>, b: Books<T>) {
    forall l | l in b.registered :: IsLabelUpTo(l, st.nextId)
  }

  ghost predicate IsLabelUpTo(l: string, max: nat) {
    exists n: nat :: n <= max && l == LabelOf(n)
  }

  lemma TakenIsOutstanding<T>(st: State<T>, m: Message)
    ensures var (after, found) := Resolved(st, m);
            && after.nextId == st.nextId
            && (found.Some? ==> found.value.0 in st.pending && found.value.1 == st.pending[found.value.0].data)
            && Outstanding(after) == (if found.Some? then Outstanding(st) - {found.value.0} else Outstanding(st))
  {
  }

  lemma StepReportsOutstanding<T>(st: State<T>, e: Event<T>)
    ensures forall l | l in Reported(st, e) :: l in st.pending && Reported(st, e)[l] == st.pending[l].data
    ensures !e.Sent? ==> Outstanding(Stepped(st, e)) == Outstanding(st) - Reported(st, e).Keys
    ensures Stepped(st, e).nextId == if e.Sent? then st.nextId + 1 else st.nextId
  {
    if e.Received? {
      TakenIsOutstanding(st, e.m);
    }
  }

  lemma NextLabelIsNew<T>(st: State<T>, b: Books<T>)
    requires Numbered(st, b)
    ensures LabelOf(st.nextId + 1) !in b.registered
  {
    if LabelOf(st.nextId + 1) in b.registered {
      var n: nat :| n <= st.nextId && LabelOf(st.nextId + 1) == LabelOf(n);
      LabelsDiffer(st.nextId + 1, n);
    }
  }

  /**
   After every run, whatever the server sent: outstanding, resolved and expired requests are disjoint, together they are
   exactly the registered ones, and each carries the data it was registered with.
   */
  lemma {:induction false} EveryRequestIsAccountedFor<T>(h: seq<Event<T>>)
    ensures Balanced(Reached(h), Kept(h)) && Numbered(Reached(h), Kept(h))
  {
    if h != [] {
      var front, e := h[..|h| - 1], h[|h| - 1];
      EveryRequestIsAccountedFor(front);
      var st, b := Reached(front), Kept(front);
      StepReportsOutstanding(st, e);
      if e.Sent? {
        NextLabelIsNew(st, b);
        SendKeepsBalance(st, b, e.deadline, e.data);
      } else {
        ReportKeepsBalance(st, b, e);
      }
    }
  }

  lemma SendKeepsBalance<T>(st: State<T>, b: Books<T>, deadline: nat, data: T)
    requires Balanced(st, b) && Numbered(st, b) && LabelOf(st.nextId + 1) !in b.registered
    ensures var after := b.(registered := b.registered[LabelOf(st.nextId + 1) := data]);
            Balanced(Registered(st, deadline, data), after) && Numbered(Registered(st, deadline, data), after)
  {
    var name := LabelOf(st.nextId + 1);
    RegisteredIsOutstanding(st, deadline, data);
    SplitsGrow(b.registered, Outstanding(st), b.resolved, b.expired, name, data);
    SendKeepsNumbers(st, b, deadline, data);
  }

  lemma RegisteredIsOutstanding<T>(st: State<T>, deadline: nat, data: T)
    ensures Outstanding(Registered(st, deadline, data)) == Outstanding(st)[LabelOf(st.nextId + 1) := data]
  {
  }

  lemma SendKeepsNumbers<T>(st: State<T>, b: Books<T>, deadline: nat, data: T)
    requires Numbered(st, b)
    ensures Numbered(Registered(st, deadline, data), b.(registered := b.registered[LabelOf(st.nextId + 1) := data]))
  {
    var grown := b.registered[LabelOf(st.nextId + 1) := data];
    forall l | l in grown ensures IsLabelUpTo(l, st.nextId + 1) {
      assert l == LabelOf(st.nextId + 1) || IsLabelUpTo(l, st.nextId);
    }
  }

  lemma ReportKeepsBalance<T>(st: State<T>, b: Books<T>, e: Event<T>)
    requires !e.Sent? && Balanced(st, b) && Numbered(st, b)
    ensures var r := Reported(st, e);
            var after := if e.Received? then b.(resolved := b.resolved + r) else b.(expired := b.expired + r);
            Balanced(Stepped(st, e), after) && Numbered(Stepped(st, e), after)
  {
    StepReportsOutstanding(st, e);
    var r := Reported(st, e);
    if e.Received? {
      SplitsMove(b.registered, Outstanding(st), b.resolved, b.expired, r);
    } else {
      SplitsSwap(b.registered, Outstanding(st), b.resolved, b.expired);
      SplitsMove(b.registered, Outstanding(st), b.expired, b.resolved, r);
      SplitsSwap(b.registered, Outstanding(st) - r.Keys, b.expired + r, b.resolved);
    }
  }

  /** No request is ever reported twice: what a step reports was not reported before, and had been registered. */
  lemma ReportedAtMostOnce<T>(h: seq<Event<T>>, e: Event<T>)
    ensures var b, r := Kept(h), Reported(Reached(h), e);
            && r.Keys !! b.resolved.Keys && r.Keys !! b.expired.Keys
            && forall l | l in r :: l in b.registered && r[l] == b.registered[l]
  {
    EveryRequestIsAccountedFor(h);
    StepReportsOutstanding(Reached(h), e);
    assert Outstanding(Reached(h)).Keys == Reached(h).pending.Keys;
  }

  // ---- which request a line answers ----

  /** The batch a line opens for an outstanding request, and the label it carries. */
  function AcceptedOpen<T>(st: State<T>, m: Message): Option<(string, string)> {
    var name := Tags.Get(m.tags, "label");
    if Is(m, "BATCH") && m.params != [] && m.params[0] != "" && m.params[0][0] == '+' && name.Some? && name.value in st.pending
    then Some((m.params[0][1..], name.value))
    else None
  }

  /** The label of the last accepted opening of a batch in a run. */
  function LastOpener<T>(h: seq<Event<T>>, id: string): Option<string> {
    if h == [] then None
    else
      var front, e := h[..|h| - 1], h[|h| - 1];
      var opening := if e.Received? then AcceptedOpen(Reached(front), e.m) else None;
      if opening.Some? && opening.value.0 == id then Some(opening.value.1) else LastOpener(front, id)
  }

  lemma StepRemembersOpeners<T>(st: State<T>, e: Event<T>, id: string)
    requires id in Stepped(st, e).openBatches
    ensures var opening := if e.Received? then AcceptedOpen(st, e.m) else None;
            Some(Stepped(st, e).openBatches[id]) ==
            if opening.Some? && opening.value.0 == id then Some(opening.value.1)
            else if id in st.openBatches then Some(st.openBatches[id])
            else None
  {
  }

  /** After every run an open batch belongs to the label of its last accepted opening. */
  lemma {:induction false} OpenBatchesRememberTheirOpeners<T>(h: seq<Event<T>>, id: string)
    requires id in Reached(h).openBatches
    ensures LastOpener(h, id) == Some(Reached(h).openBatches[id])
  {
    var front, e := h[..|h| - 1], h[|h| - 1];
    StepRemembersOpeners(Reached(front), e, id);
    if id in Reached(front).openBatches {
      OpenBatchesRememberTheirOpeners(front, id);
    }
  }

  /**
   A request is answered only by its own reply: a plain line reports the request whose label it carries, and exactly
   when that is outstanding; a `BATCH -id` line reports only the request whose label the last accepted `BATCH +id`
   carried; no other line reports anything.
   */
  lemma LineAnswersItsOwnRequest<T>(h: seq<Event<T>>, m: Message)
    ensures var found := Resolved(Reached(h), m).1;
            if Is(m, "BATCH") then
              found.Some? ==> m.params != [] && m.params[0] != "" && m.params[0][0] == '-'
                              && LastOpener(h, m.params[0][1..]) == Some(found.value.0)
            else
              var name := Tags.Get(m.tags, "label");
              if name.Some? && name.value in Reached(h).pending
              then found == Some((name.value, Reached(h).pending[name.value].data))
              else found == None
  {
    if Is(m, "BATCH") && Resolved(Reached(h), m).1.Some? {
      OpenBatchesRememberTheirOpeners(h, m.params[0][1..]);
    }
  }

  // ---- deadlines ----

  /** The deadline each label was registered with. */
  function Deadlines<T>(h: seq<Event<T>>): map<string, nat> {
    if h == [] then map[]
    else
      var before, e := Deadlines(h[..|h| - 1]), h[|h| - 1];
      if e.Sent? then before[LabelOf(Reached(h[..|h| - 1]).nextId + 1) := e.deadline] else before
  }

  lemma StepKeepsDeadlines<T>(st: State<T>, e: Event<T>, l: string)
    requires l in Stepped(st, e).pending
    ensures if e.Sent? && l == LabelOf(st.nextId + 1) then Stepped(st, e).pending[l].deadline == e.deadline
            else l in st.pending && Stepped(st, e).pending[l].deadline == st.pending[l].deadline
  {
  }

  /** A request keeps the deadline it was registered with for as long as it is outstanding. */
  lemma {:induction false} DeadlinesAreKept<T>(h: seq<Event<T>>, l: string)
    requires l in Reached(h).pending
    ensures l in Deadlines(h) && Reached(h).pending[l].deadline == Deadlines(h)[l]
  {
    if h != [] {
      var front, e := h[..|h| - 1], h[|h| - 1];
      StepKeepsDeadlines(Reached(front), e, l);
      if !(e.Sent? && l == LabelOf(Reached(front).nextId + 1)) {
        DeadlinesAreKept(front, l);
      }
    }
  }

  /** Time running out reports exactly the outstanding requests registered with a deadline by then, and leaves the others. */
  lemma ExpiresOnTime<T>(h: seq<Event<T>>, now: nat, l: string)
    requires l in Reached(h).pending
    ensures l in Deadlines(h)
    ensures l in Reported(Reached(h), Ticked(now)) <==> Deadlines(h)[l] <= now
    ensures l in Stepped(Reached(h), Ticked(now)).pending <==> Deadlines(h)[l] > now
  {
    DeadlinesAreKept(h, l);
  }
}
