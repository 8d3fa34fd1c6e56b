/**
 BATCH framing (crates/obby-client/src/batch.rs): batches that nest and interleave, each with a bounded buffer.
 The state after any run is exactly what each reference's own lines say it is, and the ancestor query is exact
 even when parents form a cycle.
 */
module Batches {
  import opened Wrappers
  import opened Maps
  import opened Messages
  import Tags

  datatype ClosedBatch = ClosedBatch(
    kind: string,
    params: seq<string>,
    parent: Option<string>,
    messages: seq<Message>,
    overflowed: bool)

  datatype OpenBatch = OpenBatch(
    kind: string,
    params: seq<string>,
    parent: Option<string>,
    messages: seq<Message>,
    seen: set<string>,
    overflowed: bool)

  type State = map<string, OpenBatch>

  datatype Bounds = Bounds(maxBuffered: nat, maxOpen: nat)

  function MsgId(m: Message): Option<string> {
    Tags.Get(m.tags, "msgid")
  }

  function BatchTag(m: Message): Option<string> {
    Tags.Get(m.tags, "batch")
  }

  /** The reference after a marker character in the first parameter. */
  function Marked(m: Message, marker: char): Option<string> {
    if m.params != [] && m.params[0] != "" && m.params[0][0] == marker then Some(m.params[0][1..]) else None
  }

  /** A first parameter is marked exactly when it is the marker and then the reference. */
  lemma MarkedIff(m: Message, marker: char, reference: string)
    ensures Marked(m, marker) == Some(reference) <==> m.params != [] && m.params[0] == [marker] + reference
  {
    if m.params != [] && m.params[0] != "" {
      assert m.params[0] == [m.params[0][0]] + m.params[0][1..];
    }
  }

  // ---- one batch ----

  function PushedInto(b: OpenBatch, m: Message, maxBuffered: nat): OpenBatch {
    if b.overflowed then b
    else if MsgId(m).Some? && MsgId(m).value in b.seen then b
    else if |b.messages| >= maxBuffered then b.(overflowed := true)
    else b.(seen := if MsgId(m).Some? then b.seen + {MsgId(m).value} else b.seen, messages := b.messages + [m])
  }

  function Ids(lines: seq<Message>): set<string> {
    set m | m in lines && MsgId(m).Some? :: MsgId(m).value
  }

  /** The lines without those whose msgid came before. */
  function Distinct(lines: seq<Message>): seq<Message> {
    if lines == [] then []
    else
      var front, last := lines[..|lines| - 1], lines[|lines| - 1];
      Distinct(front) + (if MsgId(last).Some? && MsgId(last).value in Ids(front) then [] else [last])
  }

  function Cut<T>(s: seq<T>, n: nat): seq<T> {
    if |s| <= n then s else s[..n]
  }

  /** The batch holds the first distinct lines, is marked exactly when there were more, and knows every id until then. */
  predicate Collects(b: OpenBatch, lines: seq<Message>, maxBuffered: nat) {
    && b.messages == Cut(Distinct(lines), maxBuffered)
    && b.overflowed == (|Distinct(lines)| > maxBuffered)
    && (!b.overflowed ==> b.seen == Ids(lines))
  }

  lemma OneMoreLine(b: OpenBatch, lines: seq<Message>, m: Message, maxBuffered: nat)
    requires Collects(b, lines, maxBuffered)
    ensures Collects(PushedInto(b, m, maxBuffered), lines + [m], maxBuffered)
  {
    var all := lines + [m];
    assert all[..|all| - 1] == lines;
    assert Ids(all) == Ids(lines) + (if MsgId(m).Some? then {MsgId(m).value} else {});
    assert |Distinct(all)| >= |Distinct(lines)|;
  }

  function WithoutId(lines: seq<Message>): seq<Message> {
    if lines == [] then []
    else WithoutId(lines[..|lines| - 1]) + (if MsgId(lines[|lines| - 1]).Some? then [] else [lines[|lines| - 1]])
  }

  predicate IdsOnce(lines: seq<Message>) {
    forall i, j | 0 <= i < j < |lines| && MsgId(lines[i]).Some? :: MsgId(lines[j]) != MsgId(lines[i])
  }

  /** The first line with an id. */
  function FirstWith(lines: seq<Message>, id: string): Option<Message> {
    if lines == [] then None
    else
      var front := FirstWith(lines[..|lines| - 1], id);
      if front.Some? then front
      else if MsgId(lines[|lines| - 1]) == Some(id) then Some(lines[|lines| - 1])
      else None
  }

  lemma IdsOfMore(front: seq<Message>, last: Message)
    ensures Ids(front + [last]) == Ids(front) + (if MsgId(last).Some? then {MsgId(last).value} else {})
  {
  }

  /** Dropping repeats keeps every id, exactly once. */
  lemma {:induction false} DistinctKeepsEachIdOnce(lines: seq<Message>)
    ensures Ids(Distinct(lines)) == Ids(lines) && IdsOnce(Distinct(lines))
  {
    if lines != [] {
      var front, last := lines[..|lines| - 1], lines[|lines| - 1];
      DistinctKeepsEachIdOnce(front);
      assert lines == front + [last];
      IdsOfMore(front, last);
      IdsOfMore(Distinct(front), last);
      if MsgId(last).None? || MsgId(last).value !in Ids(front) {
        OnceMore(Distinct(front), last);
      }
    }
  }

  lemma OnceMore(lines: seq<Message>, last: Message)
    requires IdsOnce(lines) && (MsgId(last).None? || MsgId(last).value !in Ids(lines))
    ensures IdsOnce(lines + [last])
  {
    forall i | 0 <= i < |lines| && MsgId(lines[i]).Some? ensures MsgId(lines[i]) != MsgId(last) {
      assert lines[i] in lines;
    }
  }

  /** The line kept for an id is the first that had it. */
  lemma {:induction false} DistinctKeepsTheFirst(lines: seq<Message>)
    ensures forall m | m in Distinct(lines) && MsgId(m).Some? :: FirstWith(lines, MsgId(m).value) == Some(m)
  {
    if lines != [] {
      DistinctKeepsTheFirst(lines[..|lines| - 1]);
      FirstWithFindsIds(lines[..|lines| - 1]);
    }
  }

  /** Lines without an id all stay, in order. */
  lemma {:induction false} DistinctKeepsTheRest(lines: seq<Message>)
    ensures WithoutId(Distinct(lines)) == WithoutId(lines)
  {
    if lines != [] {
      var front, last := lines[..|lines| - 1], lines[|lines| - 1];
      DistinctKeepsTheRest(front);
      assert (Distinct(front) + [last])[..|Distinct(front)|] == Distinct(front);
      assert Distinct(front) + [] == Distinct(front) && WithoutId(front) + [] == WithoutId(front);
      assert MsgId(last).None? ==> Distinct(lines) == Distinct(front) + [last];
      if MsgId(last).Some? && MsgId(last).value !in Ids(front) {
        assert Distinct(lines) == Distinct(front) + [last];
      }
    }
  }

  lemma {:induction false} FirstWithFindsIds(lines: seq<Message>)
    ensures forall id :: FirstWith(lines, id).Some? <==> id in Ids(lines)
  {
    if lines != [] {
      var front, last := lines[..|lines| - 1], lines[|lines| - 1];
      FirstWithFindsIds(front);
      assert lines == front + [last];
      assert Ids(lines) == Ids(front) + Ids([last]);
    }
  }

  // ---- the tracker ----

  datatype Event = Open(m: Message) | Close(m: Message) | Line(m: Message)

  datatype Outcome = Nothing | Finished(closed: ClosedBatch) | HandedBack(m: Message)

  /** The reference a line opens, if it is a valid open. */
  function OpenRef(m: Message): Option<string> {
    if |m.params| >= 2 then Marked(m, '+') else None
  }

  function NewBatch(m: Message): OpenBatch
    requires |m.params| >= 2
  {
    OpenBatch(m.params[1], m.params[2..], BatchTag(m), [], {}, false)
  }

  function Opened(b: Bounds, st: State, m: Message): State {
    var r := OpenRef(m);
    if r.None? || r.value in st || |st| >= b.maxOpen then st else st[r.value := NewBatch(m)]
  }

  function IntoClosed(o: OpenBatch): ClosedBatch {
    ClosedBatch(o.kind, o.params, o.parent, o.messages, o.overflowed)
  }

  function Stepped(b: Bounds, st: State, e: Event): (State, Outcome) {
    match e
    case Open(m) => (Opened(b, st, m), Nothing)
    case Close(m) =>
      var r := Marked(m, '-');
      if r.Some? && r.value in st then (st - {r.value}, Finished(IntoClosed(st[r.value]))) else (st, Nothing)
    case Line(m) =>
      var r := BatchTag(m);
      if r.Some? && r.value in st then (st[r.value := PushedInto(st[r.value], m, b.maxBuffered)], Nothing)
      else (st, HandedBack(m))
  }

  class Tracker {
    const bounds: Bounds
    var byReference: State

    constructor (bounds: Bounds)
      ensures this.bounds == bounds && byReference == map[]
    {
      this.bounds := bounds;
      byReference := map[];
    }

    method Open(m: Message)
      modifies this
      ensures (byReference, Nothing) == Stepped(bounds, old(byReference), Event.Open(m))
    {
      var marker := Marked(m, '+');
      if marker == None {
        return;
      }
      if |m.params| < 2 {
        return;
      }
      if marker.value in byReference {
        return;
      }
      if |byReference| >= bounds.maxOpen {
        return;
      }
      byReference := byReference[marker.value := NewBatch(m)];
    }

    method Close(m: Message) returns (closed: Option<ClosedBatch>)
      modifies this
      ensures (byReference, if closed.Some? then Finished(closed.value) else Nothing)
           == Stepped(bounds, old(byReference), Event.Close(m))
    {
      var reference := Marked(m, '-');
      if reference == None || reference.value !in byReference {
        return None;
      }
      var batch := byReference[reference.value];
      byReference := byReference - {reference.value};
      return Some(IntoClosed(batch));
    }

    method Route(m: Message) returns (back: Option<Message>)
      modifies this
      ensures (byReference, if back.Some? then HandedBack(back.value) else Nothing)
           == Stepped(bounds, old(byReference), Line(m))
    {
      var reference := BatchTag(m);
      if reference == None || reference.value !in byReference {
        return Some(m);
      }
      var batch := byReference[reference.value];
      byReference := byReference[reference.value := PushedInto(batch, m, bounds.maxBuffered)];
      return None;
    }

    /** Walk the parents, counting steps so that a cycle ends. The count cuts no real answer. */
    method IsWithin(reference: string, kind: string) returns (found: bool)
      ensures found <==> Within(byReference, reference, kind)
    {
      var current := if reference in byReference then Some(reference) else None;
      var steps := 0;
      while current != None
        invariant current == Ancestor(byReference, reference, steps)
        invariant forall k | 0 <= k < steps :: OtherKind(byReference, reference, kind, k)
        decreases |byReference| + 1 - steps
      {
        var batch := byReference[current.value];
        if batch.kind == kind {
          assert Named(byReference, reference, kind, steps);
          return true;
        }
        assert OtherKind(byReference, reference, kind, steps);
        steps := steps + 1;
        if steps > |byReference| {
          CycleHidesNothing(byReference, reference, kind, steps);
          return false;
        }
        current := if batch.parent.Some? && batch.parent.value in byReference then batch.parent else None;
      }
      ChainEnded(byReference, reference, kind, steps);
      return false;
    }

    method DropAll()
      modifies this
      ensures byReference == map[]
    {
      byReference := map[];
    }
  }

  // ---- every run ----

  function Reached(b: Bounds, h: seq<Event>): State {
    if h == [] then map[] else Stepped(b, Reached(b, h[..|h| - 1]), h[|h| - 1]).0
  }

  function RefsStep(b: Bounds, refs: set<string>, e: Event): set<string> {
    match e
    case Open(m) => if OpenRef(m).Some? && |refs| < b.maxOpen then refs + {OpenRef(m).value} else refs
    case Close(m) => if Marked(m, '-').Some? then refs - {Marked(m, '-').value} else refs
    case Line(_) => refs
  }

  /** Which references are open after a history: the names alone. */
  function OpenRefs(b: Bounds, h: seq<Event>): set<string> {
    if h == [] then {} else RefsStep(b, OpenRefs(b, h[..|h| - 1]), h[|h| - 1])
  }

  /** The line that opened a reference, and the lines tagged for it since, in order. */
  datatype Track = Track(opener: Message, lines: seq<Message>)

  /** A reference's own story: nothing another reference does appears in it. */
  function TrackOf(b: Bounds, h: seq<Event>, r: string): Track
    requires r in OpenRefs(b, h)
    ensures |TrackOf(b, h, r).opener.params| >= 2
  {
    var front, e := h[..|h| - 1], h[|h| - 1];
    if r !in OpenRefs(b, front) then Track(e.m, [])
    else
      var t := TrackOf(b, front, r);
      if e.Line? && BatchTag(e.m) == Some(r) then t.(lines := t.lines + [e.m]) else t
  }

  predicate Tells(b: Bounds, o: OpenBatch, t: Track) {
    && |t.opener.params| >= 2
    && o.kind == t.opener.params[1] && o.params == t.opener.params[2..] && o.parent == BatchTag(t.opener)
    && Collects(o, t.lines, b.maxBuffered)
  }

  lemma OpenStep(b: Bounds, st: State, m: Message)
    ensures Opened(b, st, m).Keys == RefsStep(b, st.Keys, Open(m))
    ensures |st| <= b.maxOpen ==> |Opened(b, st, m)| <= b.maxOpen
  {
    assert |st| == |st.Keys|;
    var r := OpenRef(m);
    if r.Some? && r.value !in st && |st| < b.maxOpen {
      PutSize(st, r.value, NewBatch(m));
    }
  }

  lemma CloseStep(b: Bounds, st: State, m: Message)
    ensures Stepped(b, st, Close(m)).0.Keys == RefsStep(b, st.Keys, Close(m)) && |Stepped(b, st, Close(m)).0| <= |st|
  {
    var r := Marked(m, '-');
    if r.Some? {
      RemoveSize(st, r.value);
    }
  }

  lemma LineStep(b: Bounds, st: State, m: Message)
    ensures Stepped(b, st, Line(m)).0.Keys == st.Keys && |Stepped(b, st, Line(m)).0| == |st|
  {
    var r := BatchTag(m);
    if r.Some? && r.value in st {
      PutSize(st, r.value, PushedInto(st[r.value], m, b.maxBuffered));
    }
  }

  lemma OpenRefsStep(b: Bounds, st: State, e: Event)
    ensures Stepped(b, st, e).0.Keys == RefsStep(b, st.Keys, e)
    ensures |st| <= b.maxOpen ==> |Stepped(b, st, e).0| <= b.maxOpen
  {
    match e
    case Open(m) => OpenStep(b, st, m);
    case Close(m) => CloseStep(b, st, m);
    case Line(m) => LineStep(b, st, m);
  }

  lemma {:induction false} KeysAreTheOpenRefs(b: Bounds, h: seq<Event>)
    ensures Reached(b, h).Keys == OpenRefs(b, h) && |OpenRefs(b, h)| <= b.maxOpen
  {
    if h != [] {
      var front := h[..|h| - 1];
      KeysAreTheOpenRefs(b, front);
      assert |Reached(b, front)| == |Reached(b, front).Keys|;
      OpenRefsStep(b, Reached(b, front), h[|h| - 1]);
      assert |Reached(b, h)| == |Reached(b, h).Keys|;
    }
  }

  lemma {:induction false} BatchTellsItsOwnStory(b: Bounds, h: seq<Event>, r: string)
    requires r in OpenRefs(b, h)
    ensures r in Reached(b, h) && Tells(b, Reached(b, h)[r], TrackOf(b, h, r))
  {
    KeysAreTheOpenRefs(b, h);
    var front, e := h[..|h| - 1], h[|h| - 1];
    var st := Reached(b, front);
    KeysAreTheOpenRefs(b, front);
    if r in st {
      BatchTellsItsOwnStory(b, front, r);
      StoryGoesOn(b, st, e, r, TrackOf(b, front, r));
    } else {
      NewBatchIsEmpty(b, st, e, r);
    }
  }

  lemma StoryGoesOn(b: Bounds, st: State, e: Event, r: string, t: Track)
    requires r in st && r in Stepped(b, st, e).0 && Tells(b, st[r], t)
    ensures Tells(b, Stepped(b, st, e).0[r],
                  if e.Line? && BatchTag(e.m) == Some(r) then t.(lines := t.lines + [e.m]) else t)
  {
    if e.Line? && BatchTag(e.m) == Some(r) {
      OneMoreLine(st[r], t.lines, e.m, b.maxBuffered);
    }
  }

  lemma NewBatchIsEmpty(b: Bounds, st: State, e: Event, r: string)
    requires r !in st && r in Stepped(b, st, e).0
    ensures e.Open? && OpenRef(e.m) == Some(r) && Tells(b, Stepped(b, st, e).0[r], Track(e.m, []))
  {
  }

  /**
   After any run, the open batches are exactly the open references, never more than allowed, and each holds what
   its own lines since its accepted open say: the first distinct ones, in arrival order, marked when there were more.
   */
  lemma EveryBatchTellsItsOwnStory(b: Bounds, h: seq<Event>)
    ensures Reached(b, h).Keys == OpenRefs(b, h) && |OpenRefs(b, h)| <= b.maxOpen
    ensures forall r | r in OpenRefs(b, h) :: Tells(b, Reached(b, h)[r], TrackOf(b, h, r))
  {
    KeysAreTheOpenRefs(b, h);
    forall r | r in OpenRefs(b, h) ensures Tells(b, Reached(b, h)[r], TrackOf(b, h, r)) {
      BatchTellsItsOwnStory(b, h, r);
    }
  }

  /** Closing a reference after any run returns what that reference's own lines say, and forgets it. */
  lemma CloseReturnsItsOwnLines(b: Bounds, h: seq<Event>, m: Message, r: string)
    requires Marked(m, '-') == Some(r)
    ensures var (after, out) := Stepped(b, Reached(b, h), Close(m));
            if r in OpenRefs(b, h) then
              var t := TrackOf(b, h, r);
              && after == Reached(b, h) - {r}
              && out == Finished(ClosedBatch(t.opener.params[1], t.opener.params[2..], BatchTag(t.opener),
                                             Cut(Distinct(t.lines), b.maxBuffered),
                                             |Distinct(t.lines)| > b.maxBuffered))
            else after == Reached(b, h) && out == Nothing
  {
    EveryBatchTellsItsOwnStory(b, h);
    if r in OpenRefs(b, h) {
      assert Tells(b, Reached(b, h)[r], TrackOf(b, h, r));
    }
  }

  /** A line is handed back exactly when no open reference is named by its tag. */
  lemma HandedBackIffNotHeld(b: Bounds, h: seq<Event>, m: Message)
    ensures Stepped(b, Reached(b, h), Line(m)).1 ==
            if BatchTag(m).Some? && BatchTag(m).value in OpenRefs(b, h) then Nothing else HandedBack(m)
  {
    EveryBatchTellsItsOwnStory(b, h);
  }

  // ---- ancestors ----

  /** The reference so many parents up, while every one on the way is open. */
  function Ancestor(st: State, reference: string, k: nat): (r: Option<string>)
    ensures r.Some? ==> r.value in st
  {
    if k == 0 then (if reference in st then Some(reference) else None)
    else
      match Ancestor(st, reference, k - 1)
      case None => None
      case Some(child) =>
        var parent := st[child].parent;
        if parent.Some? && parent.value in st then parent else None
  }

  predicate Named(st: State, reference: string, kind: string, k: nat) {
    var r := Ancestor(st, reference, k);
    r.Some? && st[r.value].kind == kind
  }

  predicate OtherKind(st: State, reference: string, kind: string, k: nat) {
    var r := Ancestor(st, reference, k);
    r.Some? && st[r.value].kind != kind
  }

  /** Some open batch reachable through parents, starting at the reference itself, has that kind. */
  ghost predicate Within(st: State, reference: string, kind: string) {
    exists k: nat :: Named(st, reference, kind, k)
  }

  lemma {:induction false} ChainStaysEnded(st: State, reference: string, n: nat, k: nat)
    requires n <= k && Ancestor(st, reference, n) == None
    ensures Ancestor(st, reference, k) == None
    decreases k
  {
    if n < k {
      ChainStaysEnded(st, reference, n, k - 1);
    }
  }

  lemma ChainEnded(st: State, reference: string, kind: string, n: nat)
    requires Ancestor(st, reference, n) == None
    requires forall k | 0 <= k < n :: OtherKind(st, reference, kind, k)
    ensures !Within(st, reference, kind)
  {
    forall k: nat ensures !Named(st, reference, kind, k) {
      if k < n {
        assert OtherKind(st, reference, kind, k);
      } else {
        ChainStaysEnded(st, reference, n, k);
      }
    }
  }

  /** More entries than a set has members repeat one of them. */
  lemma {:induction false} Pigeonhole<T>(s: seq<T>, members: set<T>) returns (i: nat, j: nat)
    requires |s| > |members| && forall x | x in s :: x in members
    ensures i < j < |s| && s[i] == s[j]
  {
    var n := |s| - 1;
    if s[n] in s[..n] {
      i :| 0 <= i < n && s[i] == s[n];
      j := n;
    } else {
      i, j := Pigeonhole(s[..n], members - {s[n]});
    }
  }

  lemma {:induction false} Periodic(st: State, reference: string, i: nat, j: nat, t: nat)
    requires i < j && Ancestor(st, reference, i) == Ancestor(st, reference, j)
    ensures Ancestor(st, reference, i + t) == Ancestor(st, reference, j + t)
  {
    if t > 0 {
      Periodic(st, reference, i, j, t - 1);
    }
  }

  lemma {:induction false} CycleRepeats(st: State, reference: string, kind: string, n: nat, i: nat, j: nat, k: nat)
    requires i < j < n && Ancestor(st, reference, i) == Ancestor(st, reference, j)
    requires forall m | 0 <= m < n :: OtherKind(st, reference, kind, m)
    ensures !Named(st, reference, kind, k)
  {
    if k < n {
      assert OtherKind(st, reference, kind, k);
    } else {
      Periodic(st, reference, i, j, k - j);
      CycleRepeats(st, reference, kind, n, i, j, k - (j - i));
    }
  }

  /** Past as many steps as there are open batches every entry has been seen, so nothing new can follow. */
  lemma CycleHidesNothing(st: State, reference: string, kind: string, n: nat)
    requires n > |st| && forall k | 0 <= k < n :: OtherKind(st, reference, kind, k)
    ensures !Within(st, reference, kind)
  {
    forall k | 0 <= k < n ensures Ancestor(st, reference, k).Some? {
      assert OtherKind(st, reference, kind, k);
    }
    var path := seq(n, k requires 0 <= k < n => Ancestor(st, reference, k).value);
    assert |st.Keys| == |st|;
    var i, j := Pigeonhole(path, st.Keys);
    assert path[i] == path[j] && Ancestor(st, reference, i) == Ancestor(st, reference, j);
    forall k: nat ensures !Named(st, reference, kind, k) {
      CycleRepeats(st, reference, kind, n, i, j, k);
    }
  }
}
