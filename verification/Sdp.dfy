/**
 Cutting a long session description into chunks and putting it together again (crates/obby-client/src/voice.rs:951-1074).
 Text is its UTF-8 bytes. The chunks are exactly the greedy cutting at character boundaries, and the bounded
 reassembler gives the original back from any order, with repeats, among other traffic.
 */
module Sdp {
  import opened Wrappers
  import opened Maps
  import opened Integers

  // ---- characters ----

  predicate Continuation(b: byte) {
    0x80 <= b < 0xC0
  }

  /** How many bytes a character takes, by its first. */
  function Width(lead: byte): nat {
    if lead < 0x80 then 1
    else if 0xC0 <= lead < 0xE0 then 2
    else if 0xE0 <= lead < 0xF0 then 3
    else if 0xF0 <= lead < 0xF8 then 4
    else 0
  }

  predicate Character(s: bytes, w: nat) {
    1 <= w <= |s| && w == Width(s[0]) && forall k | 1 <= k < w :: Continuation(s[k])
  }

  /** A sequence of whole characters. */
  predicate Utf8(s: bytes) {
    s == [] || (Character(s, Width(s[0])) && Utf8(s[Width(s[0])..]))
  }

  predicate Boundary(s: bytes, i: nat)
    requires i <= |s|
  {
    i == |s| || !Continuation(s[i])
  }

  lemma {:induction false} CutAtBoundary(s: bytes, i: nat)
    requires Utf8(s) && i <= |s| && Boundary(s, i)
    ensures Utf8(s[..i]) && Utf8(s[i..])
    decreases |s|
  {
    if i > 0 {
      var w := Width(s[0]);
      assert i >= w;
      var rest := s[w..];
      CutAtBoundary(rest, i - w);
      assert s[..i][w..] == rest[..i - w] && rest[i - w..] == s[i..];
    }
  }

  lemma CutTwice(s: bytes, i: nat, j: nat)
    requires Utf8(s) && i <= j <= |s| && Boundary(s, i) && Boundary(s, j)
    ensures Utf8(s[i..j])
  {
    CutAtBoundary(s, j);
    assert Boundary(s[..j], i) && s[..j][i..] == s[i..j];
    CutAtBoundary(s[..j], i);
  }

  /** The boundary after a boundary is one character on. */
  lemma NextBoundary(s: bytes, i: nat)
    requires Utf8(s) && i < |s| && Boundary(s, i)
    ensures var w := Width(s[i]);
            && 1 <= w && i + w <= |s| && Boundary(s, i + w)
            && forall k | i < k < i + w :: !Boundary(s, k)
  {
    CutAtBoundary(s, i);
    var rest, w := s[i..], Width(s[i]);
    assert Character(rest, w);
    forall k | i < k < i + w ensures !Boundary(s, k) {
      assert Continuation(rest[k - i]);
    }
    if i + w < |s| {
      var tail := rest[w..];
      assert Character(tail, Width(tail[0])) && tail[0] == s[i + w];
    }
  }

  // ---- the cutting ----

  function Flatten(pieces: seq<bytes>): bytes {
    if pieces == [] then [] else pieces[0] + Flatten(pieces[1..])
  }

  lemma {:induction false} FlattenOneMore(pieces: seq<bytes>, last: bytes)
    ensures Flatten(pieces + [last]) == Flatten(pieces) + last
  {
    if pieces == [] {
      assert [last][1..] == [];
    } else {
      assert (pieces + [last])[1..] == pieces[1..] + [last];
      FlattenOneMore(pieces[1..], last);
    }
  }

  /** Whole characters within the budget, or a single character that is wider. */
  predicate Piece(c: bytes, budget: nat) {
    c != [] && Utf8(c) && (|c| <= budget || |c| == Width(c[0]))
  }

  predicate Pieces(chunks: seq<bytes>, budget: nat) {
    forall i | 0 <= i < |chunks| :: Piece(chunks[i], budget)
  }

  /** No piece had room for the first character of the next. */
  predicate Greedy(chunks: seq<bytes>, budget: nat)
    requires Pieces(chunks, budget)
  {
    forall i | 0 < i < |chunks| :: |chunks[i - 1]| + Width(chunks[i][0]) > budget
  }

  predicate IsChunking(s: bytes, budget: nat, chunks: seq<bytes>) {
    Flatten(chunks) == s && Pieces(chunks, budget) && Greedy(chunks, budget)
  }

  method CharChunks(s: bytes, budget: nat) returns (chunks: seq<bytes>)
    requires Utf8(s) && budget > 0
    ensures IsChunking(s, budget, chunks)
  {
    chunks := [];
    var start := 0;
    while start < |s|
      invariant start <= |s| && Boundary(s, start)
      invariant IsChunking(s[..start], budget, chunks)
      invariant 0 < start < |s| ==> chunks != [] && |chunks[|chunks| - 1]| + Width(s[start]) > budget
    {
      var end := NextCut(s, start, budget);
      FlattenOneMore(chunks, s[start..end]);
      assert s[..end] == s[..start] + s[start..end];
      chunks := chunks + [s[start..end]];
      start := end;
    }
    assert s[..start] == s;
  }

  /** The two inner loops: step back to a boundary, or forward when there is none to step back to. */
  method NextCut(s: bytes, start: nat, budget: nat) returns (end: nat)
    requires Utf8(s) && budget > 0 && start < |s| && Boundary(s, start)
    ensures start < end <= |s| && Boundary(s, end) && Piece(s[start..end], budget)
    ensures end < |s| ==> end - start + Width(s[end]) > budget
  {
    var limit := if start + budget < |s| then start + budget else |s|;
    end := limit;
    while end > start && !Boundary(s, end)
      invariant start <= end <= limit
      invariant forall k | end < k <= limit :: !Boundary(s, k)
    {
      end := end - 1;
    }
    NextBoundary(s, start);
    if end == start {
      end := start + 1;
      while end < |s| && !Boundary(s, end)
        invariant start < end <= start + Width(s[start])
      {
        end := end + 1;
      }
      assert end == start + Width(s[start]);
    } else if end < |s| {
      NextBoundary(s, end);
    }
    CutTwice(s, start, end);
  }

  lemma {:induction false} PiecesAreBoundaries(a: bytes, b: bytes)
    requires Utf8(a) && Utf8(b) && |a| < |b| && a <= b
    ensures Boundary(b, |a|)
    decreases |a|
  {
    NextBoundary(b, 0);
    if a != [] {
      var w := Width(a[0]);
      assert a[w..] <= b[w..] by {
        assert b[w..][..|a| - w] == a[w..];
      }
      PiecesAreBoundaries(a[w..], b[w..]);
    }
  }

  /** A piece that goes on after a whole part of it shows that part had room for the next character. */
  lemma PartHadRoom(part: bytes, piece: bytes, budget: nat)
    requires Piece(piece, budget) && Utf8(part) && part != [] && part <= piece && |part| < |piece|
    ensures |part| + Width(piece[|part|]) <= budget
  {
    PiecesAreBoundaries(part, piece);
    NextBoundary(piece, |part|);
    NextBoundary(piece, 0);
    assert Boundary(part, 0) && part[0] == piece[0];
    NextBoundary(part, 0);
  }

  lemma NextPieceDidNotFit(s: bytes, budget: nat, a: seq<bytes>)
    requires IsChunking(s, budget, a) && a != [] && |a[0]| < |s|
    ensures |a[0]| + Width(s[|a[0]|]) > budget
  {
    assert Flatten(a[1..]) == s[|a[0]|..];
    assert |a| > 1 && a[1..][0] == a[1];
    assert a[1][0] == s[|a[0]|];
  }

  lemma FirstPieceIsForced(s: bytes, budget: nat, a: seq<bytes>, b: seq<bytes>)
    requires IsChunking(s, budget, a) && IsChunking(s, budget, b) && s != []
    ensures a != [] && b != [] && |a[0]| >= |b[0]|
  {
    if |a[0]| < |b[0]| {
      assert a[0] == s[..|a[0]|] && b[0] == s[..|b[0]|];
      assert a[0] <= b[0] && b[0][|a[0]|] == s[|a[0]|];
      PartHadRoom(a[0], b[0], budget);
      NextPieceDidNotFit(s, budget, a);
    }
  }

  /** There is only one such cutting: the contract of the loop determines its result. */
  lemma {:induction false} ChunkingIsUnique(s: bytes, budget: nat, a: seq<bytes>, b: seq<bytes>)
    requires IsChunking(s, budget, a) && IsChunking(s, budget, b)
    ensures a == b
    decreases |a|
  {
    if s == [] {
      assert a == [] && b == [];
    } else {
      FirstPieceIsForced(s, budget, a, b);
      FirstPieceIsForced(s, budget, b, a);
      assert a[0] == s[..|a[0]|] && b[0] == s[..|b[0]|];
      var rest := s[|a[0]|..];
      assert Flatten(a[1..]) == rest && Flatten(b[1..]) == rest;
      ChunkingIsUnique(rest, budget, a[1..], b[1..]);
      assert a == [a[0]] + a[1..] && b == [b[0]] + b[1..];
    }
  }

  // ---- chunks ----

  datatype ChunkMeta = ChunkMeta(id: string, seq_: u32, total: u32)

  datatype SdpChunk = SdpChunk(chunk: ChunkMeta, sdp: bytes)

  function Saturated(n: nat): u32 {
    if n <= U32_MAX then n else U32_MAX
  }

  /** Number the pieces. Text that already fits is not cut at all. */
  method SplitSdp(sdp: bytes, id: string, budget: nat) returns (r: Option<seq<SdpChunk>>)
    requires Utf8(sdp)
    ensures r.None? <==> budget == 0 || |sdp| <= budget
    ensures r.Some? ==> exists pieces :: IsChunking(sdp, budget, pieces) && r.value == Numbered(id, pieces)
  {
    if budget == 0 || |sdp| <= budget {
      return None;
    }
    var slices := CharChunks(sdp, budget);
    r := Some(Numbered(id, slices));
  }

  function Numbered(id: string, pieces: seq<bytes>): seq<SdpChunk> {
    seq(|pieces|, i requires 0 <= i < |pieces| => SdpChunk(ChunkMeta(id, Saturated(i), Saturated(|pieces|)), pieces[i]))
  }

  // ---- putting together ----

  datatype Partial = Partial(total: u32, parts: map<nat, bytes>)

  datatype Bounds = Bounds(maxChunks: nat, maxConcurrent: nat)

  type Partials = map<string, Partial>

  /** The parts from the first on, as many as asked, if none is missing. */
  function Joined(parts: map<nat, bytes>, count: nat): Option<bytes> {
    if count == 0 then Some([])
    else if count - 1 !in parts then None
    else
      match Joined(parts, count - 1)
      case None => None
      case Some(front) => Some(front + parts[count - 1])
  }

  /** One chunk fed in: the new state, and the whole text when this was its last missing piece. */
  function Pushed(b: Bounds, st: Partials, c: ChunkMeta, sdp: bytes): (Partials, Option<bytes>) {
    if c.total == 0 || c.total > b.maxChunks || c.seq_ >= c.total then (st, None)
    else if c.id !in st && |st| >= b.maxConcurrent then (st, None)
    else
      var p := if c.id in st then st[c.id] else Partial(c.total, map[]);
      if p.total != c.total then (st, None)
      else
        var q := p.(parts := p.parts[c.seq_ := sdp]);
        if |q.parts| != c.total then (st[c.id := q], None) else (st - {c.id}, Joined(q.parts, q.total))
  }

  /** A chunk that cannot belong: to no text there is, by its numbers or its total, or for which there is no room. */
  predicate IllFitting(b: Bounds, st: Partials, c: ChunkMeta) {
    || c.total == 0 || c.total > b.maxChunks || c.seq_ >= c.total
    || (if c.id in st then st[c.id].total != c.total else |st| >= b.maxConcurrent)
  }

  /** An ill-fitting chunk changes nothing; any other is taken down in its place, and touches no other text. */
  lemma ChunkIsTakenDown(b: Bounds, st: Partials, c: ChunkMeta, sdp: bytes)
    requires Bounded(b, st)
    ensures var (after, r) := Pushed(b, st, c, sdp);
            var held := if c.id in st then st[c.id].parts else map[];
            && (IllFitting(b, st, c) ==> after == st && r == None)
            && (!IllFitting(b, st, c) ==>
                  var parts := held[c.seq_ as nat := sdp];
                  if forall k: nat | k < c.total :: k in parts then after == st - {c.id} && r == Joined(parts, c.total) && r.Some?
                  else after == st[c.id := Partial(c.total, parts)] && r == None)
  {
    if !IllFitting(b, st, c) {
      var parts := (if c.id in st then st[c.id].parts else map[])[c.seq_ as nat := sdp];
      AllThereIff(parts, c.total);
    }
  }

  /** Parts numbered below a total are as many as it exactly when none is missing, and then they join. */
  lemma AllThereIff(parts: map<nat, bytes>, total: nat)
    requires forall k | k in parts :: k < total
    ensures |parts| == total <==> forall k: nat | k < total :: k in parts
    ensures |parts| == total ==> Joined(parts, total).Some?
  {
    assert |parts.Keys| == |parts|;
    NumbersBelow(parts.Keys, total);
    if forall k: nat | k < total :: k in parts {
      var all := UpTo(total);
      assert parts.Keys == all;
      JoinedIfThere(parts, total);
    }
  }

  lemma {:induction false} JoinedIfThere(parts: map<nat, bytes>, count: nat)
    requires forall k: nat | k < count :: k in parts
    ensures Joined(parts, count).Some?
  {
    if count > 0 {
      JoinedIfThere(parts, count - 1);
    }
  }

  /** An entry waits for at least one more part, and holds at least one. */
  predicate Waiting(b: Bounds, p: Partial) {
    0 < |p.parts| < p.total <= b.maxChunks && forall k | k in p.parts :: k < p.total
  }

  predicate Bounded(b: Bounds, st: Partials) {
    |st| <= b.maxConcurrent && forall id | id in st :: Waiting(b, st[id])
  }

  lemma PartStillWaits(b: Bounds, c: ChunkMeta, p: Partial, sdp: bytes)
    requires c.seq_ < c.total == p.total <= b.maxChunks && (p.parts == map[] || Waiting(b, p))
    ensures var q := p.(parts := p.parts[c.seq_ := sdp]);
            (|q.parts| == c.total || Waiting(b, q)) && forall k | k in q.parts :: k < q.total
  {
    PutSize(p.parts, c.seq_, sdp);
  }

  lemma PutKeepsBounds(b: Bounds, st: Partials, id: string, p: Partial)
    requires Bounded(b, st) && Waiting(b, p) && (id in st || |st| < b.maxConcurrent)
    ensures Bounded(b, st[id := p])
  {
    PutSize(st, id, p);
  }

  lemma RemoveKeepsBounds(b: Bounds, st: Partials, id: string)
    requires Bounded(b, st)
    ensures Bounded(b, st - {id})
  {
    RemoveSize(st, id);
  }

  /** However the chunks arrive, the buffer stays within both bounds. */
  lemma PushKeepsBounds(b: Bounds, st: Partials, c: ChunkMeta, sdp: bytes)
    requires Bounded(b, st)
    ensures Bounded(b, Pushed(b, st, c, sdp).0)
  {
    var p := if c.id in st then st[c.id] else Partial(c.total, map[]);
    var q := p.(parts := p.parts[c.seq_ := sdp]);
    if c.seq_ < c.total == p.total <= b.maxChunks && (c.id in st || |st| < b.maxConcurrent) {
      PartStillWaits(b, c, p, sdp);
      if |q.parts| != c.total {
        PutKeepsBounds(b, st, c.id, q);
      } else {
        RemoveKeepsBounds(b, st, c.id);
      }
    }
  }

  lemma {:induction false} NumbersBelow(s: set<nat>, n: nat)
    requires forall k | k in s :: k < n
    ensures |s| <= n && (|s| == n ==> forall k | 0 <= k < n :: k in s)
  {
    if n > 0 {
      NumbersBelow(s - {n - 1}, n - 1);
    }
  }

  class SdpReassembler {
    const bounds: Bounds
    var partials: Partials

    ghost predicate Valid()
      reads this
    {
      Bounded(bounds, partials)
    }

    constructor (bounds: Bounds)
      ensures Valid() && this.bounds == bounds && partials == map[]
    {
      this.bounds := bounds;
      partials := map[];
    }

    method Push(chunk: ChunkMeta, sdp: bytes) returns (r: Option<bytes>)
      requires Valid()
      modifies this
      ensures Valid() && (partials, r) == Pushed(bounds, old(partials), chunk, sdp)
    {
      PushKeepsBounds(bounds, partials, chunk, sdp);
      if chunk.total == 0 || chunk.total > bounds.maxChunks || chunk.seq_ >= chunk.total {
        return None;
      }
      if chunk.id !in partials && |partials| >= bounds.maxConcurrent {
        return None;
      }
      var partial := if chunk.id in partials then partials[chunk.id] else Partial(chunk.total, map[]);
      if partial.total != chunk.total {
        return None;
      }
      PartStillWaits(bounds, chunk, partial, sdp);
      partial := partial.(parts := partial.parts[chunk.seq_ := sdp]);
      if |partial.parts| != chunk.total {
        partials := partials[chunk.id := partial];
        return None;
      }
      partials := partials - {chunk.id};
      r := JoinParts(partial);
    }

    method JoinParts(complete: Partial) returns (r: Option<bytes>)
      requires |complete.parts| == complete.total && forall k | k in complete.parts :: k < complete.total
      ensures r == Joined(complete.parts, complete.total) && r.Some?
    {
      NumbersBelow(complete.parts.Keys, complete.total);
      assert |complete.parts.Keys| == |complete.parts|;
      var joined: bytes := [];
      for k := 0 to complete.total
        invariant Joined(complete.parts, k) == Some(joined)
      {
        joined := joined + complete.parts[k];
      }
      return Some(joined);
    }

    method DropAll()
      modifies this
      ensures Valid() && partials == map[]
    {
      partials := map[];
    }
  }

  // ---- any order, repeats, other traffic ----

  /** The state after a run of chunks. */
  function Fed(b: Bounds, st: Partials, inputs: seq<SdpChunk>): Partials {
    if inputs == [] then st
    else
      var last := inputs[|inputs| - 1];
      Pushed(b, Fed(b, st, inputs[..|inputs| - 1]), last.chunk, last.sdp).0
  }

  /** What the chunk at a position of a run answered. */
  function Answer(b: Bounds, st: Partials, inputs: seq<SdpChunk>, i: nat): Option<bytes>
    requires i < |inputs|
  {
    Pushed(b, Fed(b, st, inputs[..i]), inputs[i].chunk, inputs[i].sdp).1
  }

  /** Which positions of one text a run has brought. */
  function Seen(inputs: seq<SdpChunk>, id: string): set<nat> {
    set c | c in inputs && c.chunk.id == id :: c.chunk.seq_ as nat
  }

  /** Every chunk under this id is one of the numbered pieces; the rest of the run is anything. */
  predicate Genuine(inputs: seq<SdpChunk>, id: string, pieces: seq<bytes>) {
    forall c | c in inputs && c.chunk.id == id :: c in Numbered(id, pieces)
  }

  function PartsOf(pieces: seq<bytes>, seen: set<nat>): map<nat, bytes> {
    map k | k in seen && k < |pieces| :: pieces[k]
  }

  predicate Fits(b: Bounds, pieces: seq<bytes>) {
    0 < |pieces| <= b.maxChunks && |pieces| <= U32_MAX
  }

  /** While pieces are missing, the entry holds exactly those that arrived. */
  predicate Holds(st: Partials, id: string, pieces: seq<bytes>, seen: set<nat>) {
    id in st && st[id] == Partial(Saturated(|pieces|), PartsOf(pieces, seen))
  }

  lemma OthersLeaveItAlone(b: Bounds, st: Partials, c: SdpChunk, id: string)
    requires c.chunk.id != id
    ensures var after := Pushed(b, st, c.chunk, c.sdp).0;
            (id in after <==> id in st) && (id in st ==> after[id] == st[id])
  {
  }

  lemma GenuineChunk(c: SdpChunk, id: string, pieces: seq<bytes>)
    requires c in Numbered(id, pieces) && 0 < |pieces| <= U32_MAX
    ensures var k := c.chunk.seq_;
            k < |pieces| && c == SdpChunk(ChunkMeta(id, k, |pieces|), pieces[k])
  {
  }

  lemma {:induction false} AllPartsJoin(pieces: seq<bytes>, parts: map<nat, bytes>, count: nat)
    requires count <= |pieces| && forall k | 0 <= k < count :: k in parts && parts[k] == pieces[k]
    ensures Joined(parts, count) == Some(Flatten(pieces[..count]))
  {
    if count > 0 {
      AllPartsJoin(pieces, parts, count - 1);
      FlattenOneMore(pieces[..count - 1], pieces[count - 1]);
      assert pieces[..count] == pieces[..count - 1] + [pieces[count - 1]];
    }
  }

  lemma {:induction false} UpTo(n: nat) returns (s: set<nat>)
    ensures |s| == n && forall k: nat :: k in s <==> k < n
  {
    if n == 0 {
      s := {};
    } else {
      s := UpTo(n - 1);
      s := s + {n - 1};
    }
  }

  lemma PartsGrow(pieces: seq<bytes>, seen: set<nat>, k: nat)
    requires k < |pieces| && forall j | j in seen :: j < |pieces|
    ensures PartsOf(pieces, seen)[k := pieces[k]] == PartsOf(pieces, seen + {k})
    ensures |PartsOf(pieces, seen + {k})| == |seen + {k}|
  {
    var now := seen + {k};
    assert PartsOf(pieces, now).Keys == now;
    assert |PartsOf(pieces, now)| == |PartsOf(pieces, now).Keys|;
  }

  lemma AllSeenJoin(pieces: seq<bytes>, seen: set<nat>)
    requires |seen| == |pieces| && forall k | k in seen :: k < |pieces|
    ensures Joined(PartsOf(pieces, seen), |pieces|) == Some(Flatten(pieces))
  {
    NumbersBelow(seen, |pieces|);
    AllPartsJoin(pieces, PartsOf(pieces, seen), |pieces|);
    assert pieces[..|pieces|] == pieces;
  }

  /** A genuine piece that arrives: it completes the text exactly when no other is missing. */
  lemma GenuinePush(b: Bounds, st: Partials, c: SdpChunk, id: string, pieces: seq<bytes>, seen: set<nat>)
    requires Fits(b, pieces) && c in Numbered(id, pieces) && forall k | k in seen :: k < |pieces|
    requires if seen == {} then id !in st && |st| < b.maxConcurrent else Holds(st, id, pieces, seen)
    ensures var (after, r) := Pushed(b, st, c.chunk, c.sdp);
            var now := seen + {c.chunk.seq_ as nat};
            if |now| == |pieces| then r == Some(Flatten(pieces)) && id !in after
            else r == None && Holds(after, id, pieces, now)
  {
    GenuineChunk(c, id, pieces);
    var now := seen + {c.chunk.seq_ as nat};
    PartsGrow(pieces, seen, c.chunk.seq_);
    assert seen == {} ==> PartsOf(pieces, seen) == map[];
    if |now| == |pieces| {
      AllSeenJoin(pieces, now);
    }
  }

  lemma SeenSoFar(inputs: seq<SdpChunk>, id: string, pieces: seq<bytes>)
    requires inputs != [] && Genuine(inputs, id, pieces) && Fits(Bounds(|pieces|, 0), pieces)
    ensures var last := inputs[|inputs| - 1];
            Seen(inputs, id) ==
            Seen(inputs[..|inputs| - 1], id) + (if last.chunk.id == id then {last.chunk.seq_ as nat} else {})
    ensures Genuine(inputs[..|inputs| - 1], id, pieces)
    ensures forall k | k in Seen(inputs, id) :: k < |pieces|
  {
    var front, last := inputs[..|inputs| - 1], inputs[|inputs| - 1];
    assert inputs == front + [last];
    forall c | c in inputs && c.chunk.id == id ensures c.chunk.seq_ < |pieces| {
      GenuineChunk(c, id, pieces);
    }
  }

  lemma FewerSeen(inputs: seq<SdpChunk>, n: nat, id: string)
    requires n <= |inputs|
    ensures Seen(inputs[..n], id) <= Seen(inputs, id) && |Seen(inputs[..n], id)| <= |Seen(inputs, id)|
  {
    SubsetSize(Seen(inputs[..n], id), Seen(inputs, id));
  }

  /** A run that starts with a piece of a text there is room for, and has not completed it before its last chunk. */
  predicate Underway(b: Bounds, st: Partials, inputs: seq<SdpChunk>, id: string, pieces: seq<bytes>) {
    && Fits(b, pieces) && Genuine(inputs, id, pieces)
    && id !in st && |st| < b.maxConcurrent
    && inputs != [] && inputs[0].chunk.id == id
    && |Seen(inputs[..|inputs| - 1], id)| < |pieces|
  }

  lemma FrontUnderway(b: Bounds, st: Partials, inputs: seq<SdpChunk>, id: string, pieces: seq<bytes>)
    requires Underway(b, st, inputs, id, pieces) && |inputs| > 1
    ensures Underway(b, st, inputs[..|inputs| - 1], id, pieces)
  {
    var front := inputs[..|inputs| - 1];
    FewerSeen(front, |front| - 1, id);
  }

  /** The last chunk of a run, whatever state the ones before it led to. */
  lemma LastChunk(b: Bounds, st: Partials, inputs: seq<SdpChunk>, id: string, pieces: seq<bytes>, seen: set<nat>)
    requires Fits(b, pieces) && Genuine(inputs, id, pieces) && inputs != []
    requires seen == Seen(inputs[..|inputs| - 1], id)
    requires if seen == {} then id !in st && |st| < b.maxConcurrent && inputs[|inputs| - 1].chunk.id == id
             else |seen| < |pieces| && Holds(st, id, pieces, seen)
    ensures var last := inputs[|inputs| - 1];
            var (after, r) := Pushed(b, st, last.chunk, last.sdp);
            && (|Seen(inputs, id)| < |pieces| ==> Holds(after, id, pieces, Seen(inputs, id)) && Seen(inputs, id) != {})
            && (last.chunk.id == id ==> r == if |Seen(inputs, id)| == |pieces| then Some(Flatten(pieces)) else None)
  {
    var last := inputs[|inputs| - 1];
    SeenSoFar(inputs, id, pieces);
    if last.chunk.id == id {
      GenuinePush(b, st, last, id, pieces, seen);
    } else {
      OthersLeaveItAlone(b, st, last, id);
    }
  }

  lemma {:induction false} RunHolds(b: Bounds, st: Partials, inputs: seq<SdpChunk>, id: string, pieces: seq<bytes>)
    requires Underway(b, st, inputs, id, pieces)
    ensures |Seen(inputs, id)| < |pieces| ==> Holds(Fed(b, st, inputs), id, pieces, Seen(inputs, id)) && Seen(inputs, id) != {}
    ensures inputs[|inputs| - 1].chunk.id == id ==>
              Answer(b, st, inputs, |inputs| - 1) ==
              if |Seen(inputs, id)| == |pieces| then Some(Flatten(pieces)) else None
    decreases |inputs|
  {
    var front := inputs[..|inputs| - 1];
    if |inputs| > 1 {
      FrontUnderway(b, st, inputs, id, pieces);
      RunHolds(b, st, front, id, pieces);
    } else {
      assert front == [];
    }
    LastChunk(b, Fed(b, st, front), inputs, id, pieces, Seen(front, id));
  }

  /**
   The pieces of a cut text, arriving in any order, with repeats, among chunks of any other texts: every one
   but the last missing piece answers nothing, and that one answers exactly the original text.
   */
  lemma AnyOrderGivesTheTextBack(b: Bounds, st: Partials, inputs: seq<SdpChunk>, id: string, sdp: bytes, budget: nat, pieces: seq<bytes>)
    requires IsChunking(sdp, budget, pieces) && Underway(b, st, inputs, id, pieces)
    requires inputs[|inputs| - 1].chunk.id == id && forall k: nat | k < |pieces| :: k in Seen(inputs, id)
    ensures Answer(b, st, inputs, |inputs| - 1) == Some(sdp)
    ensures forall i | 0 <= i < |inputs| - 1 && inputs[i].chunk.id == id :: Answer(b, st, inputs, i) == None
  {
    AllSeen(inputs, id, pieces);
    RunHolds(b, st, inputs, id, pieces);
    forall i | 0 <= i < |inputs| - 1 && inputs[i].chunk.id == id ensures Answer(b, st, inputs, i) == None {
      EarlierAnswer(b, st, inputs, id, pieces, i);
    }
  }

  lemma AllSeen(inputs: seq<SdpChunk>, id: string, pieces: seq<bytes>)
    requires inputs != [] && Genuine(inputs, id, pieces) && 0 < |pieces| <= U32_MAX
    requires forall k: nat | k < |pieces| :: k in Seen(inputs, id)
    ensures |Seen(inputs, id)| == |pieces|
  {
    var all := UpTo(|pieces|);
    SeenSoFar(inputs, id, pieces);
    assert Seen(inputs, id) == all;
  }

  lemma PrefixUnderway(b: Bounds, st: Partials, inputs: seq<SdpChunk>, id: string, pieces: seq<bytes>, i: nat)
    requires Underway(b, st, inputs, id, pieces) && i < |inputs| - 1
    ensures Underway(b, st, inputs[..i + 1], id, pieces) && |Seen(inputs[..i + 1], id)| < |pieces|
  {
    var front := inputs[..|inputs| - 1];
    FewerSeen(front, i + 1, id);
    FewerSeen(front, i, id);
    assert front[..i + 1] == inputs[..i + 1] && front[..i] == inputs[..i] && inputs[..i + 1][..i] == inputs[..i];
  }

  lemma PrefixAnswer(b: Bounds, st: Partials, inputs: seq<SdpChunk>, i: nat)
    requires i < |inputs|
    ensures Answer(b, st, inputs[..i + 1], i) == Answer(b, st, inputs, i)
  {
    assert inputs[..i + 1][..i] == inputs[..i];
  }

  lemma EarlierAnswer(b: Bounds, st: Partials, inputs: seq<SdpChunk>, id: string, pieces: seq<bytes>, i: nat)
    requires Underway(b, st, inputs, id, pieces) && i < |inputs| - 1 && inputs[i].chunk.id == id
    ensures Answer(b, st, inputs, i) == None
  {
    PrefixUnderway(b, st, inputs, id, pieces, i);
    RunHolds(b, st, inputs[..i + 1], id, pieces);
    PrefixAnswer(b, st, inputs, i);
  }

  /** Every state a fresh reassembler can get into, whatever it is fed, is within both bounds. */
  lemma {:induction false} AlwaysBounded(b: Bounds, inputs: seq<SdpChunk>)
    ensures Bounded(b, Fed(b, map[], inputs))
  {
    if inputs != [] {
      var last := inputs[|inputs| - 1];
      AlwaysBounded(b, inputs[..|inputs| - 1]);
      PushKeepsBounds(b, Fed(b, map[], inputs[..|inputs| - 1]), last.chunk, last.sdp);
    }
  }
}
