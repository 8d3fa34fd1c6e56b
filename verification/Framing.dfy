/**
 Cutting the inbound byte stream into lines (crates/obby-client/src/client.rs:1016-1040 and 1781). However the
 stream is cut into reads, only whole lines are handed on, in order, and none of legal length is lost.
 */
module Framing {
  import opened Integers

  const NEWLINE: byte := 10

  /** The tag budget and the rest of the line. */
  const MAX_INBOUND_LINE: nat := 8191 + 512

  function Position(s: bytes): (i: nat)
    ensures i <= |s| && NEWLINE !in s[..i] && (i < |s| ==> s[i] == NEWLINE)
  {
    if s == [] || s[0] == NEWLINE then 0 else 1 + Position(s[1..])
  }

  /** The complete lines of a stream, each with its newline. */
  function Lines(s: bytes): (lines: seq<bytes>)
    decreases |s|
  {
    var i := Position(s);
    if i == |s| then [] else [s[..i + 1]] + Lines(s[i + 1..])
  }

  /** What follows the last newline. */
  function Tail(s: bytes): bytes
    decreases |s|
  {
    var i := Position(s);
    if i == |s| then s else Tail(s[i + 1..])
  }

  datatype State = State(partial: bytes, discarding: bool)

  /** The loop over a filled buffer: the state it leaves and the lines it hands to the parser. */
  function Drained(st: State): (State, seq<bytes>)
    decreases |st.partial|
  {
    var end := Position(st.partial);
    if end == |st.partial| then
      (if |st.partial| > MAX_INBOUND_LINE then State([], true) else st, [])
    else
      var (after, lines) := Drained(State(st.partial[end + 1..], false));
      (after, if st.discarding then lines else [st.partial[..end + 1]] + lines)
  }

  function Received(st: State, data: bytes): (State, seq<bytes>) {
    Drained(st.(partial := st.partial + data))
  }

  class Framer {
    var partial: bytes
    var discarding: bool
    /** Everything handed to the parser so far. */
    var handed: seq<bytes>

    function View(): State
      reads this
    {
      State(partial, discarding)
    }

    constructor ()
      ensures View() == State([], false) && handed == []
    {
      partial, discarding, handed := [], false, [];
    }

    method HandleBytes(data: bytes)
      modifies this
      ensures View() == Received(old(View()), data).0
      ensures handed == old(handed) + Received(old(View()), data).1
    {
      partial := partial + data;
      ghost var all := Drained(View());
      while true
        invariant Drained(View()).0 == all.0
        invariant handed + Drained(View()).1 == old(handed) + all.1
        decreases |partial|
      {
        var end := Position(partial);
        if end == |partial| {
          if |partial| > MAX_INBOUND_LINE {
            partial := [];
            discarding := true;
          }
          return;
        }
        var line := partial[..end + 1];
        partial := partial[end + 1..];
        if discarding {
          discarding := false;
          continue;
        }
        handed := handed + [line];
      }
    }
  }

  // ---- streams and their lines ----

  lemma {:induction false} PositionOfFirst(line: bytes, rest: bytes)
    requires NEWLINE !in line
    ensures Position(line + [NEWLINE] + rest) == |line|
  {
    if line != [] {
      PositionOfFirst(line[1..], rest);
      assert (line + [NEWLINE] + rest)[1..] == line[1..] + [NEWLINE] + rest;
    }
  }

  /** A stream that begins with a complete line. */
  lemma FirstLine(s: bytes, line: bytes, rest: bytes)
    requires s == line + [NEWLINE] + rest && NEWLINE !in line
    ensures Position(s) == |line| && s[..|line| + 1] == line + [NEWLINE] && s[|line| + 1..] == rest
    ensures Lines(s) == [line + [NEWLINE]] + Lines(rest) && Tail(s) == Tail(rest)
  {
    PositionOfFirst(line, rest);
  }

  lemma LineThenMore(line: bytes, rest: bytes, data: bytes)
    ensures (line + [NEWLINE] + rest) + data == line + [NEWLINE] + (rest + data)
  {
  }

  lemma MoreThenLine(a: bytes, line: bytes, rest: bytes)
    ensures a + (line + [NEWLINE] + rest) == (a + line) + [NEWLINE] + rest
  {
  }

  /** A stream without a newline is all tail. */
  lemma NoLine(s: bytes)
    requires NEWLINE !in s
    ensures Position(s) == |s| && Lines(s) == [] && Tail(s) == s
  {
  }

  lemma SplitAtFirst(s: bytes) returns (line: bytes, rest: bytes)
    requires Position(s) < |s|
    ensures NEWLINE !in line && s == line + [NEWLINE] + rest && |rest| < |s|
  {
    line, rest := s[..Position(s)], s[Position(s) + 1..];
  }

  lemma {:induction false} TailIsTheEnd(s: bytes)
    ensures NEWLINE !in Tail(s) && |Tail(s)| <= |s|
    decreases |s|
  {
    if Position(s) < |s| {
      TailIsTheEnd(s[Position(s) + 1..]);
    } else {
      assert s[..|s|] == s;
    }
  }

  lemma PutFirst(line: bytes, a: seq<bytes>, b: seq<bytes>)
    ensures [line] + (a + b) == ([line] + a) + b
  {
  }

  /** More bytes only continue the tail: the lines already complete stay as they are. */
  lemma {:induction false} StreamGrows(s: bytes, data: bytes)
    ensures Lines(s + data) == Lines(s) + Lines(Tail(s) + data)
    ensures Tail(s + data) == Tail(Tail(s) + data)
    decreases |s|
  {
    if Position(s) < |s| {
      var line, rest := SplitAtFirst(s);
      FirstLine(s, line, rest);
      LineThenMore(line, rest, data);
      FirstLine(s + data, line, rest + data);
      StreamGrows(rest, data);
      PutFirst(line + [NEWLINE], Lines(rest), Lines(Tail(rest) + data));
    } else {
      assert s[..|s|] == s;
      NoLine(s);
    }
  }

  /** Handed-on lines are the lines of the stream in order, with none left out but ones too long. */
  predicate Selected(lines: seq<bytes>, handed: seq<bytes>) {
    if lines == [] then handed == []
    else
      || (handed != [] && handed[0] == lines[0] && Selected(lines[1..], handed[1..]))
      || (|lines[0]| - 1 > MAX_INBOUND_LINE && Selected(lines[1..], handed))
  }

  lemma {:induction false} AllSelected(lines: seq<bytes>)
    ensures Selected(lines, lines)
  {
    if lines != [] {
      AllSelected(lines[1..]);
    }
  }

  lemma {:induction false} SelectedJoin(lines: seq<bytes>, handed: seq<bytes>, moreLines: seq<bytes>, moreHanded: seq<bytes>)
    requires Selected(lines, handed) && Selected(moreLines, moreHanded)
    ensures Selected(lines + moreLines, handed + moreHanded)
    decreases |lines|
  {
    if lines == [] {
      assert lines + moreLines == moreLines && handed + moreHanded == moreHanded;
    } else {
      assert (lines + moreLines)[1..] == lines[1..] + moreLines;
      if handed != [] && handed[0] == lines[0] && Selected(lines[1..], handed[1..]) {
        SelectedJoin(lines[1..], handed[1..], moreLines, moreHanded);
        assert (handed + moreHanded)[1..] == handed[1..] + moreHanded;
      } else {
        SelectedJoin(lines[1..], handed, moreLines, moreHanded);
      }
    }
  }

  // ---- every cutting of every stream ----

  function Flattened(cuts: seq<bytes>): bytes {
    if cuts == [] then [] else Flattened(cuts[..|cuts| - 1]) + cuts[|cuts| - 1]
  }

  /** The state and everything handed on after a run of reads. */
  function Run(cuts: seq<bytes>): (State, seq<bytes>) {
    if cuts == [] then (State([], false), [])
    else
      var (st, handed) := Run(cuts[..|cuts| - 1]);
      var (after, lines) := Received(st, cuts[|cuts| - 1]);
      (after, handed + lines)
  }

  /** Between cuts: the buffer is the unfinished line, or a too long one is being skipped to its end. */
  predicate Holds(stream: bytes, st: State) {
    && |st.partial| <= MAX_INBOUND_LINE && NEWLINE !in st.partial
    && (if st.discarding then |Tail(stream)| > MAX_INBOUND_LINE else st.partial == Tail(stream))
  }

  lemma {:induction false} DrainedInFull(s: bytes)
    ensures var (after, lines) := Drained(State(s, false));
            lines == Lines(s) && Holds(s, after)
    decreases |s|
  {
    var i := Position(s);
    if i < |s| {
      DrainedInFull(s[i + 1..]);
    } else {
      assert s[..|s|] == s;
    }
  }

  lemma ReadContinues(stream: bytes, st: State, data: bytes)
    requires Holds(stream, st)
    ensures var (after, lines) := Received(st, data);
            Holds(stream + data, after) && Selected(Lines(Tail(stream) + data), lines)
  {
    var t := Tail(stream);
    StreamGrows(stream, data);
    if !st.discarding {
      DrainedInFull(t + data);
      AllSelected(Lines(t + data));
      TailOfTail(t + data);
    } else {
      TailIsTheEnd(stream);
      SkippingContinues(t, st, data);
    }
  }

  lemma TailOfTail(s: bytes)
    ensures Tail(Tail(s)) == Tail(s)
  {
    TailIsTheEnd(s);
    assert Position(Tail(s)) == |Tail(s)|;
  }

  lemma SkippingContinues(t: bytes, st: State, data: bytes)
    requires st.discarding && NEWLINE !in st.partial && NEWLINE !in t && |t| > MAX_INBOUND_LINE
    requires |st.partial| <= MAX_INBOUND_LINE
    ensures var (after, lines) := Received(st, data);
            && |after.partial| <= MAX_INBOUND_LINE && NEWLINE !in after.partial
            && (if after.discarding then |Tail(t + data)| > MAX_INBOUND_LINE else after.partial == Tail(t + data))
            && Selected(Lines(t + data), lines)
  {
    if Position(data) == |data| {
      assert data[..|data|] == data;
      NoLine(t + data);
      NoLine(st.partial + data);
    } else {
      var line, rest := SplitAtFirst(data);
      MoreThenLine(t, line, rest);
      MoreThenLine(st.partial, line, rest);
      NoNewline(t, line);
      NoNewline(st.partial, line);
      FirstLine(t + data, t + line, rest);
      FirstLine(st.partial + data, st.partial + line, rest);
      DrainedInFull(rest);
      AllSelected(Lines(rest));
      LongFirstLineMayGo(t + line + [NEWLINE], Lines(rest));
    }
  }

  lemma NoNewline(a: bytes, b: bytes)
    requires NEWLINE !in a && NEWLINE !in b
    ensures NEWLINE !in a + b
  {
  }

  lemma LongFirstLineMayGo(line: bytes, lines: seq<bytes>)
    requires |line| - 1 > MAX_INBOUND_LINE && Selected(lines, lines)
    ensures Selected([line] + lines, lines)
  {
    assert ([line] + lines)[1..] == lines;
  }

  /**
   For every cutting of every stream into reads: what is handed to the parser is the complete lines of the stream in
   order, each whole, and only lines longer than the limit can be missing. Between reads the buffer holds no newline
   and no more than the limit.
   */
  lemma {:induction false} OnlyWholeLinesInOrder(cuts: seq<bytes>)
    ensures Selected(Lines(Flattened(cuts)), Run(cuts).1)
    ensures Holds(Flattened(cuts), Run(cuts).0)
  {
    if cuts != [] {
      var front, data := cuts[..|cuts| - 1], cuts[|cuts| - 1];
      OnlyWholeLinesInOrder(front);
      ReadContinues(Flattened(front), Run(front).0, data);
      StreamGrows(Flattened(front), data);
      SelectedJoin(Lines(Flattened(front)), Run(front).1, Lines(Tail(Flattened(front)) + data), Received(Run(front).0, data).1);
    }
  }

  /** Every line of legal length is handed on. */
  lemma {:induction false} ShortLinesAreSelected(lines: seq<bytes>, handed: seq<bytes>, i: nat)
    requires Selected(lines, handed) && i < |lines| && |lines[i]| - 1 <= MAX_INBOUND_LINE
    ensures lines[i] in handed
    decreases |lines|
  {
    if i > 0 {
      if handed != [] && handed[0] == lines[0] && Selected(lines[1..], handed[1..]) {
        ShortLinesAreSelected(lines[1..], handed[1..], i - 1);
      } else {
        ShortLinesAreSelected(lines[1..], handed, i - 1);
      }
    }
  }

  lemma {:induction false} NothingElseIsSelected(lines: seq<bytes>, handed: seq<bytes>)
    requires Selected(lines, handed) && forall l | l in lines :: |l| - 1 <= MAX_INBOUND_LINE
    ensures handed == lines
  {
    if lines != [] {
      NothingElseIsSelected(lines[1..], handed[1..]);
    }
  }

  /** When every line is of legal length, two cuttings of one stream hand on exactly the same lines. */
  lemma CuttingDoesNotMatter(cuts: seq<bytes>, others: seq<bytes>)
    requires Flattened(cuts) == Flattened(others)
    requires forall l | l in Lines(Flattened(cuts)) :: |l| - 1 <= MAX_INBOUND_LINE
    ensures Run(cuts).1 == Run(others).1 == Lines(Flattened(cuts))
  {
    OnlyWholeLinesInOrder(cuts);
    OnlyWholeLinesInOrder(others);
    NothingElseIsSelected(Lines(Flattened(cuts)), Run(cuts).1);
    NothingElseIsSelected(Lines(Flattened(cuts)), Run(others).1);
  }

  /** The state does not matter: whatever arrives next is cut as on a new client. */
  ghost predicate LikeNew(st: State) {
    forall data :: Received(st, data) == Received(State([], false), data)
  }

  /**
   The buffer and the discard mark outlive a connection. The next connection's lines come out as they should,
   whatever they are, if and only if the last one ended right after a newline.
   */
  lemma NextConnectionIsCleanIff(st: State)
    requires NEWLINE !in st.partial && |st.partial| <= MAX_INBOUND_LINE
    ensures LikeNew(st) <==> st.partial == [] && !st.discarding
  {
    if st.partial != [] || st.discarding {
      var data := [NEWLINE];
      FirstLine(st.partial + data, st.partial, []);
      FirstLine([] + data, [], []);
      assert Drained(State([], false)).1 == [];
      assert Received(State([], false), data).1 == [[] + [NEWLINE]];
      assert Received(st, data).1 == if st.discarding then [] else [st.partial + [NEWLINE]];
      assert |(st.partial + [NEWLINE])| == |st.partial| + 1;
      assert Received(st, data) != Received(State([], false), data);
    }
  }

  /** So it depends only on how the last connection's stream ended: right after a newline, or before its first byte. */
  lemma NextConnectionIsCleanAfter(cuts: seq<bytes>)
    ensures LikeNew(Run(cuts).0) <==> Tail(Flattened(cuts)) == []
  {
    OnlyWholeLinesInOrder(cuts);
    NextConnectionIsCleanIff(Run(cuts).0);
  }
}
