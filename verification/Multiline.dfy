/** Joining the lines of a multiline batch into messages (crates/obby-client/src/client.rs:1789-1822). */
module Multiline {
  import opened Messages

  predicate IsText(m: Message) {
    Is(m, "PRIVMSG") || Is(m, "NOTICE")
  }

  predicate Continues(m: Message) {
    exists t | t in m.tags :: t.key == "draft/multiline-concat"
  }

  function Separator(m: Message): string {
    if Continues(m) then "" else "\n"
  }

  function TextOf(m: Message): string {
    if |m.params| > 1 then m.params[1] else ""
  }

  predicate SameText(previous: Message, m: Message) {
    IsText(m) && Is(previous, m.command) && Param(previous, 0) == Param(m, 0)
  }

  function WithMore(previous: Message, m: Message): Message {
    if |previous.params| > 1
    then previous.(params := previous.params[1 := previous.params[1] + Separator(m) + TextOf(m)])
    else previous
  }

  /** One more line: a message of its own, or more text for the last one. */
  function JoinStep(before: seq<Message>, m: Message): seq<Message> {
    if before == [] || !SameText(before[|before| - 1], m) then before + [m]
    else before[..|before| - 1] + [WithMore(before[|before| - 1], m)]
  }

  function Joined(lines: seq<Message>): seq<Message> {
    if lines == [] then [] else JoinStep(Joined(lines[..|lines| - 1]), lines[|lines| - 1])
  }

  method JoinMultiline(lines: seq<Message>) returns (joined: seq<Message>)
    ensures joined == Joined(lines)
  {
    joined := [];
    for i := 0 to |lines|
      invariant joined == Joined(lines[..i])
    {
      var m := lines[i];
      JoinedOneMore(lines, i);
      if joined == [] {
        joined := joined + [m];
      } else {
        var last := |joined| - 1;
        var previous := joined[last];
        if !IsText(m) || !Is(previous, m.command) || Param(previous, 0) != Param(m, 0) {
          joined := joined + [m];
        } else {
          joined := joined[..last] + [WithMore(previous, m)];
        }
      }
    }
    assert lines[..|lines|] == lines;
  }

  lemma JoinedOneMore(lines: seq<Message>, i: nat)
    requires i < |lines|
    ensures Joined(lines[..i + 1]) == JoinStep(Joined(lines[..i]), lines[i])
  {
    assert lines[..i + 1][..i] == lines[..i];
  }

  /** The lines of one message: text to one target, all with one command. */
  predicate OneMessage(lines: seq<Message>) {
    lines != [] && forall i | 0 < i < |lines| :: SameText(lines[0], lines[i])
  }

  /** The texts with a line break between them, or nothing where a line continues the one before. */
  function FullText(lines: seq<Message>): string
    requires lines != []
  {
    if |lines| == 1 then TextOf(lines[0])
    else FullText(lines[..|lines| - 1]) + Separator(lines[|lines| - 1]) + TextOf(lines[|lines| - 1])
  }

  lemma TextGrows(first: Message, text: string, m: Message)
    requires |first.params| > 1
    ensures WithMore(first.(params := first.params[1 := text]), m)
         == first.(params := first.params[1 := text + Separator(m) + TextOf(m)])
  {
    var more := text + Separator(m) + TextOf(m);
    assert first.params[1 := text][1 := more] == first.params[1 := more];
  }

  /**
   The lines of one message become one message, and it carries the whole text if and only if the first line has a
   text parameter to carry it, or there is nothing to carry.
   */
  lemma {:induction false} OneMessageKeepsItsText(lines: seq<Message>)
    requires OneMessage(lines)
    ensures Joined(lines) ==
            [if |lines[0].params| > 1 then lines[0].(params := lines[0].params[1 := FullText(lines)]) else lines[0]]
    ensures TextOf(Joined(lines)[0]) == FullText(lines) <==> |lines[0].params| > 1 || FullText(lines) == ""
  {
    if |lines| == 1 {
      assert Joined(lines[..0]) == [];
      assert |lines[0].params| > 1 ==> lines[0].params[1 := lines[0].params[1]] == lines[0].params;
    } else {
      var front, last := lines[..|lines| - 1], lines[|lines| - 1];
      OneMessageKeepsItsText(front);
      assert SameText(lines[0], last);
      var x := Joined(front)[0];
      if |lines[0].params| > 1 {
        TextGrows(lines[0], FullText(front), last);
      }
      assert Joined(lines) == [WithMore(x, last)];
    }
  }

  lemma StepAfter(a: seq<Message>, b: seq<Message>, m: Message)
    requires b != []
    ensures JoinStep(a + b, m) == a + JoinStep(b, m)
  {
    assert (a + b)[|a + b| - 1] == b[|b| - 1] && (a + b)[..|a + b| - 1] == a + b[..|b| - 1];
  }

  /**
   A line that does not go on from the one before it, by its kind, command or target, starts a message of its own, and
   everything before it is settled.
   */
  lemma {:induction false} BreaksSplit(front: seq<Message>, back: seq<Message>)
    requires front != [] && back != [] && !SameText(front[|front| - 1], back[0])
    ensures Joined(front + back) == Joined(front) + Joined(back)
    decreases |back|
  {
    var rest, last := back[..|back| - 1], back[|back| - 1];
    assert front + back == (front + rest) + [last] && back == rest + [last];
    JoinedSnoc(front + rest, last);
    JoinedSnoc(rest, last);
    if rest == [] {
      assert front + rest == front;
      JoinedEndsLikeItsLines(front, last);
      StepBreaks(Joined(front), last);
      StepBreaks([], last);
    } else {
      BreaksSplit(front, rest);
      assert Joined(rest) != [];
      StepAfter(Joined(front), Joined(rest), last);
    }
  }

  lemma StepBreaks(joined: seq<Message>, m: Message)
    requires joined == [] || !SameText(joined[|joined| - 1], m)
    ensures JoinStep(joined, m) == joined + [m]
  {
  }

  lemma JoinedSnoc(lines: seq<Message>, m: Message)
    ensures Joined(lines + [m]) == JoinStep(Joined(lines), m)
  {
    assert (lines + [m])[..|lines|] == lines;
  }

  /** The last message goes on with exactly the lines that the last line would. */
  lemma {:induction false} JoinedEndsLikeItsLines(lines: seq<Message>, m: Message)
    requires lines != []
    ensures Joined(lines) != []
    ensures SameText(Joined(lines)[|Joined(lines)| - 1], m) == SameText(lines[|lines| - 1], m)
  {
    var front, last := lines[..|lines| - 1], lines[|lines| - 1];
    if front != [] {
      JoinedEndsLikeItsLines(front, last);
    }
  }

  lemma ContinuesIff(m: Message)
    ensures Continues(m) <==> exists i :: 0 <= i < |m.tags| && m.tags[i].key == "draft/multiline-concat"
  {
    if Continues(m) {
      var t :| t in m.tags && t.key == "draft/multiline-concat";
      var i :| 0 <= i < |m.tags| && m.tags[i] == t;
    }
    if exists i :: 0 <= i < |m.tags| && m.tags[i].key == "draft/multiline-concat" {
      var i :| 0 <= i < |m.tags| && m.tags[i].key == "draft/multiline-concat";
      assert m.tags[i] in m.tags;
    }
  }

  lemma OneLineIsItself(a: Message)
    ensures Joined([a]) == [a]
  {
    JoinedSnoc([], a);
    assert [] + [a] == [a];
  }

  /** One more line goes on where the text ended if it carries the tag that says so, and on a new line if it does not. */
  lemma NextLineJoins(a: Message, b: Message)
    requires SameText(a, b) && |a.params| > 1
    ensures var text := if |b.params| > 1 then b.params[1] else "";
            var concat := exists i :: 0 <= i < |b.tags| && b.tags[i].key == "draft/multiline-concat";
            Joined([a] + [b]) == [a.(params := a.params[1 := a.params[1] + (if concat then "" else "\n") + text])]
  {
    ContinuesIff(b);
    OneLineIsItself(a);
    JoinedSnoc([a], b);
    StepJoins(a, b);
  }

  lemma StepJoins(a: Message, b: Message)
    requires SameText(a, b)
    ensures JoinStep([a], b) == [WithMore(a, b)]
  {
  }
}
