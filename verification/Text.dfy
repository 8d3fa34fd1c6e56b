/** The string operations the codecs are written with, and how they see a text put together from parts. */
module Text {
  import opened Wrappers

  /** The first position of `c`, or the length when it does not occur. */
  function Find(s: string, c: char): (i: nat)
    ensures i <= |s|
    ensures c !in s[..i]
    ensures i < |s| ==> s[i] == c
  {
    if s == [] || s[0] == c then 0 else 1 + Find(s[1..], c)
  }

  /** The text before and after the first `c`. */
  function SplitOnce(s: string, c: char): Option<(string, string)> {
    var i := Find(s, c);
    if i < |s| then Some((s[..i], s[i + 1..])) else None
  }

  lemma SplitOnceMiss(s: string, c: char)
    requires c !in s
    ensures SplitOnce(s, c) == None
  {
  }

  lemma SplitOnceHit(a: string, c: char, b: string)
    requires c !in a
    ensures SplitOnce(a + [c] + b, c) == Some((a, b))
  {
    var s := a + [c] + b;
    assert s[|a|] == c;
    assert s[..|a|] == a && s[|a| + 1..] == b;
  }

  lemma SplitOnceParts(s: string, c: char)
    ensures SplitOnce(s, c).None? ==> c !in s
    ensures SplitOnce(s, c).Some? ==> var (a, b) := SplitOnce(s, c).value; s == a + [c] + b && c !in a
  {
    assert s[..|s|] == s;
  }

  /** All the pieces between occurrences of `c`; a text without it is one piece. */
  function Split(s: string, c: char): (parts: seq<string>)
    ensures |parts| >= 1
    ensures forall p | p in parts :: c !in p
    decreases |s|
  {
    SplitOnceParts(s, c);
    match SplitOnce(s, c)
    case None => [s]
    case Some((a, b)) => [a] + Split(b, c)
  }

  lemma SplitStep(a: string, c: char, b: string)
    requires c !in a
    ensures Split(a + [c] + b, c) == [a] + Split(b, c)
  {
    SplitOnceHit(a, c, b);
  }

  /** The text with leading spaces removed. */
  function TrimStart(s: string): (t: string)
    ensures |t| <= |s|
    ensures t != "" ==> t[0] != ' '
  {
    if s != "" && s[0] == ' ' then TrimStart(s[1..]) else s
  }

  lemma TrimOneSpace(s: string)
    ensures TrimStart([' '] + s) == TrimStart(s)
  {
    assert ([' '] + s)[1..] == s;
  }

  predicate IsLineEnd(c: char) {
    c == '\r' || c == '\n'
  }

  /** The text with trailing carriage returns and newlines removed. */
  function TrimEnd(s: string): (t: string)
    ensures t <= s
    ensures t != "" ==> !IsLineEnd(t[|t| - 1])
    ensures forall i | |t| <= i < |s| :: IsLineEnd(s[i])
  {
    if s != "" && IsLineEnd(s[|s| - 1]) then TrimEnd(s[..|s| - 1]) else s
  }

  lemma {:induction false} TrimEndOfLine(s: string, ending: string)
    requires s == "" || !IsLineEnd(s[|s| - 1])
    requires forall c | c in ending :: IsLineEnd(c)
    ensures TrimEnd(s + ending) == s
  {
    if ending == "" {
      assert s + ending == s;
    } else {
      var line := s + ending;
      assert line[..|line| - 1] == s + ending[..|ending| - 1];
      assert line[|line| - 1] == ending[|ending| - 1];
      TrimEndOfLine(s, ending[..|ending| - 1]);
    }
  }

  lemma {:induction false} TrimEndOfTail(head: string, tail: string)
    requires head == "" || !IsLineEnd(head[|head| - 1])
    ensures TrimEnd(head + tail) == head + TrimEnd(tail)
  {
    if tail != "" && IsLineEnd(tail[|tail| - 1]) {
      var text := head + tail;
      assert text[..|text| - 1] == head + tail[..|tail| - 1];
      TrimEndOfTail(head, tail[..|tail| - 1]);
    }
  }

  function LowerChar(c: char): char {
    if 'A' <= c <= 'Z' then (c as int + 32) as char else c
  }

  /** ASCII letters in lower case, for comparing names without regard to case. */
  function Lower(s: string): (r: string)
    ensures |r| == |s|
  {
    seq(|s|, i requires 0 <= i < |s| => LowerChar(s[i]))
  }

  /** The same character, or the two cases of one ASCII letter. */
  predicate SameLetter(c: char, d: char) {
    || c == d
    || ('A' <= c <= 'Z' && d as int == c as int - 'A' as int + 'a' as int)
    || ('A' <= d <= 'Z' && c as int == d as int - 'A' as int + 'a' as int)
  }

  /** Two texts are the same in lower case exactly when they have the same letters at every place. */
  lemma LowerIff(a: string, b: string)
    ensures Lower(a) == Lower(b) <==> |a| == |b| && forall i | 0 <= i < |a| :: SameLetter(a[i], b[i])
  {
    forall i | 0 <= i < |a| && i < |b| ensures Lower(a)[i] == Lower(b)[i] <==> SameLetter(a[i], b[i]) {
    }
    if |a| == |b| && forall i | 0 <= i < |a| :: SameLetter(a[i], b[i]) {
      assert Lower(a) == Lower(b);
    }
  }

  /** Texts with a separator between them. */
  function Listed(parts: seq<string>, c: char): string {
    if parts == [] then "" else if |parts| == 1 then parts[0] else parts[0] + [c] + Listed(parts[1..], c)
  }

  /** Splitting a list gives its parts back. */
  lemma {:induction false} ListedIsSplit(parts: seq<string>, c: char)
    requires parts != [] && forall p | p in parts :: c !in p
    ensures Split(Listed(parts, c), c) == parts
  {
    if |parts| == 1 {
      SplitOnceMiss(parts[0], c);
    } else {
      ListedIsSplit(parts[1..], c);
      SplitStep(parts[0], c, Listed(parts[1..], c));
    }
  }

  // ---- spelling ----

  /** A character and how it is written in some code. */
  type Spelt = (char, string)

  function Plain(chars: seq<Spelt>): string {
    if chars == [] then "" else [chars[0].0] + Plain(chars[1..])
  }

  function Spelling(chars: seq<Spelt>): string {
    if chars == [] then "" else chars[0].1 + Spelling(chars[1..])
  }
}
