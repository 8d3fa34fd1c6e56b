/**
 The lines that crates/obby-proto/src/message.rs:118-164 reads, written down: sections with any number of spaces between
 them, parameters likewise, the last one marked or not. A line is read as a message if and only if it is one of its texts.
 */
module LineGrammar {
  import opened Wrappers
  import opened Text
  import opened Tags
  import opened Messages

  predicate AllSpaces(s: string) {
    forall i | 0 <= i < |s| :: s[i] == ' '
  }

  /** A parameter that can stand without a marker. */
  predicate IsMiddle(p: string) {
    p != "" && ' ' !in p && p[0] != ':'
  }

  /** The text goes on with spaces, a word and a tail. */
  predicate Opens(text: string, gap: string, word: string, tail: string) {
    AllSpaces(gap) && text == gap + (word + tail)
  }

  predicate Follows(tail: string) {
    tail == "" || tail[0] == ' '
  }

  /** The text of parameters: words with spaces in front, and perhaps a last one after a colon, whatever it holds. */
  ghost predicate ParamsText(text: string, params: seq<string>)
    decreases |params|
  {
    if params == [] then AllSpaces(text)
    else
      || (|params| == 1 && exists gap :: Opens(text, gap, ":" + params[0], ""))
      || (IsMiddle(params[0]) &&
          exists gap, tail :: Opens(text, gap, params[0], tail) && Follows(tail) && ParamsText(tail, params[1..]))
  }

  lemma {:induction false} SpacesAreTrimmed(gap: string, rest: string)
    requires AllSpaces(gap)
    ensures TrimStart(gap + rest) == TrimStart(rest)
  {
    if gap == "" {
      assert gap + rest == rest;
    } else {
      assert (gap + rest)[1..] == gap[1..] + rest;
      SpacesAreTrimmed(gap[1..], rest);
    }
  }

  lemma {:induction false} TrimmedAreSpaces(text: string) returns (gap: string)
    ensures AllSpaces(gap) && text == gap + TrimStart(text)
  {
    if text != "" && text[0] == ' ' {
      gap := TrimmedAreSpaces(text[1..]);
      gap := [' '] + gap;
    } else {
      gap := "";
    }
  }

  lemma MarkedIsRead(text: string, gap: string, p: string)
    requires Opens(text, gap, ":" + p, "")
    ensures ParsedParams(text) == [p]
  {
    assert (":" + p) + "" == ":" + p;
    SpacesAreTrimmed(gap, ":" + p);
    assert (":" + p)[1..] == p;
  }

  lemma MiddleIsRead(text: string, gap: string, p: string, tail: string)
    requires IsMiddle(p) && Opens(text, gap, p, tail) && Follows(tail)
    ensures ParsedParams(text) == [p] + ParsedParams(tail)
  {
    SpacesAreTrimmed(gap, p + tail);
    if tail == "" {
      assert p + tail == p;
      SplitOnceMiss(p, ' ');
    } else {
      assert p + tail == p + [' '] + tail[1..];
      SplitOnceHit(p, ' ', tail[1..]);
      TrimOneSpace(tail[1..]);
      assert tail == [' '] + tail[1..];
    }
  }

  lemma SpacesAreNoParams(text: string)
    requires AllSpaces(text)
    ensures ParsedParams(text) == []
  {
    assert text + "" == text;
    SpacesAreTrimmed(text, "");
  }

  lemma {:induction false} ParamsTextIsRead(text: string, params: seq<string>)
    requires ParamsText(text, params)
    ensures ParsedParams(text) == params
    decreases |params|
  {
    if params == [] {
      SpacesAreNoParams(text);
    } else if |params| == 1 && exists gap :: Opens(text, gap, ":" + params[0], "") {
      var gap :| Opens(text, gap, ":" + params[0], "");
      MarkedIsRead(text, gap, params[0]);
    } else {
      var gap, tail :| Opens(text, gap, params[0], tail) && Follows(tail) && ParamsText(tail, params[1..]);
      ParamsTextIsRead(tail, params[1..]);
      MiddleIsRead(text, gap, params[0], tail);
    }
  }

  lemma FirstWord(text: string) returns (word: string, tail: string)
    ensures text == word + tail && ' ' !in word && Follows(tail)
    ensures SplitOnce(text, ' ') == if tail == "" then None else Some((word, tail[1..]))
  {
    SplitOnceParts(text, ' ');
    match SplitOnce(text, ' ')
    case None => word, tail := text, "";
    case Some((a, b)) => word, tail := a, " " + b;
  }

  lemma MarkedIsText(text: string, gap: string, p: string)
    requires AllSpaces(gap) && text == gap + (":" + p)
    ensures ParamsText(text, [p])
  {
    assert Opens(text, gap, ":" + [p][0], "");
  }

  lemma MiddleIsText(text: string, gap: string, p: string, tail: string, params: seq<string>)
    requires IsMiddle(p) && Opens(text, gap, p, tail) && Follows(tail) && ParamsText(tail, params)
    ensures ParamsText(text, [p] + params)
  {
    assert ([p] + params)[1..] == params && ([p] + params)[0] == p;
  }

  lemma {:induction false} ReadIsParamsText(text: string)
    ensures ParamsText(text, ParsedParams(text))
    decreases |text|
  {
    var gap := TrimmedAreSpaces(text);
    var rest := TrimStart(text);
    if rest != "" {
      if rest[0] == ':' {
        MarkedIsText(text, gap, rest[1..]);
      } else {
        var word, tail := FirstWord(rest);
        ReadIsParamsText(tail);
        MiddleIsRead(text, gap, word, tail);
        MiddleIsText(text, gap, word, tail, ParsedParams(tail));
      }
    }
  }

  /** Parameters are read from exactly their texts. */
  lemma ParamsIff(text: string, params: seq<string>)
    ensures ParsedParams(text) == params <==> ParamsText(text, params)
  {
    ReadIsParamsText(text);
    if ParamsText(text, params) {
      ParamsTextIsRead(text, params);
    }
  }

  // ---- the sections ----

  ghost predicate BodyText(text: string, command: string, params: seq<string>) {
    command != "" && ' ' !in command && exists tail :: text == command + tail && Follows(tail) && ParamsText(tail, params)
  }

  /** A section: its mark, its raw text and at least one space, and then what does not begin with a space. */
  predicate Section(text: string, mark: char, raw: string, gap: string, rest: string) {
    && text == [mark] + (raw + (" " + (gap + rest)))
    && ' ' !in raw && AllSpaces(gap) && (rest == "" || rest[0] != ' ')
  }

  ghost predicate SourcedText(text: string, source: Option<Source>, command: string, params: seq<string>) {
    match source
    case None => (text == "" || text[0] != ':') && BodyText(text, command, params)
    case Some(s) =>
      exists raw, gap, rest :: Section(text, ':', raw, gap, rest) && ParsedSource(raw) == s && BodyText(rest, command, params)
  }

  ghost predicate LineText(text: string, m: Message) {
    || (m.tags == [] && (text == "" || text[0] != '@') && SourcedText(text, m.source, m.command, m.params))
    || exists raw, gap, rest ::
         Section(text, '@', raw, gap, rest) && ParsedTags(raw) == m.tags && SourcedText(rest, m.source, m.command, m.params)
  }

  lemma SectionIsSplit(text: string, mark: char, raw: string, gap: string, rest: string)
    requires Section(text, mark, raw, gap, rest)
    ensures text != "" && text[0] == mark && SplitOnce(text[1..], ' ') == Some((raw, gap + rest)) && TrimStart(gap + rest) == rest
  {
    assert text[1..] == raw + [' '] + (gap + rest);
    SplitOnceHit(raw, ' ', gap + rest);
    SpacesAreTrimmed(gap, rest);
  }

  lemma SplitIsSection(text: string, mark: char) returns (gap: string)
    requires text != "" && text[0] == mark && SplitOnce(text[1..], ' ').Some?
    ensures var (raw, remainder) := SplitOnce(text[1..], ' ').value; Section(text, mark, raw, gap, TrimStart(remainder))
  {
    SplitOnceParts(text[1..], ' ');
    var (raw, remainder) := SplitOnce(text[1..], ' ').value;
    gap := TrimmedAreSpaces(remainder);
    Regrouped(mark, raw, remainder);
    assert text == [mark] + text[1..];
  }

  lemma Regrouped(mark: char, raw: string, remainder: string)
    ensures [mark] + (raw + [' '] + remainder) == [mark] + (raw + (" " + remainder))
  {
  }

  lemma BodyIff(text: string, tags: seq<Tag>, source: Option<Source>, m: Message)
    ensures WithCommand(text, tags, source) == Ok(m)
       <==> m.tags == tags && m.source == source && BodyText(text, m.command, m.params)
  {
    if WithCommand(text, tags, source) == Ok(m) {
      ReadIsBody(text, tags, source, m);
    }
    if m.tags == tags && m.source == source && BodyText(text, m.command, m.params) {
      var tail :| text == m.command + tail && Follows(tail) && ParamsText(tail, m.params);
      ParamsTextIsRead(tail, m.params);
      BodyIsRead(text, tags, source, m, tail);
    }
  }

  lemma BodyIsRead(text: string, tags: seq<Tag>, source: Option<Source>, m: Message, tail: string)
    requires m.tags == tags && m.source == source && m.command != "" && ' ' !in m.command
    requires text == m.command + tail && Follows(tail) && ParsedParams(tail) == m.params
    ensures WithCommand(text, tags, source) == Ok(m)
  {
    if tail == "" {
      assert text == m.command;
      SplitOnceMiss(text, ' ');
    } else {
      assert text == m.command + [' '] + tail[1..] && tail == [' '] + tail[1..];
      SplitOnceHit(m.command, ' ', tail[1..]);
      TrimOneSpace(tail[1..]);
      assert ParsedParams(tail) == ParsedParams(tail[1..]);
    }
  }

  lemma ReadIsBody(text: string, tags: seq<Tag>, source: Option<Source>, m: Message)
    requires WithCommand(text, tags, source) == Ok(m)
    ensures m.tags == tags && m.source == source && BodyText(text, m.command, m.params)
  {
    var word, tail := FirstWord(text);
    if tail != "" {
      TrimOneSpace(tail[1..]);
      assert tail == [' '] + tail[1..];
    }
    assert m == Message(tags, source, word, ParsedParams(tail));
    ReadIsParamsText(tail);
  }

  lemma SourcedIff(text: string, tags: seq<Tag>, m: Message)
    ensures WithSource(text, tags) == Ok(m) <==> m.tags == tags && SourcedText(text, m.source, m.command, m.params)
  {
    if text == "" || text[0] != ':' {
      BodyIff(text, tags, None, m);
    } else {
      if SplitOnce(text[1..], ' ').Some? {
        var gap := SplitIsSection(text, ':');
        var (raw, remainder) := SplitOnce(text[1..], ' ').value;
        BodyIff(TrimStart(remainder), tags, Some(ParsedSource(raw)), m);
      }
      forall raw, gap, rest | Section(text, ':', raw, gap, rest)
        ensures SplitOnce(text[1..], ' ') == Some((raw, gap + rest)) && TrimStart(gap + rest) == rest
      {
        SectionIsSplit(text, ':', raw, gap, rest);
      }
    }
  }

  lemma TaggedIff(text: string, m: Message)
    ensures WithTags(text) == Ok(m) <==> LineText(text, m)
  {
    if text == "" || text[0] != '@' {
      SourcedIff(text, [], m);
    } else {
      if SplitOnce(text[1..], ' ').Some? {
        var gap := SplitIsSection(text, '@');
        var (raw, remainder) := SplitOnce(text[1..], ' ').value;
        SourcedIff(TrimStart(remainder), ParsedTags(raw), m);
      }
      forall raw, gap, rest | Section(text, '@', raw, gap, rest)
        ensures SplitOnce(text[1..], ' ') == Some((raw, gap + rest)) && TrimStart(gap + rest) == rest
      {
        SectionIsSplit(text, '@', raw, gap, rest);
      }
    }
  }

  /** A line is its text, which does not end in a line end, and any line ending. */
  predicate Ended(line: string, text: string, ending: string) {
    && line == text + ending && (forall c | c in ending :: IsLineEnd(c))
    && (text == "" || !IsLineEnd(text[|text| - 1]))
  }

  /** A line is read as a message if and only if it is one of its texts, whatever line ending it has. */
  lemma ParsedIff(line: string, m: Message)
    ensures Parsed(line) == Ok(m) <==> exists text, ending :: Ended(line, text, ending) && LineText(text, m)
  {
    var text := TrimEnd(line);
    TaggedIff(text, m);
    assert Ended(line, text, line[|text|..]);
    forall t, ending | Ended(line, t, ending) ensures t == text {
      TrimEndOfLine(t, ending);
    }
  }
}
