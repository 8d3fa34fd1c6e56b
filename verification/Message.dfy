/** One IRC protocol line: parsing and printing (crates/obby-proto/src/message.rs). */
module Messages {
  import opened Wrappers
  import opened Text
  import opened Tags

  datatype Source = Source(name: string, user: Option<string>, host: Option<string>)

  datatype Message = Message(tags: seq<Tag>, source: Option<Source>, command: string, params: seq<string>)

  datatype ParseError = MissingCommand

  /** Command names compare without regard to case. */
  predicate Is(m: Message, command: string) {
    Lower(m.command) == Lower(command)
  }

  function Param(m: Message, i: nat): Option<string> {
    if i < |m.params| then Some(m.params[i]) else None
  }

  // ---- the source ----

  function ParsedSource(raw: string): Source {
    match SplitOnce(raw, '!')
    case Some((name, rest)) =>
      (match SplitOnce(rest, '@')
       case Some((user, host)) => Source(name, Some(user), Some(host))
       case None => Source(name, Some(rest), None))
    case None =>
      match SplitOnce(raw, '@')
      case Some((name, host)) => Source(name, None, Some(host))
      case None => Source(raw, None, None)
  }

  function PrintedSource(s: Source): string {
    s.name + (if s.user.Some? then "!" + s.user.value else "") + (if s.host.Some? then "@" + s.host.value else "")
  }

  /** Reading a source loses nothing: for every text, printing what was read gives the text back. */
  lemma PrintingUndoesReading(raw: string)
    ensures PrintedSource(ParsedSource(raw)) == raw
  {
    SplitOnceParts(raw, '!');
    match SplitOnce(raw, '!')
    case Some((name, rest)) => SplitOnceParts(rest, '@');
    case None => SplitOnceParts(raw, '@');
  }

  /** The parts fall where the separators are read: none hides inside an earlier part. */
  predicate SplitsAsWritten(s: Source) {
    && '!' !in s.name
    && (s.user.Some? ==> '@' !in s.user.value)
    && (s.user.None? ==> '@' !in s.name && (s.host.Some? ==> '!' !in s.host.value))
  }

  /** Printing a source loses nothing exactly when its parts split as written. */
  lemma ReadingUndoesPrintingIff(s: Source)
    ensures ParsedSource(PrintedSource(s)) == s <==> SplitsAsWritten(s)
  {
    var raw := PrintedSource(s);
    if SplitsAsWritten(s) {
      if s.user.Some? {
        var rest := s.user.value + (if s.host.Some? then "@" + s.host.value else "");
        assert raw == s.name + ['!'] + rest;
        SplitOnceHit(s.name, '!', rest);
        if s.host.Some? {
          assert rest == s.user.value + ['@'] + s.host.value;
          SplitOnceHit(s.user.value, '@', s.host.value);
        } else {
          assert rest == s.user.value;
          SplitOnceMiss(rest, '@');
        }
      } else {
        SplitOnceMiss(raw, '!');
        if s.host.Some? {
          assert raw == s.name + ['@'] + s.host.value;
          SplitOnceHit(s.name, '@', s.host.value);
        } else {
          assert raw == s.name;
          SplitOnceMiss(raw, '@');
        }
      }
    } else if ParsedSource(raw) == s {
      SplitOnceParts(raw, '!');
      if SplitOnce(raw, '!').Some? {
        SplitOnceParts(SplitOnce(raw, '!').value.1, '@');
      } else {
        SplitOnceParts(raw, '@');
      }
    }
  }

  // ---- the parameters ----

  function ParsedParams(text: string): seq<string>
    decreases |text|
  {
    var rest := TrimStart(text);
    if rest == "" then []
    else if rest[0] == ':' then [rest[1..]]
    else
      match SplitOnce(rest, ' ')
      case Some((param, remainder)) => [param] + ParsedParams(remainder)
      case None => [rest]
  }

  /** A parameter only the trailing position can carry. */
  predicate NeedsMarker(param: string) {
    param == "" || ' ' in param || param[0] == ':'
  }

  function PrintedParams(params: seq<string>): string {
    if params == [] then ""
    else if |params| == 1 then (if NeedsMarker(params[0]) then " :" else " ") + params[0]
    else " " + params[0] + PrintedParams(params[1..])
  }

  /** Every parameter but the last can stand without a marker. */
  predicate MiddlesPlain(params: seq<string>) {
    forall i | 0 <= i < |params| - 1 :: !NeedsMarker(params[i])
  }

  lemma TrailingReadsBack(text: string, p: string)
    requires text == [' '] + ([':'] + p)
    ensures ParsedParams(text) == [p]
  {
    TrimOneSpace([':'] + p);
    assert ([':'] + p)[1..] == p;
  }

  lemma PlainLastReadsBack(text: string, p: string)
    requires text == [' '] + p && !NeedsMarker(p)
    ensures ParsedParams(text) == [p]
  {
    TrimOneSpace(p);
    SplitOnceMiss(p, ' ');
  }

  lemma MiddleReadsBack(text: string, p: string, rest: string, tail: string)
    requires !NeedsMarker(p) && tail == [' '] + rest && text == [' '] + (p + [' '] + rest)
    ensures ParsedParams(text) == [p] + ParsedParams(tail)
  {
    TrimOneSpace(p + [' '] + rest);
    SplitOnceHit(p, ' ', rest);
    TrimOneSpace(rest);
    assert ParsedParams(text) == [p] + ParsedParams(rest);
    assert ParsedParams(tail) == ParsedParams(rest);
  }

  lemma {:induction false} ParamsReadBack(params: seq<string>)
    requires MiddlesPlain(params)
    ensures ParsedParams(PrintedParams(params)) == params
  {
    if |params| == 1 {
      var p := params[0];
      if NeedsMarker(p) {
        assert " :" + p == [' '] + ([':'] + p);
        TrailingReadsBack(PrintedParams(params), p);
      } else {
        PlainLastReadsBack(PrintedParams(params), p);
      }
    } else if |params| > 1 {
      var tail := PrintedParams(params[1..]);
      ParamsReadBack(params[1..]);
      assert tail == [' '] + tail[1..];
      assert " " + params[0] + tail == [' '] + (params[0] + [' '] + tail[1..]);
      MiddleReadsBack(PrintedParams(params), params[0], tail[1..], tail);
    }
  }

  // ---- the line ----

  function WithSource(rest: string, tags: seq<Tag>): Result<Message, ParseError> {
    if rest != "" && rest[0] == ':' then
      match SplitOnce(rest[1..], ' ')
      case None => Err(MissingCommand)
      case Some((raw, remainder)) => WithCommand(TrimStart(remainder), tags, Some(ParsedSource(raw)))
    else
      WithCommand(rest, tags, None)
  }

  function WithCommand(rest: string, tags: seq<Tag>, source: Option<Source>): Result<Message, ParseError> {
    var (command, params) := match SplitOnce(rest, ' ') case Some(parts) => parts case None => (rest, "");
    if command == "" then Err(MissingCommand)
    else Ok(Message(tags, source, command, ParsedParams(params)))
  }

  function Parsed(line: string): Result<Message, ParseError> {
    WithTags(TrimEnd(line))
  }

  function WithTags(rest: string): Result<Message, ParseError> {
    if rest != "" && rest[0] == '@' then
      match SplitOnce(rest[1..], ' ')
      case None => Err(MissingCommand)
      case Some((raw, remainder)) => WithSource(TrimStart(remainder), ParsedTags(raw))
    else
      WithSource(rest, [])
  }

  function PrintedBody(m: Message): string {
    m.command + PrintedParams(m.params)
  }

  function PrintedTagSection(tags: seq<Tag>): string {
    if tags != [] then "@" + PrintedTags(tags) + " " else ""
  }

  function PrintedSourceSection(source: Option<Source>): string {
    if source.Some? then ":" + PrintedSource(source.value) + " " else ""
  }

  function Printed(m: Message): string {
    PrintedTagSection(m.tags) + PrintedSourceSection(m.source) + PrintedBody(m)
  }

  /** What has to hold of the parts for the printed line to fall apart where it was put together. */
  predicate WellFormed(m: Message) {
    && (forall t | t in m.tags :: PlainTag(t))
    && SourceHolds(m.source)
    && m.command != "" && ' ' !in m.command
    && (m.source.None? ==> m.command[0] != ':')
    && (m.source.None? && m.tags == [] ==> m.command[0] != '@')
    && MiddlesPlain(m.params)
    && EndsClean(m)
  }

  /** The line's last character is not one that trimming takes for the line ending. */
  predicate EndsClean(m: Message)
    requires m.command != ""
  {
    if m.params == [] then !IsLineEnd(m.command[|m.command| - 1])
    else
      var last := m.params[|m.params| - 1];
      last == "" || !IsLineEnd(last[|last| - 1])
  }

  // ---- what a well-formed message is good for ----

  lemma CommandReadsBack(m: Message, tags: seq<Tag>, source: Option<Source>)
    requires m.command != "" && ' ' !in m.command && MiddlesPlain(m.params)
    ensures WithCommand(PrintedBody(m), tags, source) == Ok(Message(tags, source, m.command, m.params))
  {
    var tail := PrintedParams(m.params);
    if m.params == [] {
      assert PrintedBody(m) == m.command;
      SplitOnceMiss(m.command, ' ');
    } else {
      assert tail == [' '] + tail[1..];
      assert PrintedBody(m) == m.command + [' '] + tail[1..];
      SplitOnceHit(m.command, ' ', tail[1..]);
      ParamsReadBack(m.params);
      TrimOneSpace(tail[1..]);
      assert ParsedParams(tail) == ParsedParams(tail[1..]);
    }
  }

  predicate SourceHolds(source: Option<Source>) {
    source.Some? ==> SplitsAsWritten(source.value) && ' ' !in PrintedSource(source.value)
  }

  /** Nothing has to be trimmed off either side of it. */
  predicate Tight(text: string) {
    text != "" ==> text[0] != ' ' && !IsLineEnd(text[|text| - 1])
  }

  lemma TightIsNotTrimmed(text: string)
    requires Tight(text)
    ensures TrimStart(text) == text && TrimEnd(text) == text
  {
  }

  lemma SourceSectionOpens(rest: string, raw: string, body: string, tags: seq<Tag>)
    requires rest == ":" + raw + " " + body && ' ' !in raw
    ensures WithSource(rest, tags) == WithCommand(TrimStart(body), tags, Some(ParsedSource(raw)))
  {
    SplitOnceHit(raw, ' ', body);
    assert rest[1..] == raw + [' '] + body;
  }

  /** A source section in front of any body that does not itself look like one is read off it whole. */
  lemma SourceReadsBack(source: Option<Source>, body: string, tags: seq<Tag>)
    requires SourceHolds(source) && Tight(body)
    requires source.None? ==> body == "" || body[0] != ':'
    ensures WithSource(PrintedSourceSection(source) + body, tags) == WithCommand(body, tags, source)
  {
    if source.Some? {
      ReadingUndoesPrintingIff(source.value);
      TightIsNotTrimmed(body);
      SourceSectionOpens(PrintedSourceSection(source) + body, PrintedSource(source.value), body, tags);
    } else {
      assert PrintedSourceSection(source) + body == body;
    }
  }

  lemma TagSectionOpens(rest: string, raw: string, text: string)
    requires rest == "@" + raw + " " + text && ' ' !in raw
    ensures WithTags(rest) == WithSource(TrimStart(text), ParsedTags(raw))
  {
    SplitOnceHit(raw, ' ', text);
    assert rest[1..] == raw + [' '] + text;
  }

  /** A tag section in front of any text that does not itself look like one is read off it whole. */
  lemma TagSectionReadsBack(tags: seq<Tag>, text: string)
    requires (forall t | t in tags :: PlainTag(t)) && Tight(text)
    requires tags == [] ==> text == "" || text[0] != '@'
    ensures WithTags(PrintedTagSection(tags) + text) == WithSource(text, tags)
  {
    if tags != [] {
      TagsReadBack(tags);
      TightIsNotTrimmed(text);
      TagSectionOpens(PrintedTagSection(tags) + text, PrintedTags(tags), text);
    } else {
      assert PrintedTagSection(tags) + text == text;
    }
  }

  lemma SectionIsTight(source: Option<Source>, body: string)
    requires Tight(body) && body != ""
    ensures Tight(PrintedSourceSection(source) + body)
    ensures var text := PrintedSourceSection(source) + body;
            text != "" && text[0] == if source.Some? then ':' else body[0]
    ensures var text := PrintedSourceSection(source) + body; text[|text| - 1] == body[|body| - 1]
  {
  }

  lemma {:induction false} ParamsEnd(params: seq<string>)
    requires params != []
    ensures var text, last := PrintedParams(params), params[|params| - 1];
            && text != "" && text[0] == ' '
            && (IsLineEnd(text[|text| - 1]) <==> last != "" && IsLineEnd(last[|last| - 1]))
  {
    if |params| > 1 {
      ParamsEnd(params[1..]);
    }
  }

  lemma BodyEnd(m: Message)
    requires m.command != ""
    ensures PrintedBody(m) != "" && PrintedBody(m)[0] == m.command[0]
    ensures IsLineEnd(PrintedBody(m)[|PrintedBody(m)| - 1]) <==> !EndsClean(m)
  {
    if m.params != [] {
      ParamsEnd(m.params);
    }
  }

  /** Printing a well-formed message and parsing the line, with any line ending, gives the message back. */
  lemma WellFormedReadsBack(m: Message, ending: string)
    requires WellFormed(m) && forall c | c in ending :: IsLineEnd(c)
    ensures Parsed(Printed(m) + ending) == Ok(m)
  {
    var body, text := PrintedBody(m), PrintedSourceSection(m.source) + PrintedBody(m);
    BodyEnd(m);
    SectionIsTight(m.source, body);
    assert Printed(m) == PrintedTagSection(m.tags) + text;
    TrimEndOfLine(Printed(m), ending);
    TagSectionReadsBack(m.tags, text);
    SourceReadsBack(m.source, body, m.tags);
    CommandReadsBack(m, m.tags, m.source);
  }

  // ---- and that nothing less is ----

  lemma {:induction false} ParamsImage(text: string)
    ensures MiddlesPlain(ParsedParams(text))
    ensures |PrintedParams(ParsedParams(text))| <= |text| + 1
    decreases |text|
  {
    var rest := TrimStart(text);
    if rest != "" && rest[0] != ':' {
      SplitOnceParts(rest, ' ');
      match SplitOnce(rest, ' ')
      case None =>
      case Some((param, remainder)) => ParamsImage(remainder);
    }
  }

  /** What parsing yields is never longer in print than the text it came from, up to the tags. */
  lemma CommandImage(rest: string, tags: seq<Tag>, source: Option<Source>, m: Message)
    requires WithCommand(rest, tags, source) == Ok(m)
    ensures m.tags == tags && m.source == source && m.command != "" && ' ' !in m.command && MiddlesPlain(m.params)
    ensures rest != "" && m.command[0] == rest[0] && |PrintedBody(m)| <= |rest|
  {
    SplitOnceParts(rest, ' ');
    match SplitOnce(rest, ' ')
    case None => assert ParsedParams("") == [];
    case Some((command, params)) => ParamsImage(params);
  }

  lemma SourceImage(rest: string, tags: seq<Tag>, m: Message)
    requires WithSource(rest, tags) == Ok(m)
    ensures m.tags == tags && m.command != "" && ' ' !in m.command && MiddlesPlain(m.params) && SourceHolds(m.source)
    ensures m.source.None? ==> m.command[0] != ':' && |PrintedBody(m)| <= |rest|
  {
    if rest != "" && rest[0] == ':' {
      SplitOnceParts(rest[1..], ' ');
      var (raw, remainder) := SplitOnce(rest[1..], ' ').value;
      CommandImage(TrimStart(remainder), tags, Some(ParsedSource(raw)), m);
      PrintingUndoesReading(raw);
      ReadingUndoesPrintingIff(ParsedSource(raw));
    } else {
      CommandImage(rest, tags, None, m);
    }
  }

  /** Whatever was parsed has keys, a source, a command and middle parameters that hold. */
  lemma LineImage(rest: string, m: Message)
    requires WithTags(rest) == Ok(m)
    ensures m.command != "" && ' ' !in m.command && MiddlesPlain(m.params) && SourceHolds(m.source)
    ensures forall t | t in m.tags :: KeyHolds(t)
    ensures m.source.None? ==> m.command[0] != ':'
    ensures m.source.None? && rest != "" && rest[0] == '@' ==> |PrintedBody(m)| < |rest|
  {
    if rest != "" && rest[0] == '@' {
      SplitOnceParts(rest[1..], ' ');
      var (raw, remainder) := SplitOnce(rest[1..], ' ').value;
      SourceImage(TrimStart(remainder), ParsedTags(raw), m);
      ParsedTagsHold(raw);
    } else {
      SourceImage(rest, [], m);
    }
  }

  /** A tag section reads back only if every tag in it is plain. */
  lemma TagsMustBePlain(m: Message, text: string)
    requires (forall t | t in m.tags :: KeyHolds(t)) && Tight(text)
    requires WithTags(PrintedTagSection(m.tags) + text) == Ok(m)
    ensures forall t | t in m.tags :: PlainTag(t)
  {
    if m.tags != [] {
      var raw := PrintedTags(m.tags);
      ReadingBackNeedsPlain(m.tags);
      TightIsNotTrimmed(text);
      TagSectionOpens(PrintedTagSection(m.tags) + text, raw, text);
      SourceImage(text, ParsedTags(raw), m);
    }
  }

  /** A command that begins with `@` on a line with no sections would be taken for one. */
  lemma CommandIsNoTagSection(m: Message, b: string)
    requires m.tags == [] && m.source.None? && m.command != "" && b == TrimEnd(PrintedBody(m))
    requires WithTags(b) == Ok(m)
    ensures m.command[0] != '@' && (b == "" || b[0] != '@')
  {
    LineImage(b, m);
    BodyEnd(m);
  }

  /** With sections that read back, the command and parameters come from all that is left. */
  lemma BodyIsAllThere(m: Message, text: string, b: string)
    requires (forall t | t in m.tags :: PlainTag(t)) && SourceHolds(m.source) && Tight(b) && Tight(text)
    requires text == PrintedSourceSection(m.source) + b
    requires m.source.None? ==> b == "" || b[0] != ':'
    requires m.tags == [] ==> text == "" || text[0] != '@'
    requires WithTags(PrintedTagSection(m.tags) + text) == Ok(m)
    ensures |PrintedBody(m)| <= |b|
  {
    TagSectionReadsBack(m.tags, text);
    SourceReadsBack(m.source, b, m.tags);
    CommandImage(b, m.tags, m.source, m);
  }

  lemma TrimmedBodyIsTight(m: Message, b: string)
    requires m.command != "" && ' ' !in m.command && b == TrimEnd(PrintedBody(m))
    ensures Tight(b) && (b != "" ==> b[0] == m.command[0])
    ensures Tight(PrintedSourceSection(m.source) + b)
    ensures |PrintedBody(m)| <= |b| ==> EndsClean(m)
  {
    BodyEnd(m);
    if b != "" {
      SectionIsTight(m.source, b);
    }
  }

  /** The command must not be taken for a section, and nothing of the body may be trimmed away. */
  lemma BodyMustSurvive(m: Message, text: string, b: string)
    requires b == TrimEnd(PrintedBody(m)) && text == PrintedSourceSection(m.source) + b
    requires WithTags(PrintedTagSection(m.tags) + text) == Ok(m)
    ensures WellFormed(m)
  {
    LineImage(PrintedTagSection(m.tags) + text, m);
    TrimmedBodyIsTight(m, b);
    TagsMustBePlain(m, text);
    if m.source.None? && m.tags == [] {
      assert PrintedTagSection(m.tags) + text == b;
      CommandIsNoTagSection(m, b);
    }
    BodyIsAllThere(m, text, b);
  }

  lemma PrintedTrimsInTheBody(m: Message)
    ensures TrimEnd(Printed(m)) == PrintedTagSection(m.tags) + (PrintedSourceSection(m.source) + TrimEnd(PrintedBody(m)))
  {
    var head := PrintedTagSection(m.tags) + PrintedSourceSection(m.source);
    TrimEndOfTail(head, PrintedBody(m));
    Regroup(PrintedTagSection(m.tags), PrintedSourceSection(m.source), TrimEnd(PrintedBody(m)));
  }

  /**
   Print then parse is exact: the message comes back if and only if it is well formed, so no clause of
   well-formedness can be dropped and none is missing.
   */
  lemma ReadsBackIffWellFormed(m: Message)
    ensures Parsed(Printed(m)) == Ok(m) <==> WellFormed(m)
  {
    if WellFormed(m) {
      WellFormedReadsBack(m, "");
      assert Printed(m) + "" == Printed(m);
    }
    if Parsed(Printed(m)) == Ok(m) {
      PrintedTrimsInTheBody(m);
      var b := TrimEnd(PrintedBody(m));
      BodyMustSurvive(m, PrintedSourceSection(m.source) + b, b);
    }
  }

  // ---- the code's own loops ----

  method PrintParams(params: seq<string>) returns (out: string)
    ensures out == PrintedParams(params)
  {
    out := "";
    var rest := params;
    while rest != []
      invariant out + PrintedParams(rest) == PrintedParams(params)
      decreases |rest|
    {
      var piece := (if |rest| == 1 && NeedsMarker(rest[0]) then " :" else " ") + rest[0];
      assert PrintedParams(rest) == piece + PrintedParams(rest[1..]);
      Regroup(out, piece, PrintedParams(rest[1..]));
      out, rest := out + piece, rest[1..];
    }
  }

  method PrintMessage(m: Message) returns (out: string)
    ensures out == Printed(m)
  {
    out := "";
    if m.tags != [] {
      var tags := PrintTags(m.tags);
      out := "@" + tags + " ";
    }
    if m.source.Some? {
      out := out + (":" + PrintedSource(m.source.value) + " ");
    }
    var params := PrintParams(m.params);
    out := out + (m.command + params);
  }

  method ParseParams(text: string) returns (params: seq<string>)
    ensures params == ParsedParams(text)
  {
    params := [];
    var rest, more := text, true;
    while more
      invariant params + (if more then ParsedParams(rest) else []) == ParsedParams(text)
      decreases more, |rest|
    {
      ghost var before := rest;
      rest := TrimStart(rest);
      if rest == "" {
        more := false;
      } else if rest[0] == ':' {
        params, more := params + [rest[1..]], false;
      } else {
        var next := SplitOnce(rest, ' ');
        if next.Some? {
          assert ParsedParams(before) == [next.value.0] + ParsedParams(next.value.1);
          params, rest := params + [next.value.0], next.value.1;
        } else {
          params, more := params + [rest], false;
        }
      }
    }
  }

  method ParseMessage(line: string) returns (r: Result<Message, ParseError>)
    ensures r == Parsed(line)
  {
    var rest := TrimEnd(line);
    var tags: seq<Tag> := [];
    if rest != "" && rest[0] == '@' {
      var section := SplitOnce(rest[1..], ' ');
      if section.None? {
        return Err(MissingCommand);
      }
      tags := ParsedTags(section.value.0);
      rest := TrimStart(section.value.1);
    }
    assert Parsed(line) == WithSource(rest, tags);
    var source := None;
    if rest != "" && rest[0] == ':' {
      var section := SplitOnce(rest[1..], ' ');
      if section.None? {
        return Err(MissingCommand);
      }
      source := Some(ParsedSource(section.value.0));
      rest := TrimStart(section.value.1);
    }
    assert Parsed(line) == WithCommand(rest, tags, source);
    var parts := SplitOnce(rest, ' ');
    var command := rest;
    rest := "";
    if parts.Some? {
      command, rest := parts.value.0, parts.value.1;
    }
    if command == "" {
      return Err(MissingCommand);
    }
    var params := ParseParams(rest);
    r := Ok(Message(tags, source, command, params));
  }
}
