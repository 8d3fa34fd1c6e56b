/** Message tags and their escaping (crates/obby-proto/src/tags.rs). */
module Tags {
  import opened Wrappers
  import opened Text

  datatype Tag = Tag(key: string, value: Option<string>)

  // ---- escaping ----

  function EscapedChar(c: char): string {
    match c
    case ';' => "\\:"
    case ' ' => "\\s"
    case '\\' => "\\\\"
    case '\r' => "\\r"
    case '\n' => "\\n"
    case other => [other]
  }

  function Escaped(value: string): string {
    if value == "" then "" else EscapedChar(value[0]) + Escaped(value[1..])
  }

  function UnescapedChar(c: char): char {
    match c
    case ':' => ';'
    case 's' => ' '
    case '\\' => '\\'
    case 'r' => '\r'
    case 'n' => '\n'
    case other => other
  }

  /** A backslash before a character with no escape of its own is dropped, and so is a lone trailing one. */
  function Unescaped(value: string): string {
    if value == "" then ""
    else if value[0] != '\\' then [value[0]] + Unescaped(value[1..])
    else if |value| == 1 then ""
    else [UnescapedChar(value[1])] + Unescaped(value[2..])
  }

  lemma UnescapeStep(c: char, rest: string)
    ensures Unescaped(EscapedChar(c) + rest) == [c] + Unescaped(rest)
  {
    var head := EscapedChar(c);
    var text := head + rest;
    if |head| == 1 {
      assert text[0] == c && text[1..] == rest;
    } else {
      assert text[0] == '\\' && text[1] == head[1] && text[2..] == rest;
    }
  }

  /** Escaping is undone by unescaping, for every value. */
  lemma {:induction false} UnescapeUndoesEscape(value: string)
    ensures Unescaped(Escaped(value)) == value
  {
    if value != "" {
      UnescapeStep(value[0], Escaped(value[1..]));
      UnescapeUndoesEscape(value[1..]);
    }
  }

  /** What escaping writes is safe inside a tag section, and empty only for an empty value. */
  lemma {:induction false} EscapedIsSafe(value: string)
    ensures forall c | c in Escaped(value) :: c != ' ' && c != ';' && c != '\r' && c != '\n'
    ensures (Escaped(value) == "") == (value == "")
  {
    if value != "" {
      EscapedIsSafe(value[1..]);
    }
  }

  lemma {:induction false} NothingToUnescape(value: string)
    requires '\\' !in value
    ensures Unescaped(value) == value
  {
    if value != "" {
      NothingToUnescape(value[1..]);
    }
  }

  /** What an escape stands for: the five of the standard, and any other character for itself. */
  predicate StandsFor(e: char, c: char) {
    if e == ':' then c == ';'
    else if e == 's' then c == ' '
    else if e == 'r' then c as int == 13
    else if e == 'n' then c as int == 10
    else c == e
  }

  /** The ways a character may be written in a value. */
  predicate Spells(c: char, s: string) {
    || (s == [c] && c != '\\')
    || (|s| == 2 && s[0] == '\\' && StandsFor(s[1], c))
  }

  /** A text spells a value out character by character; a backslash left over at the end stands for nothing. */
  ghost predicate SpellsOut(text: string, value: string) {
    exists chars, end :: SpeltAs(text, value, chars, end)
  }

  predicate SpeltAs(text: string, value: string, chars: seq<Spelt>, end: string) {
    && (forall i | 0 <= i < |chars| :: Spells(chars[i].0, chars[i].1))
    && Plain(chars) == value && text == Spelling(chars) + end && (end == "" || end == "\\")
  }

  lemma SpeltCharIsUnescaped(c: char, s: string, rest: string)
    requires Spells(c, s)
    ensures Unescaped(s + rest) == [c] + Unescaped(rest)
  {
    assert (s + rest)[|s|..] == rest;
  }

  lemma {:induction false} SpeltIsUnescaped(text: string, value: string, chars: seq<Spelt>, end: string)
    requires SpeltAs(text, value, chars, end)
    ensures Unescaped(text) == value
    decreases |chars|
  {
    if chars == [] {
      assert text == end;
    } else {
      var rest := Spelling(chars[1..]) + end;
      SpeltIsUnescaped(rest, Plain(chars[1..]), chars[1..], end);
      SpeltCharIsUnescaped(chars[0].0, chars[0].1, rest);
      Regroup(chars[0].1, Spelling(chars[1..]), end);
    }
  }

  lemma {:induction false} UnescapedIsSpelt(text: string) returns (chars: seq<Spelt>, end: string)
    ensures SpeltAs(text, Unescaped(text), chars, end)
  {
    if |text| <= 1 && text != "\\" {
      chars, end := if text == "" then [] else [(text[0], text)], "";
      if text != "" {
        assert chars[1..] == [] && text[1..] == "";
      }
    } else if text == "\\" {
      chars, end := [], "\\";
    } else {
      var n := if text[0] == '\\' then 2 else 1;
      chars, end := UnescapedIsSpelt(text[n..]);
      var c := Unescaped(text)[0];
      chars := OneMoreSpelt(c, text[..n], chars, end, text, Unescaped(text[n..]));
    }
  }

  lemma OneMoreSpelt(c: char, s: string, more: seq<Spelt>, end: string, text: string, value: string) returns (chars: seq<Spelt>)
    requires Spells(c, s) && |s| <= |text| && s == text[..|s|] && SpeltAs(text[|s|..], value, more, end)
    ensures SpeltAs(text, [c] + value, chars, end)
  {
    chars := [(c, s)] + more;
    assert chars[1..] == more && text == s + text[|s|..];
    Regroup(s, Spelling(more), end);
  }

  /** Unescaping is exact: it gives a value for just those texts that spell it out. */
  lemma UnescapedIff(text: string, value: string)
    ensures Unescaped(text) == value <==> SpellsOut(text, value)
  {
    var chars, end := UnescapedIsSpelt(text);
    if SpellsOut(text, value) {
      chars, end :| SpeltAs(text, value, chars, end);
      SpeltIsUnescaped(text, value, chars, end);
    }
  }

  lemma Regroup(a: string, b: string, c: string)
    ensures a + (b + c) == (a + b) + c
  {
  }

  /** `chars` is what the iterator over the value has left. */
  method Escape(value: string) returns (out: string)
    ensures out == Escaped(value)
  {
    out := "";
    var chars := value;
    while chars != ""
      invariant out + Escaped(chars) == Escaped(value)
      decreases |chars|
    {
      Regroup(out, EscapedChar(chars[0]), Escaped(chars[1..]));
      out, chars := out + EscapedChar(chars[0]), chars[1..];
    }
  }

  method Unescape(value: string) returns (out: string)
    ensures out == Unescaped(value)
  {
    if '\\' !in value {
      NothingToUnescape(value);
      return value;
    }
    out := "";
    var chars := value;
    while chars != ""
      invariant out + Unescaped(chars) == Unescaped(value)
      decreases |chars|
    {
      var c := chars[0];
      if c != '\\' {
        Regroup(out, [c], Unescaped(chars[1..]));
        out, chars := out + [c], chars[1..];
      } else if |chars| > 1 {
        Regroup(out, [UnescapedChar(chars[1])], Unescaped(chars[2..]));
        out, chars := out + [UnescapedChar(chars[1])], chars[2..];
      } else {
        chars := "";
      }
    }
  }

  // ---- the tag section ----

  function ParsedTag(part: string): Tag {
    match SplitOnce(part, '=')
    case None => Tag(part, None)
    case Some((key, value)) => if value == "" then Tag(key, None) else Tag(key, Some(Unescaped(value)))
  }

  function ParsedParts(parts: seq<string>): seq<Tag> {
    if parts == [] then []
    else if parts[0] == "" then ParsedParts(parts[1..])
    else [ParsedTag(parts[0])] + ParsedParts(parts[1..])
  }

  function ParsedTags(raw: string): seq<Tag> {
    ParsedParts(Split(raw, ';'))
  }

  function PrintedTag(tag: Tag): string {
    match tag.value
    case None => tag.key
    case Some(value) => tag.key + "=" + Escaped(value)
  }

  function PrintedTags(tags: seq<Tag>): string {
    if tags == [] then ""
    else if |tags| == 1 then PrintedTag(tags[0])
    else PrintedTag(tags[0]) + ";" + PrintedTags(tags[1..])
  }

  /** A tag that reads back as itself: a plain key, a value that is absent or not empty, and not nothing at all. */
  predicate PlainTag(tag: Tag) {
    && '=' !in tag.key && ';' !in tag.key && ' ' !in tag.key
    && tag.value != Some("")
    && (tag.key == "" ==> tag.value.Some?)
  }

  lemma PlainTagReadsBack(tag: Tag)
    requires PlainTag(tag)
    ensures ParsedTag(PrintedTag(tag)) == tag
    ensures PrintedTag(tag) != "" && ';' !in PrintedTag(tag) && ' ' !in PrintedTag(tag)
  {
    match tag.value
    case None => SplitOnceMiss(tag.key, '=');
    case Some(value) =>
      UnescapeUndoesEscape(value);
      EscapedIsSafe(value);
      SplitOnceHit(tag.key, '=', Escaped(value));
      assert PrintedTag(tag) == tag.key + ['='] + Escaped(value);
  }

  lemma {:induction false} TagsReadBack(tags: seq<Tag>)
    requires forall t | t in tags :: PlainTag(t)
    ensures ParsedTags(PrintedTags(tags)) == tags
    ensures ' ' !in PrintedTags(tags)
  {
    if tags != [] {
      var text := PrintedTag(tags[0]);
      PlainTagReadsBack(tags[0]);
      if |tags| == 1 {
        SplitOnceMiss(text, ';');
        assert Split(text, ';') == [text] && [text][1..] == [];
        assert ParsedParts([text]) == [ParsedTag(text)];
      } else {
        TagsReadBack(tags[1..]);
        var rest := PrintedTags(tags[1..]);
        SplitStep(text, ';', rest);
        assert PrintedTags(tags) == text + [';'] + rest;
        assert ([text] + Split(rest, ';'))[1..] == Split(rest, ';');
      }
    }
  }

  /** Keys that cannot break the section up: what parsing always yields. */
  predicate KeyHolds(tag: Tag) {
    '=' !in tag.key && ';' !in tag.key && ' ' !in tag.key
  }

  lemma PrintedTagHolds(tag: Tag)
    requires KeyHolds(tag)
    ensures ';' !in PrintedTag(tag) && ' ' !in PrintedTag(tag)
    ensures ParsedTag(PrintedTag(tag)) == (if tag.value == Some("") then Tag(tag.key, None) else tag)
    ensures PrintedTag(tag) == "" <==> tag == Tag("", None)
  {
    match tag.value
    case None => SplitOnceMiss(tag.key, '=');
    case Some(value) =>
      EscapedIsSafe(value);
      UnescapeUndoesEscape(value);
      SplitOnceHit(tag.key, '=', Escaped(value));
      assert PrintedTag(tag) == tag.key + ['='] + Escaped(value);
  }

  lemma {:induction false} ParsedPartsHold(parts: seq<string>)
    requires forall p | p in parts :: ';' !in p && ' ' !in p
    ensures forall t | t in ParsedParts(parts) :: KeyHolds(t)
    ensures |ParsedParts(parts)| <= |parts|
  {
    if parts != [] {
      ParsedPartsHold(parts[1..]);
      SplitOnceParts(parts[0], '=');
    }
  }

  lemma {:induction false} PiecesHold(s: string, c: char)
    ensures forall p, x | p in Split(s, c) && x in p :: x in s
    decreases |s|
  {
    SplitOnceParts(s, c);
    if SplitOnce(s, c).Some? {
      PiecesHold(SplitOnce(s, c).value.1, c);
    }
  }

  /** Whatever section is parsed, its keys hold. */
  lemma ParsedTagsHold(raw: string)
    requires ' ' !in raw
    ensures forall t | t in ParsedTags(raw) :: KeyHolds(t)
  {
    PiecesHold(raw, ';');
    ParsedPartsHold(Split(raw, ';'));
  }

  lemma OneTagParsed(tag: Tag)
    requires KeyHolds(tag)
    ensures ParsedTags(PrintedTag(tag)) == if tag == Tag("", None) then [] else [ParsedTag(PrintedTag(tag))]
  {
    var text := PrintedTag(tag);
    PrintedTagHolds(tag);
    SplitOnceMiss(text, ';');
    assert Split(text, ';') == [text];
    assert ParsedParts([text]) == if text == "" then [] else [ParsedTag(text)];
  }

  lemma MoreTagsParsed(tag: Tag, rest: string)
    requires KeyHolds(tag)
    ensures ParsedTags(PrintedTag(tag) + ";" + rest) ==
            (if tag == Tag("", None) then [] else [ParsedTag(PrintedTag(tag))]) + ParsedTags(rest)
  {
    var text := PrintedTag(tag);
    PrintedTagHolds(tag);
    SplitStep(text, ';', rest);
    assert text + ";" + rest == text + [';'] + rest;
    assert ([text] + Split(rest, ';'))[1..] == Split(rest, ';');
  }

  /** Keys that hold read back only if every tag is plain. */
  lemma {:induction false} ReadingBackNeedsPlain(tags: seq<Tag>)
    requires tags != [] && forall t | t in tags :: KeyHolds(t)
    ensures |ParsedTags(PrintedTags(tags))| <= |tags|
    ensures ParsedTags(PrintedTags(tags)) == tags ==> forall t | t in tags :: PlainTag(t)
    ensures ' ' !in PrintedTags(tags)
  {
    PrintedTagHolds(tags[0]);
    if |tags| == 1 {
      OneTagParsed(tags[0]);
      assert tags == [tags[0]];
    } else {
      ReadingBackNeedsPlain(tags[1..]);
      MoreTagsParsed(tags[0], PrintedTags(tags[1..]));
      FirstAndRest(tags, ParsedTags(PrintedTags(tags[1..])));
    }
  }

  /** Fewer read than printed is a mismatch; as many means the first and the rest match each for itself. */
  lemma FirstAndRest(tags: seq<Tag>, rest: seq<Tag>)
    requires |tags| > 1 && |rest| <= |tags| - 1 && KeyHolds(tags[0])
    requires rest == tags[1..] ==> forall t | t in tags[1..] :: PlainTag(t)
    ensures var read := (if tags[0] == Tag("", None) then [] else [ParsedTag(PrintedTag(tags[0]))]) + rest;
            |read| <= |tags| && (read == tags ==> forall t | t in tags :: PlainTag(t))
  {
    PrintedTagHolds(tags[0]);
    assert tags == [tags[0]] + tags[1..];
  }

  lemma PrintedTagsStep(tags: seq<Tag>, i: nat)
    requires i < |tags|
    ensures PrintedTags(tags[i..]) == PrintedTag(tags[i]) + (if i + 1 < |tags| then ";" else "") + PrintedTags(tags[i + 1..])
  {
    assert tags[i..][1..] == tags[i + 1..];
  }

  lemma JoinThree(a: string, b: string, c: string, d: string)
    ensures a + (b + c + d) == (a + b) + c + d
  {
  }

  method PrintTags(tags: seq<Tag>) returns (out: string)
    ensures out == PrintedTags(tags)
  {
    out := "";
    for i := 0 to |tags|
      invariant PrintedTags(tags) == out + (if 0 < i < |tags| then ";" else "") + PrintedTags(tags[i..])
    {
      PrintedTagsStep(tags, i);
      if i > 0 {
        out := out + ";";
      }
      var piece := tags[i].key;
      if tags[i].value.Some? {
        var escaped := Escape(tags[i].value.value);
        piece := piece + "=" + escaped;
      }
      JoinThree(out, piece, if i + 1 < |tags| then ";" else "", PrintedTags(tags[i + 1..]));
      out := out + piece;
    }
  }

  /** The value of the last tag with this key, if it has one. */
  function Get(tags: seq<Tag>, key: string): Option<string> {
    if tags == [] then None
    else if tags[|tags| - 1].key == key then tags[|tags| - 1].value
    else Get(tags[..|tags| - 1], key)
  }

  /** A key's value is that of the last tag with the key, whatever came before. */
  lemma {:induction false} GetIff(tags: seq<Tag>, key: string, value: string)
    ensures Get(tags, key) == Some(value) <==>
            exists i :: 0 <= i < |tags| && tags[i] == Tag(key, Some(value)) && forall j | i < j < |tags| :: tags[j].key != key
  {
    if tags != [] {
      var front, last := tags[..|tags| - 1], |tags| - 1;
      GetIff(front, key, value);
      if tags[last].key != key && Get(tags, key) == Some(value) {
        var i :| 0 <= i < |front| && front[i] == Tag(key, Some(value)) && forall j | i < j < |front| :: front[j].key != key;
        assert tags[i] == Tag(key, Some(value)) && forall j | i < j < |tags| :: tags[j].key != key;
      }
    }
  }

  // ---- a section as it may arrive ----

  /** A part says a tag: its key alone, with an equals sign, or with an escaped value after it. */
  ghost predicate PartSays(part: string, tag: Tag) {
    && '=' !in tag.key
    && match tag.value
       case None => part == tag.key || part == tag.key + "="
       case Some(value) => exists escaped :: escaped != "" && part == tag.key + "=" + escaped && SpellsOut(escaped, value)
  }

  lemma PartSaysIff(part: string, tag: Tag)
    ensures ParsedTag(part) == tag <==> PartSays(part, tag)
  {
    SplitOnceParts(part, '=');
    if '=' !in tag.key && part == tag.key {
      SplitOnceMiss(part, '=');
    }
    if ParsedTag(part) == tag && tag.value.Some? {
      var escaped := SplitOnce(part, '=').value.1;
      UnescapedIff(escaped, tag.value.value);
      assert part == tag.key + "=" + escaped;
    }
    if ParsedTag(part) == tag && tag.value.None? && SplitOnce(part, '=').Some? {
      assert part == tag.key + "=";
    }
    if PartSays(part, tag) {
      if tag.value.Some? {
        var escaped :| escaped != "" && part == tag.key + "=" + escaped && SpellsOut(escaped, tag.value.value);
        UnescapedIff(escaped, tag.value.value);
        assert part == tag.key + ['='] + escaped;
        SplitOnceHit(tag.key, '=', escaped);
      } else if part == tag.key + "=" {
        assert part == tag.key + ['='] + "";
        SplitOnceHit(tag.key, '=', "");
      }
    }
  }

  function NotEmpty(parts: seq<string>): seq<string> {
    if parts == [] then [] else (if parts[0] == "" then [] else [parts[0]]) + NotEmpty(parts[1..])
  }

  /** A section is read part by part, empty parts skipped, whatever each part says. */
  lemma {:induction false} SectionIsReadByParts(parts: seq<string>, tags: seq<Tag>)
    requires (forall p | p in parts :: ';' !in p) && |tags| == |NotEmpty(parts)|
    ensures ParsedTags(Listed(parts, ';')) == tags <==> forall i | 0 <= i < |tags| :: PartSays(NotEmpty(parts)[i], tags[i])
  {
    PartsAreSplit(parts);
    PartsAreParsed(parts);
    forall i | 0 <= i < |tags| ensures ParsedTag(NotEmpty(parts)[i]) == tags[i] <==> PartSays(NotEmpty(parts)[i], tags[i]) {
      PartSaysIff(NotEmpty(parts)[i], tags[i]);
    }
  }

  lemma PartsAreSplit(parts: seq<string>)
    requires forall p | p in parts :: ';' !in p
    ensures ParsedTags(Listed(parts, ';')) == ParsedParts(parts)
  {
    if parts == [] {
      SplitOnceMiss("", ';');
      assert Split("", ';') == [""] && [""][1..] == [];
      assert ParsedParts([""]) == ParsedParts([]);
    } else {
      ListedIsSplit(parts, ';');
    }
  }

  lemma {:induction false} PartsAreParsed(parts: seq<string>)
    ensures |ParsedParts(parts)| == |NotEmpty(parts)|
    ensures forall i | 0 <= i < |ParsedParts(parts)| :: ParsedParts(parts)[i] == ParsedTag(NotEmpty(parts)[i])
  {
    if parts != [] {
      PartsAreParsed(parts[1..]);
    }
  }

  /** Add a tag, replacing the first one with the same key. */
  function Set(tags: seq<Tag>, tag: Tag): seq<Tag> {
    if tags == [] then [tag]
    else if tags[0].key == tag.key then [tag] + tags[1..]
    else [tags[0]] + Set(tags[1..], tag)
  }
}
