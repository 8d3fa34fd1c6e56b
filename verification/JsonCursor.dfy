/**
 The cursor parser of crates/obby-client/src/json.rs: a class whose methods read exactly what the functions on the text
 that is left say.
 */
module JsonCursor {
  import opened Wrappers
  import opened Numbers
  import opened JsonText
  import JsonGrammar

  /** How the rest of a list continues what a loop has collected so far. */
  function Continued<T>(done: seq<T>, more: Option<(seq<T>, string)>): Option<(seq<T>, string)> {
    match more
    case None => None
    case Some((items, after)) => Some((done + items, after))
  }

  lemma ContinuedFromNothing<T>(more: Option<(seq<T>, string)>)
    ensures Continued([], more) == more
  {
    match more
    case None =>
    case Some((items, after)) => assert [] + items == items;
  }

  lemma ContinuedByNothing<T>(done: seq<T>, after: string)
    ensures Continued(done, Some(([], after))) == Some((done, after))
  {
    assert done + [] == done;
  }

  lemma ContinuedStep<T>(done: seq<T>, v: T, more: Option<(seq<T>, string)>)
    ensures Continued(done + [v], more) == Continued(done, Continued([v], more))
  {
    match more
    case None =>
    case Some((items, after)) => assert (done + [v]) + items == done + ([v] + items);
  }

  lemma SliceOfRest(text: string, start: nat, end: nat)
    requires start <= end <= |text|
    ensures text[start..end] == text[start..][..end - start]
  {
  }

  /** What the character after a field decides: more fields, the end of the object, or no object. */
  lemma FieldsGoOn(text: string, field: (string, Json), rest: string)
    requires ReadField(text) == Some((field, rest))
    ensures var t := SkipSpace(rest);
      ReadFields(text) ==
      if t != "" && t[0] == ',' then Continued([field], ReadFields(t[1..]))
      else if t != "" && t[0] == '}' then Some(([field], t[1..]))
      else None
  {
  }

  lemma ItemsGoOn(text: string, v: Json, rest: string)
    requires ReadValue(text) == Some((v, rest))
    ensures var t := SkipSpace(rest);
      ReadItems(text) ==
      if t != "" && t[0] == ',' then Continued([v], ReadItems(SkipSpace(t[1..])))
      else if t != "" && t[0] == ']' then Some(([v], t[1..]))
      else None
  {
  }

  /** What the next character of a string decides. */
  lemma CharsGoOn(text: string)
    requires text != ""
    ensures ReadChars(text) ==
            if text[0] == '"' then Some(("", text[1..]))
            else if text[0] != '\\' then Continued([text[0]], ReadChars(text[1..]))
            else
              match ReadEscape(text[1..])
              case None => None
              case Some((c, rest)) => Continued([c], ReadChars(rest))
  {
  }

  /** A cursor over a text. Each method reads what the function of the same name reads from the text that is left. */
  class Parser {
    const text: string
    var pos: nat

    ghost predicate Valid()
      reads this
    {
      pos <= |text|
    }

    ghost function Rest(): (rest: string)
      requires Valid()
      reads this
      ensures |rest| == |text| - pos
    {
      text[pos..]
    }

    /** The outcome is the one a function on the text that was left gives, and the cursor stands behind what was read. */
    ghost predicate Got<T>(r: Option<T>, expected: Option<(T, string)>)
      reads this
    {
      Valid() &&
      match expected
      case None => r == None
      case Some((v, rest)) => r == Some(v) && Rest() == rest
    }

    constructor (text: string)
      ensures Valid() && Rest() == text
    {
      this.text := text;
      pos := 0;
    }

    function Peek(): (c: Option<char>)
      requires Valid()
      reads this
      ensures c == if Rest() == "" then None else Some(Rest()[0])
    {
      if pos < |text| then Some(text[pos]) else None
    }

    method Bump() returns (c: Option<char>)
      requires Valid()
      modifies this
      ensures Valid() && c == old(Peek()) && Rest() == if c == None then "" else old(Rest())[1..]
    {
      c := Peek();
      if c != None {
        pos := pos + 1;
      }
    }

    method Expect(c: char) returns (found: bool)
      requires Valid()
      modifies this
      ensures Valid() && found == (old(Peek()) == Some(c))
      ensures Rest() == if found then old(Rest())[1..] else old(Rest())
    {
      found := Peek() == Some(c);
      if found {
        pos := pos + 1;
      }
    }

    method SkipWs()
      requires Valid()
      modifies this
      ensures Valid() && Rest() == SkipSpace(old(Rest()))
    {
      while pos < |text| && IsSpace(text[pos])
        invariant Valid() && SkipSpace(Rest()) == SkipSpace(old(Rest()))
      {
        pos := pos + 1;
      }
    }

    method SkipDigitRun()
      requires Valid()
      modifies this
      ensures Valid() && Rest() == SkipDigits(old(Rest()))
    {
      while pos < |text| && IsDigit(text[pos])
        invariant Valid() && SkipDigits(Rest()) == SkipDigits(old(Rest()))
      {
        pos := pos + 1;
      }
    }

    method ParseLiteral(literal: string, value: Json) returns (r: Option<Json>)
      requires Valid() && literal != ""
      modifies this
      ensures Got(r, ReadLiteral(old(Rest()), literal, value))
    {
      var end := pos + |literal|;
      if end <= |text| && text[pos..end] == literal {
        assert Rest()[..|literal|] == literal;
        pos := end;
        return Some(value);
      }
      return None;
    }

    method SkipFractionPart()
      requires Valid()
      modifies this
      ensures Valid() && Rest() == SkipFraction(old(Rest()))
    {
      if Peek() == Some('.') {
        pos := pos + 1;
        SkipDigitRun();
      }
    }

    method SkipExponentPart()
      requires Valid()
      modifies this
      ensures Valid() && Rest() == SkipExponent(old(Rest()))
    {
      if Peek() == Some('e') || Peek() == Some('E') {
        pos := pos + 1;
        if Peek() == Some('+') || Peek() == Some('-') {
          pos := pos + 1;
        }
        SkipDigitRun();
      }
    }

    method ParseNumber() returns (r: Option<Json>)
      requires Valid() && Rest() != "" && (Rest()[0] == '-' || IsDigit(Rest()[0]))
      modifies this
      ensures Got(r, ReadNumber(old(Rest())))
    {
      var start := pos;
      if Peek() == Some('-') {
        pos := pos + 1;
      }
      SkipDigitRun();
      var intEnd := pos;
      SliceOfRest(text, start, intEnd);
      SkipFractionPart();
      SkipExponentPart();
      match ParseI64(text[start..intEnd]) {
        case None => return None;
        case Some(n) => return Some(Num(n));
      }
    }

    method ParseValue() returns (r: Option<Json>)
      requires Valid()
      modifies this
      ensures Got(r, ReadValue(old(Rest())))
      decreases |text| - pos, 1
    {
      SkipWs();
      match Peek() {
        case None => return None;
        case Some(c) =>
          if c == '"' {
            var s := ParseString();
            return if s == None then None else Some(Str(s.value));
          } else if c == '{' {
            r := ParseObject();
          } else if c == '[' {
            r := ParseArray();
          } else if c == 't' {
            r := ParseLiteral("true", Bool(true));
          } else if c == 'f' {
            r := ParseLiteral("false", Bool(false));
          } else if c == 'n' {
            r := ParseLiteral("null", Null);
          } else if c == '-' || IsDigit(c) {
            r := ParseNumber();
          } else {
            r := None;
          }
      }
    }

    method ParseArray() returns (r: Option<Json>)
      requires Valid() && Peek() == Some('[')
      modifies this
      ensures Got(r, ReadArray(old(Rest())[1..]))
      decreases |text| - pos, 0
    {
      ghost var before := |Rest()|;
      var _ := Expect('[');
      var items: seq<Json> := [];
      SkipWs();
      if Peek() == Some(']') {
        pos := pos + 1;
        return Some(Array(items));
      }
      ghost var all := ReadItems(Rest());
      ContinuedFromNothing(all);
      while true
        invariant Valid() && |Rest()| < before
        invariant all == Continued(items, ReadItems(Rest()))
        decreases |text| - pos
      {
        ghost var here := Rest();
        var v := ParseValue();
        if v == None {
          return None;
        }
        ItemsGoOn(here, v.value, Rest());
        SkipWs();
        var c := Bump();
        if c == Some(',') {
          SkipWs();
          ContinuedStep(items, v.value, ReadItems(Rest()));
          items := items + [v.value];
        } else if c == Some(']') {
          return Some(Array(items + [v.value]));
        } else {
          return None;
        }
      }
    }

    method ParseField() returns (r: Option<(string, Json)>)
      requires Valid()
      modifies this
      ensures Got(r, ReadField(old(Rest())))
      decreases |text| - pos, 2
    {
      SkipWs();
      var key := ParseString();
      if key == None {
        return None;
      }
      SkipWs();
      var colon := Expect(':');
      if !colon {
        return None;
      }
      var v := ParseValue();
      return if v == None then None else Some((key.value, v.value));
    }

    method ParseObject() returns (r: Option<Json>)
      requires Valid() && Peek() == Some('{')
      modifies this
      ensures Got(r, ReadObject(old(Rest())[1..]))
      decreases |text| - pos, 0
    {
      ghost var before := |Rest()|;
      var _ := Expect('{');
      var fields: seq<(string, Json)> := [];
      SkipWs();
      if Peek() == Some('}') {
        pos := pos + 1;
        return Some(Object(fields));
      }
      ghost var all := ReadFields(Rest());
      ContinuedFromNothing(all);
      while true
        invariant Valid() && |Rest()| < before
        invariant all == Continued(fields, ReadFields(Rest()))
        decreases |text| - pos
      {
        ghost var here := Rest();
        var field := ParseField();
        if field == None {
          return None;
        }
        FieldsGoOn(here, field.value, Rest());
        SkipWs();
        var c := Bump();
        if c == Some(',') {
          ContinuedStep(fields, field.value, ReadFields(Rest()));
          fields := fields + [field.value];
        } else if c == Some('}') {
          return Some(Object(fields + [field.value]));
        } else {
          return None;
        }
      }
    }

    method ParseString() returns (r: Option<string>)
      requires Valid()
      modifies this
      ensures Got(r, ReadString(old(Rest())))
    {
      var quote := Expect('"');
      if !quote {
        return None;
      }
      var out := "";
      ghost var all := ReadChars(Rest());
      ContinuedFromNothing(all);
      while pos < |text|
        invariant Valid() && all == Continued(out, ReadChars(Rest()))
        decreases |text| - pos
      {
        ghost var here := Rest();
        var c := text[pos];
        CharsGoOn(here);
        pos := pos + 1;
        assert here[0] == c && Rest() == here[1..];
        if c == '"' {
          ContinuedByNothing(out, Rest());
          return Some(out);
        } else if c == '\\' {
          var e := ParseEscape();
          if e == None {
            return None;
          }
          assert ReadChars(here) == Continued([e.value], ReadChars(Rest()));
          ContinuedStep(out, e.value, ReadChars(Rest()));
          out := out + [e.value];
        } else {
          assert ReadChars(here) == Continued([c], ReadChars(Rest()));
          ContinuedStep(out, c, ReadChars(Rest()));
          out := out + [c];
        }
      }
      return None;
    }

    method ParseEscape() returns (r: Option<char>)
      requires Valid()
      modifies this
      ensures Got(r, ReadEscape(old(Rest())))
    {
      var c := Bump();
      if c == None {
        return None;
      }
      match c.value {
        case '"' => return Some('"');
        case '\\' => return Some('\\');
        case '/' => return Some('/');
        case 'b' => return Some(8 as char);
        case 'f' => return Some(12 as char);
        case 'n' => return Some('\n');
        case 'r' => return Some('\r');
        case 't' => return Some('\t');
        case 'u' => r := ParseUnicodeEscape();
        case _ => return None;
      }
    }

    method ParseUnicodeEscape() returns (r: Option<char>)
      requires Valid()
      modifies this
      ensures Got(r, ReadUnicode(old(Rest())))
    {
      var unit := ParseHex4();
      if unit == None {
        return None;
      }
      if 0xD800 <= unit.value <= 0xDBFF {
        r := ParseLowHalf(unit.value);
      } else {
        r := CharOf(unit.value);
      }
    }

    method ParseLowHalf(high: nat) returns (r: Option<char>)
      requires Valid() && 0xD800 <= high <= 0xDBFF
      modifies this
      ensures Got(r, ReadLowHalf(high, old(Rest())))
    {
      var slash := Expect('\\');
      if !slash {
        return None;
      }
      var u := Expect('u');
      if !u {
        return None;
      }
      var low := ParseHex4();
      if low == None || !(0xDC00 <= low.value <= 0xDFFF) {
        return None;
      }
      return CharOf(0x1_0000 + (high - 0xD800) * 0x400 + (low.value - 0xDC00));
    }

    method ParseHex4() returns (r: Option<nat>)
      requires Valid()
      modifies this
      ensures Got(r, ReadHex4(old(Rest())))
    {
      if pos + 4 > |text| {
        return None;
      }
      var digits := ReadHex4(text[pos..pos + 4]);
      if digits == None {
        return None;
      }
      pos := pos + 4;
      return Some(digits.value.0);
    }
  }

  lemma {:induction false} LeadingSpaceIsIgnored(text: string)
    ensures SkipSpace(SkipSpace(text)) == SkipSpace(text) && ReadValue(SkipSpace(text)) == ReadValue(text)
  {
    if text != "" && IsSpace(text[0]) {
      LeadingSpaceIsIgnored(text[1..]);
    }
  }

  /** Parse the whole text: the value it holds, or nothing. */
  method Parse(text: string) returns (r: Option<Json>)
    ensures r == Parsed(text)
    ensures forall v :: r == Some(v) <==>
              exists before, d, after :: JsonGrammar.TextOf(text, before, d, after) && JsonGrammar.Value(d) == v
  {
    var parser := new Parser(text);
    parser.SkipWs();
    LeadingSpaceIsIgnored(text);
    r := parser.ParseValue();
    if r != None {
      parser.SkipWs();
      if parser.pos != |parser.text| {
        r := None;
      }
    }
    forall v
      ensures Parsed(text) == Some(v) <==>
        exists before, d, after :: JsonGrammar.TextOf(text, before, d, after) && JsonGrammar.Value(d) == v
    {
      JsonGrammar.ParsedIff(text, v);
    }
  }
}
