/**
 JSON values, the writer of crates/obby-client/src/voice.rs:34-96, and what the parser of
 crates/obby-client/src/json.rs reads, as functions on the text that is left.
 */
module JsonText {
  import opened Wrappers
  import opened Integers
  import opened Numbers

  datatype Json =
    | Null
    | Bool(b: bool)
    | Num(n: i64)
    | Str(s: string)
    | Array(items: seq<Json>)
    | Object(fields: seq<(string, Json)>)

  // ---- writing ----

  function HexChar(d: nat): char
    requires d < 16
  {
    if d < 10 then ('0' as int + d) as char else ('a' as int + (d - 10)) as char
  }

  function WrittenChar(c: char): string {
    match c
    case '"' => "\\\""
    case '\\' => "\\\\"
    case '\n' => "\\n"
    case '\r' => "\\r"
    case '\t' => "\\t"
    case _ =>
      if c as int < 0x20 then "\\u00" + [HexChar(c as int / 16), HexChar(c as int % 16)] else [c]
  }

  function WrittenChars(s: string): string {
    if s == "" then "" else WrittenChar(s[0]) + WrittenChars(s[1..])
  }

  function WrittenString(s: string): string {
    "\"" + (WrittenChars(s) + "\"")
  }

  function Written(v: Json): string
    decreases v, 0
  {
    match v
    case Null => "null"
    case Bool(b) => if b then "true" else "false"
    case Num(n) => DecimalOfInt(n)
    case Str(s) => WrittenString(s)
    case Array(items) => if items == [] then "[]" else "[" + WrittenItems(items)
    case Object(fields) => if fields == [] then "{}" else "{" + WrittenFields(fields)
  }

  /** The items, the commas between them and the closing bracket. */
  function WrittenItems(items: seq<Json>): string
    requires items != []
    decreases items, 0
  {
    Written(items[0]) + (if |items| == 1 then "]" else "," + WrittenItems(items[1..]))
  }

  function WrittenField(field: (string, Json)): string
    decreases field, 1
  {
    WrittenString(field.0) + (":" + Written(field.1))
  }

  function WrittenFields(fields: seq<(string, Json)>): string
    requires fields != []
    decreases fields, 0
  {
    WrittenField(fields[0]) + (if |fields| == 1 then "}" else "," + WrittenFields(fields[1..]))
  }

  lemma Regroup3(a: string, b: string, c: string)
    ensures (a + b) + c == a + (b + c)
  {
  }

  /** The escape loop over the characters of a string. */
  method WriteString(s: string) returns (out: string)
    ensures out == WrittenString(s)
  {
    out := "\"";
    var chars := s;
    while chars != ""
      invariant out + (WrittenChars(chars) + "\"") == WrittenString(s)
      decreases |chars|
    {
      Regroup3(WrittenChar(chars[0]), WrittenChars(chars[1..]), "\"");
      Regroup3(out, WrittenChar(chars[0]), WrittenChars(chars[1..]) + "\"");
      out := out + WrittenChar(chars[0]);
      chars := chars[1..];
    }
    out := out + "\"";
  }

  method Write(v: Json) returns (out: string)
    ensures out == Written(v)
    decreases v, 1
  {
    match v {
      case Null => return "null";
      case Bool(b) => return if b then "true" else "false";
      case Num(n) => return DecimalOfInt(n);
      case Str(s) => out := WriteString(s);
      case Array(items) => out := WriteArray(items);
      case Object(fields) => out := WriteObject(fields);
    }
  }

  /** What a list still has to write from an index on: the closing bracket, or a comma unless it is the first, then the rest. */
  function ItemsLeft(items: seq<Json>, i: nat): string
    requires i <= |items|
  {
    if i == |items| then "]" else Comma(i) + WrittenItems(items[i..])
  }

  function Comma(i: nat): string {
    if i == 0 then "" else ","
  }

  lemma OneItemFewer(out: string, items: seq<Json>, i: nat)
    requires i < |items|
    ensures (out + Comma(i) + Written(items[i])) + ItemsLeft(items, i + 1) == out + ItemsLeft(items, i)
  {
    var rest, left := items[i..], ItemsLeft(items, i + 1);
    assert rest[0] == items[i] && rest[1..] == items[i + 1..];
    assert WrittenItems(rest) == Written(items[i]) + left;
    Regroup3(out, Comma(i), Written(items[i]) + left);
    Regroup3(out + Comma(i), Written(items[i]), left);
  }

  method WriteArray(items: seq<Json>) returns (out: string)
    ensures out == Written(Array(items))
    decreases items, 0
  {
    out := "[";
    assert items[0..] == items;
    for i := 0 to |items|
      invariant out + ItemsLeft(items, i) == Written(Array(items))
    {
      OneItemFewer(out, items, i);
      var item := Write(items[i]);
      out := out + Comma(i) + item;
    }
    out := out + "]";
  }

  function FieldsLeft(fields: seq<(string, Json)>, i: nat): string
    requires i <= |fields|
  {
    if i == |fields| then "}" else Comma(i) + WrittenFields(fields[i..])
  }

  lemma OneFieldFewer(out: string, fields: seq<(string, Json)>, i: nat)
    requires i < |fields|
    ensures (out + Comma(i) + WrittenField(fields[i])) + FieldsLeft(fields, i + 1) == out + FieldsLeft(fields, i)
  {
    var rest, left := fields[i..], FieldsLeft(fields, i + 1);
    assert rest[0] == fields[i] && rest[1..] == fields[i + 1..];
    assert WrittenFields(rest) == WrittenField(fields[i]) + left;
    Regroup3(out, Comma(i), WrittenField(fields[i]) + left);
    Regroup3(out + Comma(i), WrittenField(fields[i]), left);
  }

  method WriteObject(fields: seq<(string, Json)>) returns (out: string)
    ensures out == Written(Object(fields))
    decreases fields, 0
  {
    out := "{";
    assert fields[0..] == fields;
    for i := 0 to |fields|
      invariant out + FieldsLeft(fields, i) == Written(Object(fields))
    {
      OneFieldFewer(out, fields, i);
      var key := WriteString(fields[i].0);
      var value := Write(fields[i].1);
      out := out + Comma(i) + (key + (":" + value));
    }
    out := out + "}";
  }

  // ---- reading: functions from the text that is left to a value and the text left after it ----

  predicate IsSpace(c: char) {
    c == ' ' || c == '\t' || c == '\n' || c == '\r'
  }

  function SkipSpace(text: string): (rest: string)
    ensures |rest| <= |text|
  {
    if text != "" && IsSpace(text[0]) then SkipSpace(text[1..]) else text
  }

  predicate IsHex(c: char) {
    IsDigit(c) || 'a' <= c <= 'f' || 'A' <= c <= 'F'
  }

  function HexValue(c: char): (d: nat)
    requires IsHex(c)
    ensures d < 16
  {
    if IsDigit(c) then c as int - '0' as int
    else if 'a' <= c <= 'f' then c as int - 'a' as int + 10
    else c as int - 'A' as int + 10
  }

  /** Four characters as a base-16 number, the way the standard radix parser reads them: a leading `+` is allowed. */
  function ReadHex4(text: string): (r: Option<(nat, string)>)
    ensures r.Some? ==> |r.value.1| < |text| && r.value.0 < 0x1_0000
  {
    if |text| < 4 || !(IsHex(text[0]) || text[0] == '+') || !IsHex(text[1]) || !IsHex(text[2]) || !IsHex(text[3]) then None
    else
      var high := if text[0] == '+' then 0 else HexValue(text[0]);
      Some((((high * 16 + HexValue(text[1])) * 16 + HexValue(text[2])) * 16 + HexValue(text[3]), text[4..]))
  }

  /** The character with this code, unless it is a surrogate or out of range. */
  function CharOf(code: nat): Option<char> {
    if code < 0xD800 || 0xE000 <= code < 0x11_0000 then Some(code as char) else None
  }

  /** The other half of a pair that began with this unit. */
  function ReadLowHalf(high: nat, text: string): (r: Option<(char, string)>)
    requires 0xD800 <= high <= 0xDBFF
    ensures r.Some? ==> |r.value.1| < |text|
  {
    if |text| < 2 || text[0] != '\\' || text[1] != 'u' then None
    else
      match ReadHex4(text[2..])
      case None => None
      case Some((low, after)) =>
        if !(0xDC00 <= low <= 0xDFFF) then None
        else
          match CharOf(0x1_0000 + (high - 0xD800) * 0x400 + (low - 0xDC00))
          case None => None
          case Some(c) => Some((c, after))
  }

  function ReadUnicode(text: string): (r: Option<(char, string)>)
    ensures r.Some? ==> |r.value.1| < |text|
  {
    match ReadHex4(text)
    case None => None
    case Some((unit, rest)) =>
      if 0xD800 <= unit <= 0xDBFF then
        ReadLowHalf(unit, rest)
      else
        match CharOf(unit)
        case None => None
        case Some(c) => Some((c, rest))
  }

  /** One escape, after its backslash. */
  function ReadEscape(text: string): (r: Option<(char, string)>)
    ensures r.Some? ==> |r.value.1| < |text|
  {
    if text == "" then None
    else
      match text[0]
      case '"' => Some(('"', text[1..]))
      case '\\' => Some(('\\', text[1..]))
      case '/' => Some(('/', text[1..]))
      case 'b' => Some((8 as char, text[1..]))
      case 'f' => Some((12 as char, text[1..]))
      case 'n' => Some(('\n', text[1..]))
      case 'r' => Some(('\r', text[1..]))
      case 't' => Some(('\t', text[1..]))
      case 'u' => ReadUnicode(text[1..])
      case _ => None
  }

  /** The characters of a string up to its closing quote. */
  function ReadChars(text: string): (r: Option<(string, string)>)
    ensures r.Some? ==> |r.value.1| < |text|
    decreases |text|
  {
    if text == "" then None
    else if text[0] == '"' then Some(("", text[1..]))
    else if text[0] == '\\' then
      match ReadEscape(text[1..])
      case None => None
      case Some((c, rest)) =>
        (match ReadChars(rest)
         case None => None
         case Some((s, after)) => Some(([c] + s, after)))
    else
      match ReadChars(text[1..])
      case None => None
      case Some((s, after)) => Some(([text[0]] + s, after))
  }

  function ReadString(text: string): (r: Option<(string, string)>)
    ensures r.Some? ==> |r.value.1| < |text|
  {
    if text == "" || text[0] != '"' then None else ReadChars(text[1..])
  }

  function SkipDigits(text: string): (rest: string)
    ensures |rest| <= |text|
  {
    if text != "" && IsDigit(text[0]) then SkipDigits(text[1..]) else text
  }

  /** Drop a fraction and an exponent. Only the integer part counts; what follows it is read past. */
  function SkipFraction(text: string): (rest: string)
    ensures |rest| <= |text|
  {
    if text != "" && text[0] == '.' then SkipDigits(text[1..]) else text
  }

  function SkipExponent(text: string): (rest: string)
    ensures |rest| <= |text|
  {
    if text != "" && (text[0] == 'e' || text[0] == 'E') then
      var sign := text[1..];
      SkipDigits(if sign != "" && (sign[0] == '+' || sign[0] == '-') then sign[1..] else sign)
    else text
  }

  function ReadNumber(text: string): (r: Option<(Json, string)>)
    requires text != "" && (text[0] == '-' || IsDigit(text[0]))
    ensures r.Some? ==> |r.value.1| < |text|
  {
    var digits := if text[0] == '-' then text[1..] else text;
    var after := SkipDigits(digits);
    match ParseI64(text[..|text| - |after|])
    case None => None
    case Some(n) => Some((Num(n), SkipExponent(SkipFraction(after))))
  }

  function ReadLiteral(text: string, literal: string, value: Json): (r: Option<(Json, string)>)
    requires literal != ""
    ensures r.Some? ==> |r.value.1| < |text|
  {
    if literal <= text then Some((value, text[|literal|..])) else None
  }

  function ReadValue(text: string): (r: Option<(Json, string)>)
    ensures r.Some? ==> |r.value.1| < |text|
    decreases |text|, 1
  {
    var t := SkipSpace(text);
    if t == "" then None
    else
      match t[0]
      case '"' => (match ReadString(t) case None => None case Some((s, rest)) => Some((Str(s), rest)))
      case '{' => ReadObject(t[1..])
      case '[' => ReadArray(t[1..])
      case 't' => ReadLiteral(t, "true", Bool(true))
      case 'f' => ReadLiteral(t, "false", Bool(false))
      case 'n' => ReadLiteral(t, "null", Null)
      case c => if c == '-' || IsDigit(c) then ReadNumber(t) else None
  }

  /** An array after its opening bracket. */
  function ReadArray(text: string): (r: Option<(Json, string)>)
    ensures r.Some? ==> |r.value.1| < |text|
    decreases |text|, 3
  {
    var t := SkipSpace(text);
    if t != "" && t[0] == ']' then Some((Array([]), t[1..]))
    else
      match ReadItems(t)
      case None => None
      case Some((items, rest)) => Some((Array(items), rest))
  }

  function ReadItems(text: string): (r: Option<(seq<Json>, string)>)
    ensures r.Some? ==> |r.value.1| < |text|
    decreases |text|, 2
  {
    match ReadValue(text)
    case None => None
    case Some((v, rest)) =>
      var t := SkipSpace(rest);
      if t == "" then None
      else if t[0] == ',' then
        match ReadItems(SkipSpace(t[1..]))
        case None => None
        case Some((items, after)) => Some(([v] + items, after))
      else if t[0] == ']' then Some(([v], t[1..]))
      else None
  }

  /** An object after its opening brace. */
  function ReadObject(text: string): (r: Option<(Json, string)>)
    ensures r.Some? ==> |r.value.1| < |text|
    decreases |text|, 4
  {
    var t := SkipSpace(text);
    if t != "" && t[0] == '}' then Some((Object([]), t[1..]))
    else
      match ReadFields(t)
      case None => None
      case Some((fields, rest)) => Some((Object(fields), rest))
  }

  /** A name, a colon and a value. */
  function ReadField(text: string): (r: Option<((string, Json), string)>)
    ensures r.Some? ==> |r.value.1| < |text|
    decreases |text|, 2
  {
    match ReadString(SkipSpace(text))
    case None => None
    case Some((key, rest)) =>
      var t := SkipSpace(rest);
      if t == "" || t[0] != ':' then None
      else
        match ReadValue(t[1..])
        case None => None
        case Some((v, after)) => Some(((key, v), after))
  }

  function ReadFields(text: string): (r: Option<(seq<(string, Json)>, string)>)
    ensures r.Some? ==> |r.value.1| < |text|
    decreases |text|, 3
  {
    match ReadField(text)
    case None => None
    case Some((field, rest)) =>
      var t := SkipSpace(rest);
      if t == "" then None
      else if t[0] == ',' then
        match ReadFields(t[1..])
        case None => None
        case Some((fields, after)) => Some(([field] + fields, after))
      else if t[0] == '}' then Some(([field], t[1..]))
      else None
  }

  /** The whole text as one value, with nothing but white space around it. */
  function Parsed(text: string): Option<Json> {
    match ReadValue(text)
    case None => None
    case Some((v, rest)) => if SkipSpace(rest) == "" then Some(v) else None
  }
}
