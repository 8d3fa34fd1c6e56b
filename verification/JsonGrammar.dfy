/**
 The language that crates/obby-client/src/json.rs reads, written down as documents: a value with every choice its text
 leaves open, the gaps between tokens and the spelling of each character and number. A text is read if and only if it is
 the text of a document, and gives that document's value. It is the JSON of RFC 8259, and a little more: a control
 character may stand bare in a string, a `+` for the first hexadecimal digit, and zeros in front of a number.
 */
module JsonGrammar {
  import opened Wrappers
  import opened Integers
  import opened Numbers
  import opened JsonText
  import opened Text

  // ---- the choices ----

  /** White space: section 2 of RFC 8259. */
  predicate Gap(s: string) {
    forall i | 0 <= i < |s| :: s[i] == ' ' || s[i] == '\t' || s[i] == '\n' || s[i] == '\r'
  }

  /** The two-character escapes of section 7 of RFC 8259. */
  predicate Short(e: char, c: char) {
    || (e == '"' && c == '"') || (e == '\\' && c == '\\') || (e == '/' && c == '/')
    || (e == 'b' && c as int == 8) || (e == 'f' && c as int == 12)
    || (e == 'n' && c as int == 10) || (e == 'r' && c as int == 13) || (e == 't' && c as int == 9)
  }

  const HEX: seq<string> := ["0", "1", "2", "3", "4", "5", "6", "7", "8", "9", "aA", "bB", "cC", "dD", "eE", "fF"]

  predicate HexDigit(d: nat, c: char) {
    d < 16 && c in HEX[d]
  }

  predicate FirstHexDigit(d: nat, c: char) {
    HexDigit(d, c) || (d == 0 && c == '+')
  }

  predicate FollowedBy(n: nat, m: nat, d: nat) {
    n == m * 16 + d
  }

  /** A number in hexadecimal digits of either case. */
  ghost predicate Hexadecimal(n: nat, t: string)
    requires t != ""
    decreases |t|
  {
    if |t| == 1 then FirstHexDigit(n, t[0])
    else exists m: nat, d: nat :: FollowedBy(n, m, d) && HexDigit(d, t[|t| - 1]) && Hexadecimal(m, t[..|t| - 1])
  }

  ghost predicate Unit(n: nat, t: string) {
    |t| == 4 && Hexadecimal(n, t)
  }

  /** The surrogate pair of a character beyond the basic plane. */
  function HighHalf(c: char): nat
    requires c as int >= 0x1_0000
  {
    0xD800 + (c as int - 0x1_0000) / 0x400
  }

  function LowHalf(c: char): nat
    requires c as int >= 0x1_0000
  {
    0xDC00 + (c as int - 0x1_0000) % 0x400
  }

  ghost predicate Pair(c: char, s: string) {
    && c as int >= 0x1_0000 && |s| == 12
    && s[0] == '\\' && s[1] == 'u' && Unit(HighHalf(c), s[2..6])
    && s[6] == '\\' && s[7] == 'u' && Unit(LowHalf(c), s[8..])
  }

  /** The ways to write a character inside a string. */
  ghost predicate Spells(c: char, s: string) {
    || (s == [c] && c != '"' && c != '\\')
    || (|s| == 2 && s[0] == '\\' && Short(s[1], c))
    || (|s| == 6 && s[0] == '\\' && s[1] == 'u' && Unit(c as int, s[2..]))
    || Pair(c, s)
  }

  ghost predicate AllSpelt(chars: seq<Spelt>) {
    forall i | 0 <= i < |chars| :: Spells(chars[i].0, chars[i].1)
  }

  /** The integer part of a number: its numeral, after a minus when it is negative or a zero. */
  ghost predicate IntegerSpelt(n: int, digits: string) {
    (n >= 0 && Numeral(digits, n)) || (n <= 0 && digits != "" && digits[0] == '-' && Numeral(digits[1..], -n))
  }

  predicate Fraction(s: string) {
    s == "" || (s[0] == '.' && AllDigits(s[1..]))
  }

  predicate Exponent(s: string) {
    s == "" || ((s[0] == 'e' || s[0] == 'E') &&
                (AllDigits(s[1..]) || ((s[1] == '+' || s[1] == '-') && AllDigits(s[2..]))))
  }

  // ---- documents ----

  /** A fraction and an exponent are read past: only the integer part counts. */
  datatype Doc =
    | NullDoc
    | BoolDoc(b: bool)
    | NumDoc(n: i64, digits: string, fraction: string, exponent: string)
    | StrDoc(chars: seq<Spelt>)
    | NoItems(gap: string)
    | ArrayDoc(items: seq<Item>)
    | NoFields(gap: string)
    | ObjectDoc(fields: seq<Field>)

  datatype Item = Item(before: string, value: Doc, after: string)

  datatype Field = Field(before: string, key: seq<Spelt>, between: string, item: Item)

  ghost predicate WellSpelt(d: Doc)
    decreases d, 0
  {
    match d
    case NumDoc(n, digits, fraction, exponent) => IntegerSpelt(n, digits) && Fraction(fraction) && Exponent(exponent)
    case StrDoc(chars) => AllSpelt(chars)
    case NoItems(gap) => Gap(gap)
    case ArrayDoc(items) => items != [] && WellSpeltItems(items)
    case NoFields(gap) => Gap(gap)
    case ObjectDoc(fields) => fields != [] && WellSpeltFields(fields)
    case _ => true
  }

  ghost predicate WellSpeltItem(it: Item)
    decreases it, 1
  {
    Gap(it.before) && WellSpelt(it.value) && Gap(it.after)
  }

  ghost predicate WellSpeltItems(items: seq<Item>)
    decreases items, 0
  {
    items == [] || (WellSpeltItem(items[0]) && WellSpeltItems(items[1..]))
  }

  ghost predicate WellSpeltField(f: Field)
    decreases f, 2
  {
    Gap(f.before) && AllSpelt(f.key) && Gap(f.between) && WellSpeltItem(f.item)
  }

  ghost predicate WellSpeltFields(fields: seq<Field>)
    decreases fields, 0
  {
    fields == [] || (WellSpeltField(fields[0]) && WellSpeltFields(fields[1..]))
  }

  /** The value a document stands for. */
  function Value(d: Doc): Json
    decreases d, 0
  {
    match d
    case NullDoc => Null
    case BoolDoc(b) => Bool(b)
    case NumDoc(n, _, _, _) => Num(n)
    case StrDoc(chars) => Str(Plain(chars))
    case NoItems(_) => Array([])
    case ArrayDoc(items) => Array(ItemValues(items))
    case NoFields(_) => Object([])
    case ObjectDoc(fields) => Object(FieldValues(fields))
  }

  function ItemValues(items: seq<Item>): seq<Json>
    decreases items, 0
  {
    if items == [] then [] else [Value(items[0].value)] + ItemValues(items[1..])
  }

  function FieldValue(f: Field): (string, Json)
    decreases f, 1
  {
    (Plain(f.key), Value(f.item.value))
  }

  function FieldValues(fields: seq<Field>): seq<(string, Json)>
    decreases fields, 0
  {
    if fields == [] then [] else [FieldValue(fields[0])] + FieldValues(fields[1..])
  }

  function Quoted(chars: seq<Spelt>): string {
    "\"" + (Spelling(chars) + "\"")
  }

  /** Its text. */
  function TextOfDoc(d: Doc): string
    decreases d, 0
  {
    match d
    case NullDoc => "null"
    case BoolDoc(b) => if b then "true" else "false"
    case NumDoc(_, digits, fraction, exponent) => digits + (fraction + exponent)
    case StrDoc(chars) => Quoted(chars)
    case NoItems(gap) => "[" + (gap + "]")
    case ArrayDoc(items) => "[" + ItemsText(items)
    case NoFields(gap) => "{" + (gap + "}")
    case ObjectDoc(fields) => "{" + FieldsText(fields)
  }

  function ItemText(it: Item): string
    decreases it, 1
  {
    it.before + (TextOfDoc(it.value) + it.after)
  }

  function ItemsText(items: seq<Item>): string
    decreases items, 0
  {
    if items == [] then "" else ItemText(items[0]) + (if |items| == 1 then "]" else "," + ItemsText(items[1..]))
  }

  function FieldText(f: Field): string
    decreases f, 2
  {
    f.before + (Quoted(f.key) + (f.between + (":" + ItemText(f.item))))
  }

  function FieldsText(fields: seq<Field>): string
    decreases fields, 0
  {
    if fields == [] then "" else FieldText(fields[0]) + (if |fields| == 1 then "}" else "," + FieldsText(fields[1..]))
  }

  // ---- gaps ----

  /** White space in front changes nothing. */
  lemma {:induction false} GapIsSkipped(gap: string, t: string)
    requires Gap(gap)
    ensures SkipSpace(gap + t) == SkipSpace(t)
  {
    if gap == "" {
      assert gap + t == t;
    } else {
      GapIsSkipped(gap[1..], t);
      assert (gap + t)[1..] == gap[1..] + t;
    }
  }

  lemma NothingSkipped(t: string)
    requires t != "" && !IsSpace(t[0])
    ensures SkipSpace(t) == t
  {
  }

  lemma {:induction false} SkippedIsGap(t: string) returns (gap: string)
    ensures Gap(gap) && t == gap + SkipSpace(t)
    ensures SkipSpace(t) != "" ==> !IsSpace(SkipSpace(t)[0])
  {
    if t != "" && IsSpace(t[0]) {
      gap := SkippedIsGap(t[1..]);
      gap := [t[0]] + gap;
    } else {
      gap := "";
    }
  }

  lemma SameAfterSpace(a: string, b: string)
    requires SkipSpace(a) == SkipSpace(b)
    ensures ReadValue(a) == ReadValue(b)
  {
  }

  lemma ItemsAfterSpace(t: string)
    ensures ReadItems(SkipSpace(t)) == ReadItems(t)
  {
    var gap := SkippedIsGap(t);
    GapIsSkipped(gap, SkipSpace(t));
    SameAfterSpace(SkipSpace(t), t);
  }

  // ---- characters ----

  lemma DigitIsRead(d: nat, c: char)
    requires HexDigit(d, c)
    ensures IsHex(c) && c != '+' && HexValue(c) == d
  {
  }

  lemma ReadIsDigit(c: char)
    requires IsHex(c)
    ensures HexDigit(HexValue(c), c)
  {
  }

  lemma DigitsAreRead(a: nat, b: nat, c: nat, d: nat, text: string)
    requires |text| >= 4
    requires FirstHexDigit(a, text[0]) && HexDigit(b, text[1]) && HexDigit(c, text[2]) && HexDigit(d, text[3])
    ensures ReadHex4(text) == Some((((a * 16 + b) * 16 + c) * 16 + d, text[4..]))
  {
    if HexDigit(a, text[0]) {
      DigitIsRead(a, text[0]);
    }
    DigitIsRead(b, text[1]);
    DigitIsRead(c, text[2]);
    DigitIsRead(d, text[3]);
  }

  lemma OneMoreHexDigit(n: nat, d: nat, t: string, c: char, u: string)
    requires t != "" && Hexadecimal(n, t) && HexDigit(d, c) && u == t + [c]
    ensures Hexadecimal(n * 16 + d, u)
  {
    assert u[..|u| - 1] == t && u[|u| - 1] == c && FollowedBy(n * 16 + d, n, d);
  }

  lemma DigitsSpell(a: nat, b: nat, c: nat, d: nat, t: string)
    requires |t| == 4 && FirstHexDigit(a, t[0]) && HexDigit(b, t[1]) && HexDigit(c, t[2]) && HexDigit(d, t[3])
    ensures Unit(((a * 16 + b) * 16 + c) * 16 + d, t)
  {
    assert Hexadecimal(a, t[..1]);
    OneMoreHexDigit(a, b, t[..1], t[1], t[..2]);
    OneMoreHexDigit(a * 16 + b, c, t[..2], t[2], t[..3]);
    OneMoreHexDigit((a * 16 + b) * 16 + c, d, t[..3], t[3], t);
  }

  lemma LastHexDigit(n: nat, t: string) returns (m: nat, d: nat)
    requires |t| > 1 && Hexadecimal(n, t)
    ensures HexDigit(d, t[|t| - 1]) && Hexadecimal(m, t[..|t| - 1]) && n == m * 16 + d
  {
    m, d :| FollowedBy(n, m, d) && HexDigit(d, t[|t| - 1]) && Hexadecimal(m, t[..|t| - 1]);
  }

  lemma UnitDigits(n: nat, t: string) returns (a: nat, b: nat, c: nat, d: nat)
    requires Unit(n, t)
    ensures FirstHexDigit(a, t[0]) && HexDigit(b, t[1]) && HexDigit(c, t[2]) && HexDigit(d, t[3])
    ensures n == ((a * 16 + b) * 16 + c) * 16 + d
  {
    var x, y;
    x, d := LastHexDigit(n, t);
    y, c := LastHexDigit(x, t[..3]);
    a, b := LastHexDigit(y, t[..3][..2]);
    assert t[..3][..2][..1] == [t[0]];
  }

  lemma UnitIsRead(n: nat, t: string, rest: string)
    requires Unit(n, t)
    ensures n < 0x1_0000 && ReadHex4(t + rest) == Some((n, rest))
  {
    var a, b, c, d := UnitDigits(n, t);
    DigitsInFront(a, b, c, d, t, rest);
  }

  lemma DigitsInFront(a: nat, b: nat, c: nat, d: nat, t: string, rest: string)
    requires |t| == 4 && FirstHexDigit(a, t[0]) && HexDigit(b, t[1]) && HexDigit(c, t[2]) && HexDigit(d, t[3])
    ensures ReadHex4(t + rest) == Some((((a * 16 + b) * 16 + c) * 16 + d, rest))
  {
    var text := t + rest;
    assert text[0] == t[0] && text[1] == t[1] && text[2] == t[2] && text[3] == t[3] && text[4..] == rest;
    DigitsAreRead(a, b, c, d, text);
  }

  lemma ReadIsUnit(text: string) returns (h: string)
    requires ReadHex4(text).Some?
    ensures Unit(ReadHex4(text).value.0, h) && text == h + ReadHex4(text).value.1
  {
    h := text[..4];
    if text[0] != '+' {
      ReadIsDigit(text[0]);
    }
    ReadIsDigit(text[1]);
    ReadIsDigit(text[2]);
    ReadIsDigit(text[3]);
    var a := if text[0] == '+' then 0 else HexValue(text[0]);
    DigitsSpell(a, HexValue(text[1]), HexValue(text[2]), HexValue(text[3]), h);
  }

  /** Every character of the basic plane is read from its own four digits. */
  lemma UnitReadsBack(c: char, h: string, rest: string)
    requires Unit(c as int, h)
    ensures ReadUnicode(h + rest) == Some((c, rest))
  {
    UnitIsRead(c as int, h, rest);
  }

  /** The halves of a character are surrogates that stand for it, and no others do. */
  lemma HalvesOf(c: char)
    requires c as int >= 0x1_0000
    ensures 0xD800 <= HighHalf(c) <= 0xDBFF && 0xDC00 <= LowHalf(c) <= 0xDFFF
    ensures CharOf(0x1_0000 + (HighHalf(c) - 0xD800) * 0x400 + (LowHalf(c) - 0xDC00)) == Some(c)
  {
  }

  lemma CharOfHalves(high: nat, low: nat, c: char)
    requires 0xD800 <= high <= 0xDBFF && 0xDC00 <= low <= 0xDFFF
    requires CharOf(0x1_0000 + (high - 0xD800) * 0x400 + (low - 0xDC00)) == Some(c)
    ensures c as int >= 0x1_0000 && HighHalf(c) == high && LowHalf(c) == low
  {
  }

  lemma LowHalfIsRead(c: char, low: string, rest: string)
    requires c as int >= 0x1_0000 && Unit(LowHalf(c), low) && 0xD800 <= HighHalf(c) <= 0xDBFF
    ensures ReadLowHalf(HighHalf(c), "\\u" + (low + rest)) == Some((c, rest))
  {
    UnitIsRead(LowHalf(c), low, rest);
    HalvesOf(c);
    assert ("\\u" + (low + rest))[2..] == low + rest;
  }

  /** Every character beyond it is read from its surrogate pair. */
  lemma PairReadsBack(c: char, high: string, low: string, rest: string)
    requires c as int >= 0x1_0000 && Unit(HighHalf(c), high) && Unit(LowHalf(c), low)
    ensures 0xD800 <= HighHalf(c) <= 0xDBFF && 0xDC00 <= LowHalf(c) <= 0xDFFF
    ensures ReadUnicode(high + ("\\u" + (low + rest))) == Some((c, rest))
  {
    HalvesOf(c);
    UnitIsRead(HighHalf(c), high, "\\u" + (low + rest));
    LowHalfIsRead(c, low, rest);
  }

  /** A text that goes on with the low half of a pair. */
  ghost predicate GoesOnWithLowHalf(text: string) {
    |text| >= 6 && text[0] == '\\' && text[1] == 'u' && exists low :: 0xDC00 <= low <= 0xDFFF && Unit(low, text[2..6])
  }

  /** A surrogate is refused if and only if it is not the high half of a pair. */
  lemma SurrogateIsRefusedIff(unit: nat, h: string, rest: string)
    requires 0xD800 <= unit <= 0xDFFF && Unit(unit, h)
    ensures ReadUnicode(h + rest) == None <==> !(unit <= 0xDBFF && GoesOnWithLowHalf(rest))
  {
    UnitIsRead(unit, h, rest);
    if |rest| >= 6 {
      assert rest[2..] == rest[2..6] + rest[6..];
      forall low | 0xDC00 <= low <= 0xDFFF && Unit(low, rest[2..6]) ensures ReadHex4(rest[2..]) == Some((low, rest[6..])) {
        UnitIsRead(low, rest[2..6], rest[6..]);
      }
    }
    if |rest| >= 2 && ReadHex4(rest[2..]).Some? {
      var low := ReadIsUnit(rest[2..]);
      assert rest[2..6] == low;
    }
  }

  lemma UnicodeEscapeIsRead(c: char, s: string, tail: string)
    requires Spells(c, s) && |s| > 2
    ensures s[0] == '\\' && s[1] == 'u' && ReadUnicode(s[2..] + tail) == Some((c, tail))
  {
    if |s| == 6 {
      UnitReadsBack(c, s[2..], tail);
    } else {
      assert s[2..] + tail == s[2..6] + ("\\u" + (s[8..] + tail));
      PairReadsBack(c, s[2..6], s[8..], tail);
    }
  }

  lemma ShortIsRead(e: char, c: char, text: string)
    requires Short(e, c) && text != "" && text[0] == e
    ensures ReadEscape(text) == Some((c, text[1..]))
  {
  }

  lemma EscapeIsRead(c: char, s: string, tail: string)
    requires Spells(c, s) && |s| > 1
    ensures s[0] == '\\' && ReadEscape(s[1..] + tail) == Some((c, tail))
  {
    var t := s[1..] + tail;
    if |s| == 2 {
      TwoIsShort(c, s);
      ShortIsRead(s[1], c, t);
      assert t[1..] == tail;
    } else {
      UnicodeEscapeIsRead(c, s, tail);
      assert t[1..] == s[2..] + tail;
      UnicodeFollows(t);
    }
  }

  lemma TwoIsShort(c: char, s: string)
    requires Spells(c, s) && |s| == 2
    ensures s[0] == '\\' && Short(s[1], c)
  {
  }

  lemma UnicodeFollows(text: string)
    requires text != "" && text[0] == 'u'
    ensures ReadEscape(text) == ReadUnicode(text[1..])
  {
  }

  /** A character, however it is spelt, is read as that character. */
  lemma SpeltCharIsRead(c: char, s: string, tail: string)
    requires Spells(c, s) && ReadChars(tail).Some?
    ensures ReadChars(s + tail) == Some(([c] + ReadChars(tail).value.0, ReadChars(tail).value.1))
  {
    if |s| == 1 {
      assert (s + tail)[1..] == tail;
    } else {
      EscapeIsRead(c, s, tail);
      assert (s + tail)[1..] == s[1..] + tail;
    }
  }

  lemma {:induction false} SpeltCharsAreRead(chars: seq<Spelt>, rest: string)
    requires AllSpelt(chars)
    ensures ReadChars(Spelling(chars) + ("\"" + rest)) == Some((Plain(chars), rest))
  {
    if chars == [] {
      assert "" + ("\"" + rest) == "\"" + rest && ("\"" + rest)[1..] == rest;
    } else {
      var tail := Spelling(chars[1..]) + ("\"" + rest);
      SpeltCharsAreRead(chars[1..], rest);
      SpeltCharIsRead(chars[0].0, chars[0].1, tail);
      Regroup3(chars[0].1, Spelling(chars[1..]), "\"" + rest);
    }
  }

  lemma QuoteOpens(text: string, chars: string)
    requires text == "\"" + chars
    ensures ReadString(text) == ReadChars(chars)
  {
    assert text[1..] == chars;
  }

  lemma QuotedIsRead(chars: seq<Spelt>, rest: string)
    requires AllSpelt(chars)
    ensures ReadString(Quoted(chars) + rest) == Some((Plain(chars), rest))
  {
    SpeltCharsAreRead(chars, rest);
    QuoteOpens(Quoted(chars) + rest, Spelling(chars) + ("\"" + rest));
  }

  lemma ReadIsLowHalf(high: nat, text: string) returns (low: string)
    requires 0xD800 <= high <= 0xDBFF && ReadLowHalf(high, text).Some?
    ensures var (c, rest) := ReadLowHalf(high, text).value;
            && c as int >= 0x1_0000 && HighHalf(c) == high && Unit(LowHalf(c), low)
            && text == "\\u" + (low + rest)
  {
    low := ReadIsUnit(text[2..]);
    CharOfHalves(high, ReadHex4(text[2..]).value.0, ReadLowHalf(high, text).value.0);
    assert text == "\\u" + text[2..];
  }

  lemma ReadIsShort(text: string)
    requires ReadEscape(text).Some? && text[0] != 'u'
    ensures Short(text[0], ReadEscape(text).value.0) && ReadEscape(text).value.1 == text[1..]
  {
  }

  lemma ShortSpells(e: char, c: char)
    requires Short(e, c)
    ensures Spells(c, "\\" + [e])
  {
    assert ("\\" + [e])[1] == e;
  }

  /** How an escape that is read is spelt, its backslash included. */
  lemma ReadIsEscape(text: string) returns (s: string)
    requires ReadEscape(text).Some?
    ensures Spells(ReadEscape(text).value.0, s) && "\\" + text == s + ReadEscape(text).value.1
  {
    if text[0] == 'u' {
      UnicodeFollows(text);
      s := ReadIsUnicode(text[1..]);
      assert "\\" + text == "\\u" + text[1..];
    } else {
      s := "\\" + [text[0]];
      ReadIsShort(text);
      ShortSpells(text[0], ReadEscape(text).value.0);
      assert "\\" + text == s + text[1..];
    }
  }

  lemma UnitSpells(c: char, h: string, s: string)
    requires Unit(c as int, h) && s == "\\u" + h
    ensures Spells(c, s)
  {
    assert s[2..] == h;
  }

  lemma PairSpells(c: char, high: string, low: string, s: string)
    requires c as int >= 0x1_0000 && Unit(HighHalf(c), high) && Unit(LowHalf(c), low) && s == "\\u" + high + "\\u" + low
    ensures Spells(c, s)
  {
    assert s[2..6] == high && s[8..] == low;
    assert Pair(c, s);
  }

  lemma ReadIsUnicode(text: string) returns (s: string)
    requires ReadUnicode(text).Some?
    ensures Spells(ReadUnicode(text).value.0, s) && "\\u" + text == s + ReadUnicode(text).value.1
  {
    var (unit, after) := ReadHex4(text).value;
    var (c, rest) := ReadUnicode(text).value;
    var h := ReadIsUnit(text);
    if 0xD800 <= unit <= 0xDBFF {
      var low := ReadIsLowHalf(unit, after);
      s := "\\u" + h + "\\u" + low;
      PairSpells(c, h, low, s);
      PairInFront(h, low, rest);
    } else {
      s := "\\u" + h;
      UnitSpells(c, h, s);
      Regroup3("\\u", h, rest);
    }
  }

  lemma PairInFront(high: string, low: string, rest: string)
    ensures "\\u" + (high + ("\\u" + (low + rest))) == ("\\u" + high + "\\u" + low) + rest
  {
  }

  /** Every text that is read as the rest of a string spells its characters out, one after the other. */
  lemma {:induction false} ReadIsSpelling(text: string) returns (chars: seq<Spelt>)
    requires ReadChars(text).Some?
    ensures var (out, rest) := ReadChars(text).value;
            AllSpelt(chars) && Plain(chars) == out && text == Spelling(chars) + ("\"" + rest)
    decreases |text|
  {
    if text[0] == '"' {
      chars := [];
      assert text == "" + ("\"" + ReadChars(text).value.1);
    } else if text[0] == '\\' {
      var s := ReadIsEscape(text[1..]);
      var more := ReadIsSpelling(ReadEscape(text[1..]).value.1);
      assert text == "\\" + text[1..];
      chars := OneMoreSpelt(ReadEscape(text[1..]).value.0, s, more, text, ReadChars(text).value.1);
    } else {
      var more := ReadIsSpelling(text[1..]);
      assert text == [text[0]] + text[1..];
      chars := OneMoreSpelt(text[0], [text[0]], more, text, ReadChars(text).value.1);
    }
  }

  lemma OneMoreSpelt(c: char, s: string, more: seq<Spelt>, text: string, rest: string) returns (chars: seq<Spelt>)
    requires Spells(c, s) && AllSpelt(more) && text == s + (Spelling(more) + ("\"" + rest))
    ensures AllSpelt(chars) && Plain(chars) == [c] + Plain(more) && text == Spelling(chars) + ("\"" + rest)
  {
    chars := [(c, s)] + more;
    assert chars[1..] == more;
    Regroup3(s, Spelling(more), "\"" + rest);
  }

  // ---- numbers ----

  /** What may follow a value: nothing, a space, a comma or a closing bracket. */
  predicate Ends(rest: string) {
    rest == "" || IsSpace(rest[0]) || rest[0] == ',' || rest[0] == ']' || rest[0] == '}'
  }

  predicate NoDigit(rest: string) {
    rest == "" || !IsDigit(rest[0])
  }

  lemma {:induction false} DigitsAreSkipped(digits: string, rest: string)
    requires AllDigits(digits) && NoDigit(rest)
    ensures SkipDigits(digits + rest) == rest
  {
    if digits == "" {
      assert digits + rest == rest;
    } else {
      DigitsAreSkipped(digits[1..], rest);
      assert (digits + rest)[1..] == digits[1..] + rest;
    }
  }

  lemma {:induction false} SkippedAreDigits(text: string) returns (digits: string)
    ensures AllDigits(digits) && text == digits + SkipDigits(text) && NoDigit(SkipDigits(text))
  {
    if text != "" && IsDigit(text[0]) {
      digits := SkippedAreDigits(text[1..]);
      digits := [text[0]] + digits;
    } else {
      digits := "";
    }
  }

  lemma FractionIsSkipped(fraction: string, rest: string)
    requires Fraction(fraction) && (rest == "" || (!IsDigit(rest[0]) && rest[0] != '.'))
    ensures SkipFraction(fraction + rest) == rest
  {
    if fraction == "" {
      assert fraction + rest == rest;
    } else {
      DigitsAreSkipped(fraction[1..], rest);
      assert (fraction + rest)[1..] == fraction[1..] + rest;
    }
  }

  lemma ExponentIsSkipped(exponent: string, rest: string)
    requires Exponent(exponent) && Ends(rest)
    ensures SkipExponent(exponent + rest) == rest
  {
    if exponent == "" {
      assert exponent + rest == rest;
    } else {
      assert (exponent + rest)[1..] == exponent[1..] + rest;
      if AllDigits(exponent[1..]) {
        if exponent[1..] != "" {
          assert exponent[1] in exponent[1..];
        }
        DigitsAreSkipped(exponent[1..], rest);
      } else {
        DigitsAreSkipped(exponent[2..], rest);
        assert (exponent + rest)[2..] == exponent[2..] + rest;
      }
    }
  }

  lemma SkippedIsFraction(text: string) returns (fraction: string)
    ensures Fraction(fraction) && text == fraction + SkipFraction(text)
  {
    if text != "" && text[0] == '.' {
      fraction := SkippedAreDigits(text[1..]);
      fraction := "." + fraction;
      assert fraction[1..] + SkipFraction(text) == text[1..];
    } else {
      fraction := "";
    }
  }

  lemma SkippedIsExponent(text: string) returns (exponent: string)
    ensures Exponent(exponent) && text == exponent + SkipExponent(text)
  {
    if text != "" && (text[0] == 'e' || text[0] == 'E') {
      if |text| > 1 && (text[1] == '+' || text[1] == '-') {
        var digits := SkippedAreDigits(text[2..]);
        exponent := text[..2] + digits;
        assert exponent[2..] == digits && text[1..][1..] == text[2..];
      } else {
        var digits := SkippedAreDigits(text[1..]);
        exponent := text[..1] + digits;
        assert exponent[1..] == digits;
      }
    } else {
      exponent := "";
    }
  }

  lemma NumberTail(fraction: string, exponent: string, rest: string)
    requires Fraction(fraction) && Exponent(exponent) && Ends(rest)
    ensures NoDigit(fraction + (exponent + rest))
    ensures SkipExponent(SkipFraction(fraction + (exponent + rest))) == rest
  {
    ExponentIsSkipped(exponent, rest);
    FractionIsSkipped(fraction, exponent + rest);
  }

  lemma NegativeIsRead(n: int, digits: string, tail: string)
    requires I64_MIN <= n <= 0 && digits != "" && digits[0] == '-' && Numeral(digits[1..], -n) && NoDigit(tail)
    ensures ParseI64(digits) == Some(n)
    ensures digits + tail != "" && (digits + tail)[0] == '-' && SkipDigits((digits + tail)[1..]) == tail
  {
    SignedIsReadIff(digits, n);
    NumeralIff(digits[1..], -n);
    DigitsAreSkipped(digits[1..], tail);
    assert (digits + tail)[1..] == digits[1..] + tail;
  }

  lemma NaturalIsRead(n: nat, digits: string, tail: string)
    requires n <= I64_MAX && Numeral(digits, n) && NoDigit(tail)
    ensures ParseI64(digits) == Some(n)
    ensures digits != "" && IsDigit(digits[0]) && SkipDigits(digits + tail) == tail
  {
    SignedIsReadIff(digits, n);
    NumeralIff(digits, n);
    assert digits[0] in digits;
    DigitsAreSkipped(digits, tail);
  }

  lemma IntegerIsRead(n: int, digits: string, tail: string)
    requires I64_MIN <= n <= I64_MAX && IntegerSpelt(n, digits) && NoDigit(tail)
    ensures digits != "" && (digits[0] == '-' || IsDigit(digits[0])) && ParseI64(digits) == Some(n)
    ensures var text := digits + tail; SkipDigits(if text[0] == '-' then text[1..] else text) == tail
  {
    if n >= 0 && Numeral(digits, n) {
      NaturalIsRead(n, digits, tail);
    } else {
      NegativeIsRead(n, digits, tail);
    }
  }

  lemma NumberIsRead(n: i64, digits: string, fraction: string, exponent: string, rest: string)
    requires IntegerSpelt(n, digits) && Fraction(fraction) && Exponent(exponent) && Ends(rest)
    ensures digits != "" && (digits[0] == '-' || IsDigit(digits[0]))
    ensures ReadNumber(digits + (fraction + (exponent + rest))) == Some((Num(n), rest))
  {
    var tail := fraction + (exponent + rest);
    NumberTail(fraction, exponent, rest);
    IntegerIsRead(n, digits, tail);
    assert (digits + tail)[..|digits + tail| - |tail|] == digits;
  }

  lemma ReadIsInteger(text: string, digits: string, n: int)
    requires ParseI64(digits) == Some(n) && digits != "" && digits[0] != '+'
    ensures I64_MIN <= n <= I64_MAX && IntegerSpelt(n, digits)
  {
    SignedIsReadIff(digits, n);
  }

  lemma ReadIsNumber(text: string) returns (digits: string, fraction: string, exponent: string)
    requires text != "" && (text[0] == '-' || IsDigit(text[0])) && ReadNumber(text).Some?
    ensures var (v, rest) := ReadNumber(text).value;
            && v.Num? && IntegerSpelt(v.n, digits) && Fraction(fraction) && Exponent(exponent)
            && text == digits + (fraction + (exponent + rest))
  {
    var unsigned := if text[0] == '-' then text[1..] else text;
    var after := SkipDigits(unsigned);
    var skipped := SkippedAreDigits(unsigned);
    digits := text[..|text| - |after|];
    assert text == digits + after;
    fraction := SkippedIsFraction(after);
    exponent := SkippedIsExponent(SkipFraction(after));
    ReadIsInteger(text, digits, ReadNumber(text).value.0.n);
  }

  // ---- every document is read ----

  lemma NumberBegins(n: int, digits: string, tail: string)
    requires IntegerSpelt(n, digits)
    ensures digits != "" && (digits[0] == '-' || IsDigit(digits[0])) && (digits + tail)[0] == digits[0]
  {
    if n >= 0 && Numeral(digits, n) {
      NumeralIff(digits, n);
      assert digits[0] in digits;
    }
  }

  lemma DocBegins(d: Doc)
    requires WellSpelt(d)
    ensures TextOfDoc(d) != "" && !IsSpace(TextOfDoc(d)[0]) && TextOfDoc(d)[0] != ']' && TextOfDoc(d)[0] != '}'
  {
    if d.NumDoc? {
      NumberBegins(d.n, d.digits, d.fraction + d.exponent);
    }
  }

  lemma {:induction false} DocIsRead(d: Doc, rest: string)
    requires WellSpelt(d) && Ends(rest)
    ensures ReadValue(TextOfDoc(d) + rest) == Some((Value(d), rest))
    decreases d, 0
  {
    match d
    case NullDoc => LiteralIsRead("null", Null, rest);
    case BoolDoc(b) => LiteralIsRead(TextOfDoc(d), Bool(b), rest);
    case NumDoc(n, digits, fraction, exponent) => NumDocIsRead(n, digits, fraction, exponent, rest);
    case StrDoc(chars) =>
      QuotedIsRead(chars, rest);
      StringOpens(Quoted(chars) + rest);
    case NoItems(gap) => EmptyArrayIsRead(TextOfDoc(d) + rest, gap, rest);
    case ArrayDoc(items) =>
      ItemsAreRead(items, rest);
      Regroup3("[", ItemsText(items), rest);
      ArrayOpens(TextOfDoc(d) + rest, ItemsText(items) + rest, ItemValues(items), rest);
    case NoFields(gap) => EmptyObjectIsRead(TextOfDoc(d) + rest, gap, rest);
    case ObjectDoc(fields) =>
      FieldsAreRead(fields, rest);
      Regroup3("{", FieldsText(fields), rest);
      ObjectOpens(TextOfDoc(d) + rest, FieldsText(fields) + rest, FieldValues(fields), rest);
  }

  lemma NumDocIsRead(n: i64, digits: string, fraction: string, exponent: string, rest: string)
    requires IntegerSpelt(n, digits) && Fraction(fraction) && Exponent(exponent) && Ends(rest)
    ensures ReadValue(digits + (fraction + exponent) + rest) == Some((Num(n), rest))
  {
    NumberIsRead(n, digits, fraction, exponent, rest);
    Regroup3(digits, fraction + exponent, rest);
    Regroup3(fraction, exponent, rest);
    NumberOpens(digits + (fraction + exponent) + rest);
  }

  lemma LiteralIsRead(literal: string, v: Json, rest: string)
    requires (literal == "null" && v == Null) || (literal == "true" && v == Bool(true)) || (literal == "false" && v == Bool(false))
    ensures ReadValue(literal + rest) == Some((v, rest))
  {
    var text := literal + rest;
    NothingSkipped(text);
    assert literal <= text && text[|literal|..] == rest;
  }

  lemma NumberOpens(text: string)
    requires text != "" && (text[0] == '-' || IsDigit(text[0]))
    ensures ReadValue(text) == ReadNumber(text)
  {
    NothingSkipped(text);
    var c := text[0];
    assert c != '"' && c != '{' && c != '[' && c != 't' && c != 'f' && c != 'n';
  }

  lemma StringOpens(text: string)
    requires text != "" && text[0] == '"' && ReadString(text).Some?
    ensures ReadValue(text) == Some((Str(ReadString(text).value.0), ReadString(text).value.1))
  {
    NothingSkipped(text);
  }

  lemma EmptyArrayIsRead(text: string, gap: string, rest: string)
    requires Gap(gap) && text == "[" + (gap + "]") + rest
    ensures ReadValue(text) == Some((Array([]), rest))
  {
    NothingSkipped(text);
    GapIsSkipped(gap, "]" + rest);
    NothingSkipped("]" + rest);
    assert text[1..] == gap + ("]" + rest) && ("]" + rest)[1..] == rest;
  }

  lemma EmptyObjectIsRead(text: string, gap: string, rest: string)
    requires Gap(gap) && text == "{" + (gap + "}") + rest
    ensures ReadValue(text) == Some((Object([]), rest))
  {
    NothingSkipped(text);
    GapIsSkipped(gap, "}" + rest);
    NothingSkipped("}" + rest);
    assert text[1..] == gap + ("}" + rest) && ("}" + rest)[1..] == rest;
  }

  lemma ArrayOpens(text: string, t: string, items: seq<Json>, rest: string)
    requires text == "[" + t && ReadItems(t) == Some((items, rest)) && SkipSpace(t) != "" && SkipSpace(t)[0] != ']'
    ensures ReadValue(text) == Some((Array(items), rest))
  {
    NothingSkipped(text);
    ItemsAfterSpace(t);
    assert text[1..] == t;
  }

  lemma ObjectOpens(text: string, t: string, fields: seq<(string, Json)>, rest: string)
    requires text == "{" + t && ReadFields(t) == Some((fields, rest)) && SkipSpace(t) != "" && SkipSpace(t)[0] != '}'
    ensures ReadValue(text) == Some((Object(fields), rest))
  {
    NothingSkipped(text);
    FieldsAfterSpace(t);
    assert text[1..] == t;
  }

  /** A value with the gaps around it. */
  lemma ItemIsRead(it: Item, rest: string)
    requires WellSpeltItem(it) && rest != "" && Ends(rest) && !IsSpace(rest[0])
    ensures ReadValue(ItemText(it) + rest) == Some((Value(it.value), it.after + rest))
    ensures SkipSpace(it.after + rest) == rest
    ensures SkipSpace(ItemText(it) + rest) != "" && SkipSpace(ItemText(it) + rest)[0] != ']'
    decreases it, 1
  {
    var t := TextOfDoc(it.value) + (it.after + rest);
    DocBegins(it.value);
    DocIsRead(it.value, it.after + rest);
    Regroup3(it.before, TextOfDoc(it.value) + it.after, rest);
    Regroup3(TextOfDoc(it.value), it.after, rest);
    GapIsSkipped(it.before, t);
    SameAfterSpace(it.before + t, t);
    NothingSkipped(t);
    GapIsSkipped(it.after, rest);
    NothingSkipped(rest);
  }

  lemma {:induction false} ItemsAreRead(items: seq<Item>, rest: string)
    requires items != [] && WellSpeltItems(items)
    ensures ReadItems(ItemsText(items) + rest) == Some((ItemValues(items), rest))
    ensures SkipSpace(ItemsText(items) + rest) != "" && SkipSpace(ItemsText(items) + rest)[0] != ']'
    decreases items, 0
  {
    var it, text := items[0], ItemsText(items) + rest;
    if |items| == 1 {
      ItemIsRead(it, "]" + rest);
      Regroup3(ItemText(it), "]", rest);
      LastItem(text, Value(it.value), it.after + ("]" + rest), rest);
      assert ItemValues(items) == [Value(it.value)];
    } else {
      var more := ItemsText(items[1..]);
      ItemIsRead(it, "," + (more + rest));
      Regroup3(ItemText(it), "," + more, rest);
      Regroup3(",", more, rest);
      ItemsAreRead(items[1..], rest);
      OneMoreItem(text, Value(it.value), it.after + ("," + (more + rest)), more + rest);
    }
  }

  lemma LastItem(text: string, v: Json, tail: string, rest: string)
    requires ReadValue(text) == Some((v, tail)) && SkipSpace(tail) == "]" + rest
    ensures ReadItems(text) == Some(([v], rest))
  {
    assert ("]" + rest)[1..] == rest;
  }

  lemma OneMoreItem(text: string, v: Json, tail: string, more: string)
    requires ReadValue(text) == Some((v, tail)) && SkipSpace(tail) == "," + more && ReadItems(more).Some?
    ensures ReadItems(text) == Some(([v] + ReadItems(more).value.0, ReadItems(more).value.1))
  {
    assert ("," + more)[1..] == more;
    ItemsAfterSpace(more);
  }

  lemma FieldsAfterSpace(t: string)
    ensures ReadFields(SkipSpace(t)) == ReadFields(t)
  {
    var gap := SkippedIsGap(t);
    GapIsSkipped(gap, SkipSpace(t));
    assert ReadField(SkipSpace(t)) == ReadField(t);
  }

  lemma FieldIsRead(f: Field, rest: string)
    requires WellSpeltField(f) && rest != "" && Ends(rest) && !IsSpace(rest[0])
    ensures ReadField(FieldText(f) + rest) == Some((FieldValue(f), f.item.after + rest))
    ensures SkipSpace(f.item.after + rest) == rest
    ensures SkipSpace(FieldText(f) + rest) != "" && SkipSpace(FieldText(f) + rest)[0] == '"'
    decreases f, 2
  {
    var value := ItemText(f.item) + rest;
    var colon := ":" + value;
    var key := Quoted(f.key) + (f.between + colon);
    ItemIsRead(f.item, rest);
    FieldInFront(f, rest);
    GapIsSkipped(f.before, key);
    NothingSkipped(key);
    QuotedIsRead(f.key, f.between + colon);
    GapIsSkipped(f.between, colon);
    NothingSkipped(colon);
    KeyThenValue(FieldText(f) + rest, key, Plain(f.key), f.between + colon, value);
  }

  lemma KeyThenValue(text: string, key: string, name: string, tail: string, value: string)
    requires SkipSpace(text) == key && ReadString(key) == Some((name, tail)) && SkipSpace(tail) == ":" + value
    requires ReadValue(value).Some?
    ensures ReadField(text) == Some(((name, ReadValue(value).value.0), ReadValue(value).value.1))
  {
    assert (":" + value)[1..] == value;
  }

  lemma {:induction false} FieldsAreRead(fields: seq<Field>, rest: string)
    requires fields != [] && WellSpeltFields(fields)
    ensures ReadFields(FieldsText(fields) + rest) == Some((FieldValues(fields), rest))
    ensures SkipSpace(FieldsText(fields) + rest) != "" && SkipSpace(FieldsText(fields) + rest)[0] != '}'
    decreases fields, 0
  {
    var f, text := fields[0], FieldsText(fields) + rest;
    if |fields| == 1 {
      FieldIsRead(f, "}" + rest);
      Regroup3(FieldText(f), "}", rest);
      LastField(text, FieldValue(f), f.item.after + ("}" + rest), rest);
      assert FieldValues(fields) == [FieldValue(f)];
    } else {
      var more := FieldsText(fields[1..]);
      FieldIsRead(f, "," + (more + rest));
      Regroup3(FieldText(f), "," + more, rest);
      Regroup3(",", more, rest);
      FieldsAreRead(fields[1..], rest);
      OneMoreField(text, FieldValue(f), f.item.after + ("," + (more + rest)), more + rest);
    }
  }

  lemma LastField(text: string, f: (string, Json), tail: string, rest: string)
    requires ReadField(text) == Some((f, tail)) && SkipSpace(tail) == "}" + rest
    ensures ReadFields(text) == Some(([f], rest))
  {
    assert ("}" + rest)[1..] == rest;
  }

  lemma OneMoreField(text: string, f: (string, Json), tail: string, more: string)
    requires ReadField(text) == Some((f, tail)) && SkipSpace(tail) == "," + more && ReadFields(more).Some?
    ensures ReadFields(text) == Some(([f] + ReadFields(more).value.0, ReadFields(more).value.1))
  {
    assert ("," + more)[1..] == more;
  }

  // ---- what is read is a document ----

  lemma {:induction false} ReadIsDoc(text: string) returns (gap: string, d: Doc)
    requires ReadValue(text).Some?
    ensures var (v, rest) := ReadValue(text).value;
            Gap(gap) && WellSpelt(d) && Value(d) == v && text == gap + (TextOfDoc(d) + rest)
    decreases |text|, 1
  {
    gap := SkippedIsGap(text);
    var t := SkipSpace(text);
    SameAfterSpace(text, t);
    NothingSkipped(t);
    if t[0] == '"' {
      d := ReadIsString(t);
    } else if t[0] == '[' {
      d := ReadIsArray(t);
    } else if t[0] == '{' {
      d := ReadIsObject(t);
    } else if t[0] == '-' || IsDigit(t[0]) {
      NumberOpens(t);
      var digits, fraction, exponent := ReadIsNumber(t);
      var (v, rest) := ReadNumber(t).value;
      d := NumDoc(v.n, digits, fraction, exponent);
      Regroup3(digits, fraction + exponent, rest);
      Regroup3(fraction, exponent, rest);
    } else {
      d := ReadIsLiteral(t);
    }
  }

  lemma ReadIsLiteral(t: string) returns (d: Doc)
    requires ReadValue(t).Some? && t != "" && SkipSpace(t) == t
    requires t[0] != '"' && t[0] != '[' && t[0] != '{' && t[0] != '-' && !IsDigit(t[0])
    ensures WellSpelt(d) && Value(d) == ReadValue(t).value.0 && t == TextOfDoc(d) + ReadValue(t).value.1
  {
    d := if t[0] == 'n' then NullDoc else BoolDoc(t[0] == 't');
    assert TextOfDoc(d) <= t;
  }

  lemma ReadIsString(t: string) returns (d: Doc)
    requires ReadValue(t).Some? && t != "" && SkipSpace(t) == t && t[0] == '"'
    ensures WellSpelt(d) && Value(d) == ReadValue(t).value.0 && t == TextOfDoc(d) + ReadValue(t).value.1
  {
    var chars := ReadIsQuoted(t);
    StringOpens(t);
    d := StrDoc(chars);
  }

  lemma ReadIsQuoted(t: string) returns (chars: seq<Spelt>)
    requires ReadString(t).Some?
    ensures AllSpelt(chars) && Plain(chars) == ReadString(t).value.0 && t == Quoted(chars) + ReadString(t).value.1
  {
    chars := ReadIsSpelling(t[1..]);
    assert t == "\"" + t[1..];
  }

  lemma ArrayMeans(t: string)
    requires t != "" && SkipSpace(t) == t && t[0] == '['
    ensures ReadValue(t) == ReadArray(t[1..]) && t == "[" + t[1..]
  {
  }

  lemma ReadIsArray(t: string) returns (d: Doc)
    requires ReadValue(t).Some? && t != "" && SkipSpace(t) == t && t[0] == '['
    ensures WellSpelt(d) && Value(d) == ReadValue(t).value.0 && t == TextOfDoc(d) + ReadValue(t).value.1
    decreases |t|, 0
  {
    ArrayMeans(t);
    var inner, rest := t[1..], ReadValue(t).value.1;
    var u := SkipSpace(inner);
    if u != "" && u[0] == ']' {
      var gap := SkippedIsGap(inner);
      assert u == "]" + rest;
      d := NoItems(gap);
      Regroup3(gap, "]", rest);
      Regroup3("[", gap + "]", rest);
    } else {
      ItemsAfterSpace(inner);
      var items := ReadIsItems(inner);
      d := ArrayDoc(items);
      Regroup3("[", ItemsText(items), rest);
    }
  }

  lemma ObjectMeans(t: string)
    requires t != "" && SkipSpace(t) == t && t[0] == '{'
    ensures ReadValue(t) == ReadObject(t[1..]) && t == "{" + t[1..]
  {
  }

  lemma ReadIsObject(t: string) returns (d: Doc)
    requires ReadValue(t).Some? && t != "" && SkipSpace(t) == t && t[0] == '{'
    ensures WellSpelt(d) && Value(d) == ReadValue(t).value.0 && t == TextOfDoc(d) + ReadValue(t).value.1
    decreases |t|, 0
  {
    ObjectMeans(t);
    var inner, rest := t[1..], ReadValue(t).value.1;
    var u := SkipSpace(inner);
    if u != "" && u[0] == '}' {
      var gap := SkippedIsGap(inner);
      assert u == "}" + rest;
      d := NoFields(gap);
      Regroup3(gap, "}", rest);
      Regroup3("{", gap + "}", rest);
    } else {
      FieldsAfterSpace(inner);
      var fields := ReadIsFields(inner);
      d := ObjectDoc(fields);
      Regroup3("{", FieldsText(fields), rest);
    }
  }

  /** A value and the gaps around it, up to what follows. */
  lemma ReadIsItem(text: string) returns (it: Item)
    requires ReadValue(text).Some?
    ensures var (v, rest) := ReadValue(text).value;
            WellSpeltItem(it) && Value(it.value) == v && text == ItemText(it) + SkipSpace(rest)
    decreases |text|, 2
  {
    var rest := ReadValue(text).value.1;
    var before, d := ReadIsDoc(text);
    var after := SkippedIsGap(rest);
    it := Item(before, d, after);
    Regroup3(TextOfDoc(d), after, SkipSpace(rest));
    Regroup3(before, TextOfDoc(d) + after, SkipSpace(rest));
  }

  lemma ReadIsItems(text: string) returns (items: seq<Item>)
    requires ReadItems(text).Some?
    ensures var (vs, rest) := ReadItems(text).value;
            items != [] && WellSpeltItems(items) && ItemValues(items) == vs && text == ItemsText(items) + rest
    decreases |text|, 3
  {
    var t := SkipSpace(ReadValue(text).value.1);
    var (vs, rest) := ReadItems(text).value;
    var it := ReadIsItem(text);
    assert t == [t[0]] + t[1..];
    if t[0] == ',' {
      ItemsAfterSpace(t[1..]);
      var more := ReadIsItems(t[1..]);
      items := [it] + more;
      assert items[1..] == more;
      Regroup3(ItemText(it), "," + ItemsText(more), rest);
      Regroup3(",", ItemsText(more), rest);
    } else {
      items := [it];
      Regroup3(ItemText(it), "]", rest);
    }
  }

  lemma ReadIsField(text: string) returns (f: Field)
    requires ReadField(text).Some?
    ensures var (field, rest) := ReadField(text).value;
            WellSpeltField(f) && FieldValue(f) == field && text == FieldText(f) + SkipSpace(rest)
    decreases |text|, 2
  {
    var (field, rest) := ReadField(text).value;
    var key := SkipSpace(text);
    var tail := ReadString(key).value.1;
    var t := SkipSpace(tail);
    var before := SkippedIsGap(text);
    var chars := ReadIsQuoted(key);
    var between := SkippedIsGap(tail);
    var it := ReadIsItem(t[1..]);
    assert t == ":" + t[1..];
    f := Field(before, chars, between, it);
    FieldInFront(f, SkipSpace(rest));
  }

  lemma FieldInFront(f: Field, rest: string)
    ensures FieldText(f) + rest == f.before + (Quoted(f.key) + (f.between + (":" + (ItemText(f.item) + rest))))
  {
    Regroup3(f.before, Quoted(f.key) + (f.between + (":" + ItemText(f.item))), rest);
    Regroup3(Quoted(f.key), f.between + (":" + ItemText(f.item)), rest);
    Regroup3(f.between, ":" + ItemText(f.item), rest);
    Regroup3(":", ItemText(f.item), rest);
  }

  lemma ReadIsFields(text: string) returns (fields: seq<Field>)
    requires ReadFields(text).Some?
    ensures var (vs, rest) := ReadFields(text).value;
            fields != [] && WellSpeltFields(fields) && FieldValues(fields) == vs && text == FieldsText(fields) + rest
    decreases |text|, 3
  {
    var t := SkipSpace(ReadField(text).value.1);
    var (vs, rest) := ReadFields(text).value;
    var f := ReadIsField(text);
    assert t == [t[0]] + t[1..];
    if t[0] == ',' {
      var more := ReadIsFields(t[1..]);
      fields := [f] + more;
      assert fields[1..] == more;
      Regroup3(FieldText(f), "," + FieldsText(more), rest);
      Regroup3(",", FieldsText(more), rest);
    } else {
      fields := [f];
      Regroup3(FieldText(f), "}", rest);
    }
  }

  // ---- the whole text ----

  ghost predicate TextOf(text: string, before: string, d: Doc, after: string) {
    Gap(before) && WellSpelt(d) && Gap(after) && text == before + (TextOfDoc(d) + after)
  }

  /** Whatever gaps and spellings are chosen, the text of a document gives its value. */
  lemma EveryLayoutIsRead(text: string, before: string, d: Doc, after: string)
    requires TextOf(text, before, d, after)
    ensures Parsed(text) == Some(Value(d))
  {
    assert Ends(after);
    DocIsRead(d, after);
    GapIsSkipped(before, TextOfDoc(d) + after);
    SameAfterSpace(text, TextOfDoc(d) + after);
    GapIsSkipped(after, "");
    assert after + "" == after;
  }

  /** A text gives a value if and only if it is the text of a document of that value. */
  lemma ParsedIff(text: string, v: Json)
    ensures Parsed(text) == Some(v) <==> exists before, d, after :: TextOf(text, before, d, after) && Value(d) == v
  {
    if Parsed(text) == Some(v) {
      var before, d := ReadIsDoc(text);
      var after := SkippedIsGap(ReadValue(text).value.1);
      assert after + "" == after;
      assert TextOf(text, before, d, after);
    }
    forall before, d, after | TextOf(text, before, d, after) && Value(d) == v ensures Parsed(text) == Some(v) {
      EveryLayoutIsRead(text, before, d, after);
    }
  }

  // ---- the writer's choices ----

  function Compact(v: Json): Doc
    decreases v, 0
  {
    match v
    case Null => NullDoc
    case Bool(b) => BoolDoc(b)
    case Num(n) => NumDoc(n, DecimalOfInt(n), "", "")
    case Str(s) => StrDoc(CompactChars(s))
    case Array(items) => if items == [] then NoItems("") else ArrayDoc(CompactItems(items))
    case Object(fields) => if fields == [] then NoFields("") else ObjectDoc(CompactFields(fields))
  }

  function CompactChars(s: string): seq<Spelt> {
    if s == "" then [] else [(s[0], WrittenChar(s[0]))] + CompactChars(s[1..])
  }

  function CompactItems(items: seq<Json>): seq<Item>
    decreases items, 0
  {
    if items == [] then [] else [Item("", Compact(items[0]), "")] + CompactItems(items[1..])
  }

  function CompactField(f: (string, Json)): Field
    decreases f, 1
  {
    Field("", CompactChars(f.0), "", Item("", Compact(f.1), ""))
  }

  function CompactFields(fields: seq<(string, Json)>): seq<Field>
    decreases fields, 0
  {
    if fields == [] then [] else [CompactField(fields[0])] + CompactFields(fields[1..])
  }

  lemma WrittenCharSpells(c: char)
    ensures Spells(c, WrittenChar(c))
  {
    var w := WrittenChar(c);
    if |w| == 6 {
      var a, b := c as int / 16, c as int % 16;
      assert HexDigit(a, HexChar(a)) && HexDigit(b, HexChar(b));
      var t := w[2..];
      assert t == ['0', '0', HexChar(a), HexChar(b)];
      DigitsSpell(0, 0, a, b, t);
    }
  }

  lemma {:induction false} CompactCharsSpell(s: string)
    ensures AllSpelt(CompactChars(s)) && Plain(CompactChars(s)) == s && Spelling(CompactChars(s)) == WrittenChars(s)
  {
    if s != "" {
      CompactCharsSpell(s[1..]);
      WrittenCharSpells(s[0]);
      assert CompactChars(s)[1..] == CompactChars(s[1..]);
      assert s == [s[0]] + s[1..];
    }
  }

  lemma WrittenIntegerSpells(n: i64)
    ensures IntegerSpelt(n, DecimalOfInt(n))
  {
    var m: int := n;
    var k := if m < 0 then -m else m;
    assert DecimalOf(k) == Zeros(0) + DecimalOf(k);
    if m < 0 {
      assert DecimalOfInt(m)[1..] == DecimalOf(k);
    }
  }

  /** Every value has a document, and the compact one is what the writer writes. */
  lemma {:induction false} CompactIsWritten(v: Json)
    ensures WellSpelt(Compact(v)) && Value(Compact(v)) == v && TextOfDoc(Compact(v)) == Written(v)
    decreases v, 0
  {
    match v
    case Num(n) =>
      WrittenIntegerSpells(n);
      assert DecimalOfInt(n) + ("" + "") == DecimalOfInt(n);
    case Str(s) => CompactCharsSpell(s);
    case Array(items) =>
      if items != [] {
        CompactItemsAreWritten(items);
      }
    case Object(fields) =>
      if fields != [] {
        CompactFieldsAreWritten(fields);
      }
    case _ =>
  }

  lemma {:induction false} CompactItemsAreWritten(items: seq<Json>)
    requires items != []
    ensures var spelt := CompactItems(items);
            WellSpeltItems(spelt) && ItemValues(spelt) == items && ItemsText(spelt) == WrittenItems(items)
    decreases items, 0
  {
    var spelt := CompactItems(items);
    CompactIsWritten(items[0]);
    assert spelt[1..] == CompactItems(items[1..]);
    assert ItemText(spelt[0]) == Written(items[0]);
    if |items| == 1 {
      assert items == [items[0]] && spelt[1..] == [] && WellSpeltItem(spelt[0]);
    } else {
      CompactItemsAreWritten(items[1..]);
      assert items == [items[0]] + items[1..];
    }
  }

  lemma CompactFieldIsWritten(f: (string, Json))
    ensures WellSpeltField(CompactField(f)) && FieldValue(CompactField(f)) == f && FieldText(CompactField(f)) == WrittenField(f)
    decreases f, 1
  {
    CompactCharsSpell(f.0);
    CompactIsWritten(f.1);
  }

  lemma {:induction false} CompactFieldsAreWritten(fields: seq<(string, Json)>)
    requires fields != []
    ensures var spelt := CompactFields(fields);
            WellSpeltFields(spelt) && FieldValues(spelt) == fields && FieldsText(spelt) == WrittenFields(fields)
    decreases fields, 0
  {
    var spelt := CompactFields(fields);
    CompactFieldIsWritten(fields[0]);
    assert spelt[1..] == CompactFields(fields[1..]);
    if |fields| == 1 {
      assert fields == [fields[0]] && spelt[1..] == [] && WellSpeltField(spelt[0]);
    } else {
      CompactFieldsAreWritten(fields[1..]);
      assert fields == [fields[0]] + fields[1..];
    }
  }

  predicate Printable(s: string) {
    forall i | 0 <= i < |s| :: s[i] as int >= 0x20
  }

  lemma DigitsPrint(s: string)
    requires AllDigits(s)
    ensures Printable(s)
  {
    forall i | 0 <= i < |s| ensures s[i] as int >= 0x20 {
      assert s[i] in s;
    }
  }

  lemma {:induction false} CharsPrint(s: string)
    ensures Printable(WrittenChars(s))
  {
    if s != "" {
      CharsPrint(s[1..]);
    }
  }

  /** No control character is ever written bare, so no line end either: what is written is strict JSON. */
  lemma {:induction false} WrittenIsPrintable(v: Json)
    ensures Printable(Written(v))
    decreases v, 0
  {
    match v
    case Num(n) =>
      var m: int := n;
      DigitsPrint(DecimalOf(if m < 0 then -m else m));
    case Str(s) => CharsPrint(s);
    case Array(items) =>
      if items != [] {
        ItemsPrint(items);
      }
    case Object(fields) =>
      if fields != [] {
        FieldsPrint(fields);
      }
    case _ =>
  }

  lemma {:induction false} ItemsPrint(items: seq<Json>)
    requires items != []
    ensures Printable(WrittenItems(items))
    decreases items, 0
  {
    WrittenIsPrintable(items[0]);
    if |items| > 1 {
      ItemsPrint(items[1..]);
    }
  }

  lemma {:induction false} FieldsPrint(fields: seq<(string, Json)>)
    requires fields != []
    ensures Printable(WrittenFields(fields))
    decreases fields, 0
  {
    FieldPrints(fields[0]);
    if |fields| > 1 {
      FieldsPrint(fields[1..]);
    }
  }

  lemma FieldPrints(f: (string, Json))
    ensures Printable(WrittenField(f))
    decreases f, 1
  {
    CharsPrint(f.0);
    WrittenIsPrintable(f.1);
  }

  /** Parsing undoes writing, for every value: every nesting, every string and every 64-bit number. */
  lemma ParseUndoesWrite(v: Json)
    ensures Parsed(Written(v)) == Some(v)
  {
    CompactIsWritten(v);
    assert TextOf(Written(v), "", Compact(v), "");
    EveryLayoutIsRead(Written(v), "", Compact(v), "");
  }
}
