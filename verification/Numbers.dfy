/** Decimal text, and the way the standard integer parsers read it. */
module Numbers {
  import opened Wrappers
  import opened Integers

  predicate IsDigit(c: char) {
    '0' <= c <= '9'
  }

  predicate AllDigits(s: string) {
    forall c | c in s :: IsDigit(c)
  }

  function DigitChar(d: nat): (c: char)
    requires d < 10
    ensures IsDigit(c) && c as int - '0' as int == d
  {
    ('0' as int + d) as char
  }

  function DigitValue(c: char): (d: nat)
    requires IsDigit(c)
    ensures d < 10 && DigitChar(d) == c
  {
    c as int - '0' as int
  }

  function DecimalOf(n: nat): (s: string)
    ensures s != "" && AllDigits(s)
  {
    if n < 10 then [DigitChar(n)] else DecimalOf(n / 10) + [DigitChar(n % 10)]
  }

  function ValueOf(s: string): nat
    requires AllDigits(s)
  {
    if s == "" then 0 else 10 * ValueOf(s[..|s| - 1]) + DigitValue(s[|s| - 1])
  }

  lemma ValueOfOneMore(s: string, d: nat)
    requires AllDigits(s) && d < 10
    ensures ValueOf(s + [DigitChar(d)]) == 10 * ValueOf(s) + d
  {
    assert (s + [DigitChar(d)])[..|s|] == s;
  }

  lemma {:induction false} DecimalReadsBack(n: nat)
    ensures ValueOf(DecimalOf(n)) == n
  {
    if n >= 10 {
      DecimalReadsBack(n / 10);
      ValueOfOneMore(DecimalOf(n / 10), n % 10);
    } else {
      ValueOfOneMore("", n);
      assert "" + [DigitChar(n)] == [DigitChar(n)];
    }
  }

  /** The number with zeros in front up to a width. */
  function PaddedDecimal(n: nat, width: nat): (s: string)
    ensures AllDigits(s) && |s| >= width && s != ""
  {
    var digits := DecimalOf(n);
    if |digits| < width then seq(width - |digits|, _ => '0') + digits else digits
  }

  lemma {:induction false} ZerosAddNothing(zeros: string, s: string)
    requires AllDigits(s) && forall i | 0 <= i < |zeros| :: zeros[i] == '0'
    ensures AllDigits(zeros + s) && ValueOf(zeros + s) == ValueOf(s)
    decreases |s|, |zeros|
  {
    if s == "" {
      assert zeros + s == zeros;
      if zeros != "" {
        var front := zeros[..|zeros| - 1];
        ZerosAddNothing(front, s);
        assert front + s == front;
      }
    } else {
      ZerosAddNothing(zeros, s[..|s| - 1]);
      assert (zeros + s)[..|zeros + s| - 1] == zeros + s[..|s| - 1];
    }
  }

  lemma PaddedReadsBack(n: nat, width: nat)
    ensures ValueOf(PaddedDecimal(n, width)) == n
  {
    DecimalReadsBack(n);
    var digits := DecimalOf(n);
    if |digits| < width {
      ZerosAddNothing(seq(width - |digits|, _ => '0'), digits);
    }
  }

  /** A number below a power of ten has no more digits than that power has zeros. */
  lemma {:induction false} DecimalWidth(n: nat, width: nat, bound: nat)
    requires width >= 1 && n < bound && bound == Pow10(width)
    ensures |DecimalOf(n)| <= width
  {
    if n >= 10 {
      DecimalWidth(n / 10, width - 1, Pow10(width - 1));
    }
  }

  function Pow10(k: nat): (p: nat)
    ensures p >= 1
  {
    if k == 0 then 1 else 10 * Pow10(k - 1)
  }

  // ---- the integer parsers ----

  /** An unsigned parser: an optional `+`, then one or more digits within the type's range. */
  function ParseUnsigned(text: string, max: nat): Option<nat> {
    var digits := if text != "" && text[0] == '+' then text[1..] else text;
    if digits == "" || !AllDigits(digits) || ValueOf(digits) > max then None else Some(ValueOf(digits))
  }

  /** The signed 64-bit parser: an optional sign, then one or more digits within range. */
  function ParseI64(text: string): Option<int> {
    var signed := text != "" && (text[0] == '+' || text[0] == '-');
    var digits := if signed then text[1..] else text;
    if digits == "" || !AllDigits(digits) then None
    else
      var value := if signed && text[0] == '-' then -(ValueOf(digits) as int) else ValueOf(digits);
      if I64_MIN <= value <= I64_MAX then Some(value) else None
  }

  function DecimalOfInt(n: int): (s: string)
    ensures s != ""
  {
    if n < 0 then "-" + DecimalOf(-n) else DecimalOf(n)
  }

  lemma IntReadsBack(n: int)
    requires I64_MIN <= n <= I64_MAX
    ensures ParseI64(DecimalOfInt(n)) == Some(n)
  {
    if n < 0 {
      DecimalReadsBack(-n);
      assert ("-" + DecimalOf(-n))[1..] == DecimalOf(-n);
    } else {
      DecimalReadsBack(n);
      assert IsDigit(DecimalOf(n)[0]);
    }
  }

  lemma PaddedUnsignedReadsBack(n: nat, width: nat, max: nat)
    requires n <= max
    ensures ParseUnsigned(PaddedDecimal(n, width), max) == Some(n)
  {
    PaddedReadsBack(n, width);
    assert IsDigit(PaddedDecimal(n, width)[0]);
  }

  // ---- what counts as a numeral ----

  function Zeros(k: nat): string {
    seq(k, _ => '0')
  }

  /** Its decimal text, with any number of zeros in front. */
  ghost predicate Numeral(s: string, n: nat) {
    exists k: nat :: s == Zeros(k) + DecimalOf(n)
  }

  lemma OneMoreDigit(front: string, n: nat, d: nat)
    requires Numeral(front, n) && d < 10
    ensures Numeral(front + [DigitChar(d)], 10 * n + d)
  {
    var k: nat :| front == Zeros(k) + DecimalOf(n);
    if n == 0 {
      assert Zeros(k) + "0" == Zeros(k + 1);
      assert front + [DigitChar(d)] == Zeros(k + 1) + DecimalOf(d);
    } else {
      assert (10 * n + d) / 10 == n && (10 * n + d) % 10 == d;
      assert front + [DigitChar(d)] == Zeros(k) + (DecimalOf(n) + [DigitChar(d)]);
    }
  }

  lemma {:induction false} DigitsAreANumeral(s: string)
    requires s != "" && AllDigits(s)
    ensures Numeral(s, ValueOf(s))
  {
    var front, d := s[..|s| - 1], DigitValue(s[|s| - 1]);
    assert s == front + [DigitChar(d)];
    if front == "" {
      ValueOfOneMore(front, d);
      assert s == Zeros(0) + DecimalOf(ValueOf(s));
    } else {
      DigitsAreANumeral(front);
      OneMoreDigit(front, ValueOf(front), d);
    }
  }

  lemma NumeralsAreRead(s: string, n: nat)
    requires Numeral(s, n)
    ensures s != "" && AllDigits(s) && ValueOf(s) == n
  {
    var k: nat :| s == Zeros(k) + DecimalOf(n);
    DecimalReadsBack(n);
    ZerosAddNothing(Zeros(k), DecimalOf(n));
  }

  lemma NumeralIff(s: string, n: nat)
    ensures Numeral(s, n) <==> s != "" && AllDigits(s) && ValueOf(s) == n
  {
    if Numeral(s, n) {
      NumeralsAreRead(s, n);
    }
    if s != "" && AllDigits(s) {
      DigitsAreANumeral(s);
    }
  }

  /** An unsigned number is read from exactly its numerals in range, bare or after a `+`. */
  lemma UnsignedIsReadIff(text: string, max: nat, n: nat)
    ensures ParseUnsigned(text, max) == Some(n)
       <==> n <= max && (Numeral(text, n) || (text != "" && text[0] == '+' && Numeral(text[1..], n)))
  {
    NumeralIff(text, n);
    if text != "" {
      NumeralIff(text[1..], n);
      assert text[0] in text;
    }
  }

  /** A 64-bit number is read from exactly its numerals in range, after its sign; a `+` may be left out. */
  lemma SignedIsReadIff(text: string, n: int)
    ensures ParseI64(text) == Some(n)
       <==> I64_MIN <= n <= I64_MAX
            && ((n >= 0 && (Numeral(text, n) || (text != "" && text[0] == '+' && Numeral(text[1..], n))))
                || (n <= 0 && text != "" && text[0] == '-' && Numeral(text[1..], -n)))
  {
    if n >= 0 {
      NumeralIff(text, n);
    }
    if text != "" {
      assert text[0] in text;
      if n >= 0 {
        NumeralIff(text[1..], n);
      }
      if n <= 0 {
        NumeralIff(text[1..], -n);
      }
    }
  }
}
