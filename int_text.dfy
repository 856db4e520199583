/** Base-10 text of the integers held in integer cells, as Rust's
    `to_string` writes an `i64`, together with the parser that reads such
    text back. The two are proved inverse in both directions. */
module IntText {

  /** Rust's `i64`, the payload of an integer cell. */
  newtype i64 = x: int | -0x8000_0000_0000_0000 <= x < 0x8000_0000_0000_0000

  predicate IsDigit(ch: char) {
    '0' <= ch <= '9'
  }

  function DigitValue(ch: char): (d: nat)
    requires IsDigit(ch)
    ensures d < 10
  {
    (ch as int) - ('0' as int)
  }

  function DigitChar(d: nat): (ch: char)
    requires d < 10
    ensures IsDigit(ch) && DigitValue(ch) == d
  {
    (('0' as int) + d) as char
  }

  predicate AllDigits(s: string) {
    forall k :: 0 <= k < |s| ==> IsDigit(s[k])
  }

  /** An unsigned numeral as Rust writes one: digits only, and no leading
      zero unless the numeral is "0" itself. */
  predicate IsNumeral(s: string) {
    |s| > 0 && AllDigits(s) && (|s| > 1 ==> s[0] != '0')
  }

  /** A signed numeral as Rust writes one: an optional minus sign before an
      unsigned numeral, and no "-0". */
  predicate IsDecimal(s: string) {
    if |s| > 0 && s[0] == '-' then IsNumeral(s[1..]) && s[1..] != "0" else IsNumeral(s)
  }

  /** The value of a string of digits, read most significant digit first. */
  function ParseNumeral(s: string): nat
    requires AllDigits(s)
  {
    if s == [] then 0 else 10 * ParseNumeral(s[..|s| - 1]) + DigitValue(s[|s| - 1])
  }

  /** The value of a signed numeral. */
  function ParseDecimal(s: string): int
    requires IsDecimal(s)
  {
    if s[0] == '-' then -(ParseNumeral(s[1..]) as int) else ParseNumeral(s)
  }

  /** The numeral of a natural number; reading it back gives the number. */
  function NumeralText(n: nat): (s: string)
    ensures IsNumeral(s) && ParseNumeral(s) == n
  {
    if n < 10 then [DigitChar(n)]
    else
      var prefix := NumeralText(n / 10);
      var s := prefix + [DigitChar(n % 10)];
      assert s[..|s| - 1] == prefix;
      s
  }

  /** The base-10 text of an integer (Rust's `i64::to_string`): a canonical
      signed numeral that reads back as the same integer. */
  function DecimalText(i: int): (s: string)
    ensures IsDecimal(s) && ParseDecimal(s) == i
  {
    if i < 0 then
      var s := "-" + NumeralText(-i);
      assert s[1..] == NumeralText(-i);
      s
    else NumeralText(i)
  }

  /** A non-empty string of digits is worth at least its leading digit. */
  lemma {:induction false} ParseAtLeastLeadingDigit(s: string)
    requires |s| > 0 && AllDigits(s)
    ensures ParseNumeral(s) >= DigitValue(s[0])
  {
    if |s| == 1 {
      assert s[..0] == [];
    } else {
      var prefix := s[..|s| - 1];
      assert prefix[0] == s[0];
      ParseAtLeastLeadingDigit(prefix);
    }
  }

  /** Every canonical numeral is the text of the number it denotes. */
  lemma {:induction false} NumeralTextOfParse(s: string)
    requires IsNumeral(s)
    ensures NumeralText(ParseNumeral(s)) == s
  {
    if |s| == 1 {
      assert s[..0] == [];
      assert [DigitChar(DigitValue(s[0]))] == s;
    } else {
      var prefix := s[..|s| - 1];
      var d := DigitValue(s[|s| - 1]);
      assert prefix[0] == s[0];
      ParseAtLeastLeadingDigit(prefix);
      NumeralTextOfParse(prefix);
      var p := ParseNumeral(prefix);
      var n := 10 * p + d;
      assert n / 10 == p && n % 10 == d;
      assert DigitChar(d) == s[|s| - 1];
      assert prefix + [s[|s| - 1]] == s;
    }
  }

  /** Every canonical signed numeral is the text of the integer it denotes:
      with `DecimalText`'s own contract, the two are mutually inverse. */
  lemma DecimalTextOfParse(s: string)
    requires IsDecimal(s)
    ensures DecimalText(ParseDecimal(s)) == s
  {
    if s[0] == '-' {
      var t := s[1..];
      NumeralTextOfParse(t);
      if |t| == 1 {
        assert t[..0] == [];
        assert t[0] != '0';
      } else {
        ParseAtLeastLeadingDigit(t);
      }
      assert ParseNumeral(t) > 0;
      assert "-" + t == s;
    } else {
      NumeralTextOfParse(s);
    }
  }
}
