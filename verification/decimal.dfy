/** Decimal text of whole numbers: no leading zeros, a leading '-' for negatives.
    This is exactly the text JavaScript's template literals print (`${n}`) for an
    integer of magnitude up to 2^53. Larger doubles print as the shortest digits
    that read back as the same double, padded with zeros, and from 1e21 on in
    exponent notation; neither is covered. Used for the XP labels of the home and
    leaderboard screens. */
module Decimal {

  import opened Wrappers

  predicate IsDigit(c: char) {
    '0' <= c <= '9'
  }

  predicate AllDigits(s: string) {
    forall i :: 0 <= i < |s| ==> IsDigit(s[i])
  }

  /** A digit string as printed for a number: non-empty, no superfluous leading zero. */
  predicate Canonical(s: string) {
    && |s| > 0
    && AllDigits(s)
    && (|s| > 1 ==> s[0] != '0')
  }

  function DigitChar(d: int): (c: char)
    requires 0 <= d < 10
    ensures IsDigit(c)
  {
    "0123456789"[d]
  }

  function DigitValue(c: char): (d: int)
    requires IsDigit(c)
    ensures 0 <= d < 10
    ensures DigitChar(d) == c
  {
    (c as int) - ('0' as int)
  }

  /** The number a string of digits denotes, most significant digit first. */
  function DigitsValue(s: string): (n: nat)
    requires AllDigits(s)
  {
    if |s| == 0 then 0 else 10 * DigitsValue(s[..|s| - 1]) + DigitValue(s[|s| - 1])
  }

  /** The decimal text of a natural number. */
  function NatToString(n: nat): (s: string)
    ensures Canonical(s)
    ensures DigitsValue(s) == n
    ensures n < 10 <==> |s| == 1
  {
    if n < 10 then [DigitChar(n)]
    else
      var prefix := NatToString(n / 10);
      var s := prefix + [DigitChar(n % 10)];
      assert s[..|s| - 1] == prefix;
      s
  }

  /** The decimal text of an integer: a '-' in front of negative values only. */
  function IntToString(i: int): (s: string)
    ensures |s| > 0
    ensures i < 0 <==> s[0] == '-'
    ensures i >= 0 <==> IsDigit(s[0])
  {
    if i < 0 then "-" + NatToString(-i) else NatToString(i)
  }

  /** Reads back a canonical digit string; anything else is rejected. */
  function ParseNat(s: string): (r: Option<nat>)
    ensures r.Some? <==> Canonical(s)
  {
    if Canonical(s) then Some(DigitsValue(s)) else None
  }

  /** Reads back the text IntToString prints. */
  function ParseInt(s: string): (r: Option<int>)
  {
    if |s| > 0 && s[0] == '-' then
      match ParseNat(s[1..])
      case Some(n) => if n > 0 then Some(-(n as int)) else None
      case None => None
    else
      match ParseNat(s)
      case Some(n) => Some(n)
      case None => None
  }

  /** A leading digit other than zero makes the value positive. */
  lemma {:induction false} LeadingNonZeroIsPositive(s: string)
    requires AllDigits(s) && |s| > 0 && s[0] != '0'
    ensures DigitsValue(s) > 0
  {
    if |s| > 1 {
      var p := s[..|s| - 1];
      assert p[0] == s[0];
      LeadingNonZeroIsPositive(p);
    }
  }

  /** Appending a digit to a positive number's text prints ten times it plus the digit. */
  lemma PrintAppended(a: nat, d: int)
    requires a > 0 && 0 <= d < 10
    ensures NatToString(10 * a + d) == NatToString(a) + [DigitChar(d)]
  {
    var v := 10 * a + d;
    DivModTen(v, a, d);
  }

  /** Euclidean division by ten recovers the two parts of `10 * a + d`. */
  lemma DivModTen(v: int, a: int, d: int)
    requires v == 10 * a + d && 0 <= d < 10
    ensures v / 10 == a && v % 10 == d
  {
    var q, r := v / 10, v % 10;
    assert v == 10 * q + r && 0 <= r < 10;
    assert 10 * (q - a) == d - r;
  }

  /** Printing a canonical digit string's value gives that string back: every
      canonical string is the text of exactly one number. */
  lemma {:induction false} PrintParsed(s: string)
    requires Canonical(s)
    ensures NatToString(DigitsValue(s)) == s
  {
    if |s| > 1 {
      var p, c := s[..|s| - 1], s[|s| - 1];
      assert s == p + [c];
      assert Canonical(p) && p[0] != '0' by {
        assert forall i :: 0 <= i < |p| ==> p[i] == s[i];
      }
      var a, d := DigitsValue(p), DigitValue(c);
      assert DigitsValue(s) == 10 * a + d;
      LeadingNonZeroIsPositive(p);
      PrintParsed(p);
      PrintAppended(a, d);
    }
  }

  /** Parsing the printed text of a natural number gives the number back. */
  lemma ParsePrintedNat(n: nat)
    ensures ParseNat(NatToString(n)) == Some(n)
  {
  }

  /** A text that parses as a natural number is exactly that number's printed text. */
  lemma PrintParsedNat(s: string, n: nat)
    requires ParseNat(s) == Some(n)
    ensures NatToString(n) == s
  {
    PrintParsed(s);
  }

  /** Parsing the printed text of an integer gives the integer back. */
  lemma ParsePrintedInt(i: int)
    ensures ParseInt(IntToString(i)) == Some(i)
  {
    var t := IntToString(i);
    if i < 0 {
      assert t[1..] == NatToString(-i);
      ParsePrintedNat(-i);
    } else {
      ParsePrintedNat(i);
    }
  }

  /** A text that parses as an integer is exactly that integer's printed text. */
  lemma PrintParsedInt(s: string, i: int)
    requires ParseInt(s) == Some(i)
    ensures IntToString(i) == s
  {
    if |s| > 0 && s[0] == '-' {
      var digits := s[1..];
      assert Canonical(digits) && i + DigitsValue(digits) == 0 && i < 0;
      PrintParsed(digits);
      assert IntToString(i) == "-" + NatToString(DigitsValue(digits));
      assert s == "-" + digits;
    } else {
      assert Canonical(s) && i == DigitsValue(s);
      PrintParsed(s);
    }
  }

}
