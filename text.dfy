/**
  The slice of JavaScript string and number semantics that the pages rely on:
  the white-space class shared by `\s` and `String.prototype.trim`,
  `parseInt(s, 10)`, and the conversion of an integer-valued number to text
  (what `URLSearchParams` and template literals do with a page number or a price).
*/
module Text {

  /** An integer-valued JavaScript number, or `NaN` (what `parseInt` returns for text without digits). */
  datatype Num = Int(value: int) | NaN

  /** ECMAScript WhiteSpace and LineTerminator code points: the set matched by `\s` and removed by `trim()`. */
  predicate IsSpace(c: char)
  {
    c == '\t' || c == '\n' || c == '\U{B}' || c == '\U{C}' || c == '\r' || c == ' '
    || c == '\U{A0}' || c == '\U{1680}' || ('\U{2000}' <= c <= '\U{200A}')
    || c == '\U{2028}' || c == '\U{2029}' || c == '\U{202F}' || c == '\U{205F}'
    || c == '\U{3000}' || c == '\U{FEFF}'
  }

  predicate AllSpace(s: string)
  {
    forall i :: 0 <= i < |s| ==> IsSpace(s[i])
  }

  predicate IsAsciiLetter(c: char)
  {
    ('A' <= c <= 'Z') || ('a' <= c <= 'z')
  }

  predicate IsDigit(c: char)
  {
    '0' <= c <= '9'
  }

  predicate AllDigits(s: string)
  {
    forall i :: 0 <= i < |s| ==> IsDigit(s[i])
  }

  /** Removes leading white space. */
  function TrimStart(s: string): (r: string)
    ensures |r| <= |s| && r == s[|s| - |r|..]
    ensures forall i :: 0 <= i < |s| - |r| ==> IsSpace(s[i])
    ensures r != [] ==> !IsSpace(r[0])
    decreases |s|
  {
    if s != [] && IsSpace(s[0]) then TrimStart(s[1..]) else s
  }

  /** Removes trailing white space. */
  function TrimEnd(s: string): (r: string)
    ensures |r| <= |s| && r == s[..|r|]
    ensures forall i :: |r| <= i < |s| ==> IsSpace(s[i])
    ensures r != [] ==> !IsSpace(r[|r| - 1])
    decreases |s|
  {
    if s != [] && IsSpace(s[|s| - 1]) then TrimEnd(s[..|s| - 1]) else s
  }

  /**
    `String.prototype.trim`: the slice of `s` left after removing the white space at its
    start and at its end; empty exactly when `s` is all white space.
  */
  function Trim(s: string): (r: string)
    ensures exists i, j :: 0 <= i <= j <= |s| && r == s[i..j] && AllSpace(s[..i]) && AllSpace(s[j..])
    ensures r == [] <==> AllSpace(s)
    ensures r != [] ==> !IsSpace(r[0]) && !IsSpace(r[|r| - 1])
    ensures |r| <= |s|
  {
    var t := TrimStart(s);
    var r := TrimEnd(t);
    var i := |s| - |t|;
    assert r == s[i..i + |r|];
    assert AllSpace(s[..i]);
    assert AllSpace(s[i + |r|..]) by {
      forall k | i + |r| <= k < |s|
        ensures IsSpace(s[k])
      {
        assert s[k] == t[k - i];
      }
    }
    r
  }

  function DigitValue(c: char): (d: nat)
    requires IsDigit(c)
    ensures d < 10
  {
    (c as int) - ('0' as int)
  }

  function DigitChar(d: nat): (c: char)
    requires d < 10
    ensures IsDigit(c) && DigitValue(c) == d
  {
    ((('0' as int) + d) as char)
  }

  /** The longest prefix of `s` made of decimal digits. */
  function LeadingDigits(s: string): (r: string)
    ensures |r| <= |s| && r == s[..|r|] && AllDigits(r)
    ensures |r| < |s| ==> !IsDigit(s[|r|])
    decreases |s|
  {
    if s != [] && IsDigit(s[0]) then [s[0]] + LeadingDigits(s[1..]) else []
  }

  /** The value of a decimal numeral, most significant digit first. */
  function DigitsValue(ds: string): nat
    requires AllDigits(ds)
    decreases |ds|
  {
    if ds == [] then 0 else DigitsValue(ds[..|ds| - 1]) * 10 + DigitValue(ds[|ds| - 1])
  }

  /**
    `parseInt(s, 10)`: skip leading white space, read one optional sign, then the
    longest run of decimal digits; `NaN` when that run is empty.
  */
  function ParseInt(s: string): Num
  {
    var t := TrimStart(s);
    var negative := t != [] && t[0] == '-';
    var u := if t != [] && (t[0] == '+' || t[0] == '-') then t[1..] else t;
    var ds := LeadingDigits(u);
    if ds == [] then NaN
    else
      var magnitude: int := DigitsValue(ds);
      Int(if negative then -magnitude else magnitude)
  }

  /** Decimal text of a natural number, as JavaScript prints it: digits only, no leading zero. */
  function NatToString(n: nat): (r: string)
    ensures r != [] && AllDigits(r) && DigitsValue(r) == n
    ensures |r| > 1 ==> r[0] != '0'
    decreases n
  {
    if n < 10 then [DigitChar(n)]
    else
      var prefix := NatToString(n / 10);
      var r := prefix + [DigitChar(n % 10)];
      assert r[..|r| - 1] == prefix;
      r
  }

  /** `String(i)` for an integer-valued number. */
  function IntToString(i: int): string
  {
    if i < 0 then "-" + NatToString(-i) else NatToString(i)
  }

  /** `String(x)`: a number's text, `"NaN"` for `NaN`. */
  function NumToString(x: Num): string
  {
    match x
    case Int(i) => IntToString(i)
    case NaN => "NaN"
  }

  /** Every number has non-empty text, so writing it always sets the parameter. */
  lemma NumToStringNonEmpty(x: Num)
    ensures NumToString(x) != ""
  {
  }

  /** A run made only of digits is its own longest digit prefix. */
  lemma {:induction false} LeadingDigitsOfDigits(ds: string)
    requires AllDigits(ds)
    ensures LeadingDigits(ds) == ds
    decreases |ds|
  {
    if ds != [] {
      LeadingDigitsOfDigits(ds[1..]);
    }
  }

  /** Digits followed by text that does not start with a digit: the digits are the longest digit prefix. */
  lemma {:induction false} LeadingDigitsBeforeNonDigit(ds: string, rest: string)
    requires AllDigits(ds)
    requires rest == [] || !IsDigit(rest[0])
    ensures LeadingDigits(ds + rest) == ds
    decreases |ds|
  {
    if ds == [] {
      assert ds + rest == rest;
    } else {
      assert (ds + rest)[0] == ds[0] && (ds + rest)[1..] == ds[1..] + rest;
      LeadingDigitsBeforeNonDigit(ds[1..], rest);
    }
  }

  /** A numeral whose first character is not white space is not changed by `TrimStart`. */
  lemma TrimStartOfNonSpace(s: string)
    requires s != [] && !IsSpace(s[0])
    ensures TrimStart(s) == s
  {
  }

  /** Text with no white space at either end is its own trim. */
  lemma TrimOfTrimmed(s: string)
    requires s != [] && !IsSpace(s[0]) && !IsSpace(s[|s| - 1])
    ensures Trim(s) == s
  {
    TrimStartOfNonSpace(s);
  }

  /** `parseInt` reads back the decimal text of a natural number. */
  lemma {:induction false} ParseIntOfNat(n: nat)
    ensures ParseInt(NatToString(n)) == Int(n)
  {
    var digits := NatToString(n);
    LeadingDigitsOfDigits(digits);
    TrimStartOfNonSpace(digits);
  }

  /** `parseInt` reads back the text of a negative integer. */
  lemma {:induction false} ParseIntOfNegative(n: nat)
    requires n > 0
    ensures ParseInt("-" + NatToString(n)) == Int(0 - n)
  {
    var digits := NatToString(n);
    var text := "-" + digits;
    LeadingDigitsOfDigits(digits);
    TrimStartOfNonSpace(text);
    assert text[1..] == digits;
  }

  /** `parseInt` stops at the first character after a natural number's digits that is not a digit. */
  lemma {:induction false} ParseIntOfNatThen(n: nat, rest: string)
    requires rest == [] || !IsDigit(rest[0])
    ensures ParseInt(NatToString(n) + rest) == Int(n)
  {
    var digits := NatToString(n);
    var text := digits + rest;
    LeadingDigitsBeforeNonDigit(digits, rest);
    assert text[0] == digits[0];
    TrimStartOfNonSpace(text);
  }

  /** The same for a negative integer's text. */
  lemma {:induction false} ParseIntOfNegativeThen(n: nat, rest: string)
    requires n > 0
    requires rest == [] || !IsDigit(rest[0])
    ensures ParseInt("-" + NatToString(n) + rest) == Int(0 - n)
  {
    var digits := NatToString(n);
    var text := "-" + digits + rest;
    LeadingDigitsBeforeNonDigit(digits, rest);
    TrimStartOfNonSpace(text);
    assert text[1..] == digits + rest;
  }

  /** An integer's text followed by text that does not start with a digit parses back to the integer. */
  lemma {:induction false} ParseIntOfIntThen(i: int, rest: string)
    requires rest == [] || !IsDigit(rest[0])
    ensures ParseInt(IntToString(i) + rest) == Int(i)
  {
    if i < 0 {
      var n: nat := -i;
      assert IntToString(i) == "-" + NatToString(n);
      ParseIntOfNegativeThen(n, rest);
    } else {
      assert IntToString(i) == NatToString(i);
      ParseIntOfNatThen(i, rest);
    }
  }

  /** Text starting with a character that is neither white space, a sign nor a digit parses to `NaN`. */
  lemma ParseIntOfNonNumeric(s: string)
    requires s != [] && !IsSpace(s[0]) && !IsDigit(s[0]) && s[0] != '+' && s[0] != '-'
    ensures ParseInt(s) == NaN
  {
    TrimStartOfNonSpace(s);
  }

  /** Writing a number into the URL and reading it back with `parseInt` gives the same number, `NaN` included. */
  lemma {:induction false} ParseIntOfToString(x: Num)
    ensures ParseInt(NumToString(x)) == x
  {
    match x
    case NaN =>
      TrimStartOfNonSpace("NaN");
      assert LeadingDigits("NaN") == [];
    case Int(i) =>
      if i < 0 {
        ParseIntOfNegative(-i);
      } else {
        ParseIntOfNat(i);
      }
  }
}
