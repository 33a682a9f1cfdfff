/**
  JavaScript's parseInt(string, 10) (ECMAScript, section 19.2.5) on exact integers:
  skip leading whitespace, read an optional sign, then the longest run of decimal digits;
  no digit at all is NaN, modelled as None.
 */
module JsNumber {
  import opened Wrappers
  import opened JsText

  predicate IsDigit(c: char) {
    '0' <= c <= '9'
  }

  ghost predicate AllDigits(s: string) {
    forall i | 0 <= i < |s| :: IsDigit(s[i])
  }

  function DigitValue(c: char): (d: nat)
    requires IsDigit(c)
    ensures d < 10
  {
    c as int - '0' as int
  }

  function DigitChar(d: nat): (c: char)
    requires d < 10
    ensures IsDigit(c) && DigitValue(c) == d
  {
    ('0' as int + d) as char
  }

  /** The length of the longest all-digit prefix of s. */
  function DigitPrefix(s: string): (k: nat)
    ensures k <= |s|
    ensures AllDigits(s[..k])
    ensures k < |s| ==> !IsDigit(s[k])
  {
    if s == [] || !IsDigit(s[0]) then 0 else 1 + DigitPrefix(s[1..])
  }

  /** The number a string of decimal digits denotes (leading zeros allowed). */
  function DigitsValue(d: string): int
    requires AllDigits(d)
  {
    if d == [] then 0 else DigitsValue(d[..|d| - 1]) * 10 + DigitValue(d[|d| - 1])
  }

  /** The text after the optional sign that parseInt reads digits from. */
  function Unsigned(t: string): string {
    if |t| > 0 && (t[0] == '+' || t[0] == '-') then t[1..] else t
  }

  /** The value of the leading run of digits of u, None when u does not start with a digit. */
  function LeadingNumber(u: string): (m: Option<int>)
    ensures m.None? <==> u == [] || !IsDigit(u[0])
  {
    var k := DigitPrefix(u);
    if k == 0 then None else Some(DigitsValue(u[..k]))
  }

  function ApplySign(negative: bool, m: Option<int>): Option<int> {
    match m
    case None => None
    case Some(v) => Some(if negative then -v else v)
  }

  /**
    parseInt(s, 10), with NaN as None: NaN exactly when no digit follows the leading whitespace and
    the optional sign.
   */
  function ParseInt(s: string): (r: Option<int>)
    ensures r.None? <==> var u := Unsigned(TrimStart(s)); u == [] || !IsDigit(u[0])
  {
    var t := TrimStart(s);
    ApplySign(|t| > 0 && t[0] == '-', LeadingNumber(Unsigned(t)))
  }

  /** The shortest decimal form of n, as JavaScript's String(n) writes an integer below 10^21. */
  function ShowNat(n: nat): (r: string)
    ensures |r| >= 1 && AllDigits(r)
    ensures r[0] != '0' || n == 0
  {
    if n < 10 then [DigitChar(n)] else ShowNat(n / 10) + [DigitChar(n % 10)]
  }

  function ShowInt(n: int): (r: string)
    ensures |r| >= 1 && !IsJsWhitespace(r[0])
    ensures forall i | 0 <= i < |r| :: r[i] != ' '
  {
    if n < 0 then "-" + ShowNat(-n) else ShowNat(n)
  }

  lemma {:induction false} ValueOfShowNat(n: nat)
    ensures DigitsValue(ShowNat(n)) == n
  {
    if n >= 10 {
      var r := ShowNat(n);
      assert r[..|r| - 1] == ShowNat(n / 10);
      ValueOfShowNat(n / 10);
    }
  }

  lemma {:induction false} DigitPrefixOfDigits(d: string, rest: string)
    requires AllDigits(d)
    requires rest == [] || !IsDigit(rest[0])
    ensures DigitPrefix(d + rest) == |d|
  {
    if d != [] {
      assert (d + rest)[1..] == d[1..] + rest;
      DigitPrefixOfDigits(d[1..], rest);
    }
  }

  lemma {:induction false} LeadingSpaceOfPadded(ws: string, s: string)
    requires AllSpace(ws)
    ensures LeadingSpace(ws + s) == |ws| + LeadingSpace(s)
  {
    if ws != [] {
      assert (ws + s)[0] == ws[0] && IsJsWhitespace(ws[0]);
      assert (ws + s)[1..] == ws[1..] + s;
      assert AllSpace(ws[1..]) by {
        forall i | 0 <= i < |ws[1..]| ensures IsJsWhitespace(ws[1..][i]) {
          assert ws[1..][i] == ws[i + 1];
        }
      }
      LeadingSpaceOfPadded(ws[1..], s);
      assert LeadingSpace(ws + s) == 1 + LeadingSpace(ws[1..] + s);
    } else {
      assert ws + s == s;
    }
  }

  /** Leading whitespace never changes what parseInt reads. */
  lemma ParseIntSkipsWhitespace(ws: string, s: string)
    requires AllSpace(ws)
    ensures ParseInt(ws + s) == ParseInt(s)
  {
    LeadingSpaceOfPadded(ws, s);
    assert TrimStart(ws + s) == TrimStart(s) by {
      assert (ws + s)[|ws| + LeadingSpace(s)..] == s[LeadingSpace(s)..];
    }
  }

  /** A run of digits ended by a non-digit is read as the number it denotes. */
  lemma LeadingNumberOfDigits(d: string, rest: string)
    requires d != [] && AllDigits(d)
    requires rest == [] || !IsDigit(rest[0])
    ensures LeadingNumber(d + rest) == Some(DigitsValue(d))
  {
    DigitPrefixOfDigits(d, rest);
    assert (d + rest)[..|d|] == d;
  }

  lemma TrimStartNoSpace(s: string)
    requires s != [] && !IsJsWhitespace(s[0])
    ensures TrimStart(s) == s
  {
    assert LeadingSpace(s) == 0;
  }

  /** Text with no leading whitespace: parseInt applies the sign to the number after it. */
  lemma ParseIntTrimmed(s: string)
    requires s != [] && !IsJsWhitespace(s[0])
    ensures ParseInt(s) == ApplySign(s[0] == '-', LeadingNumber(Unsigned(s)))
  {
    TrimStartNoSpace(s);
  }

  /** An optional sign in front of a digit: the text starts without whitespace and the sign is read off. */
  lemma SignedText(sign: string, u: string)
    requires sign == "" || sign == "+" || sign == "-"
    requires u != [] && IsDigit(u[0])
    ensures var s := sign + u; s != [] && !IsJsWhitespace(s[0]) && Unsigned(s) == u && (s[0] == '-' <==> sign == "-")
  {
    var s := sign + u;
    if sign == "" {
      assert s == u;
    } else {
      assert s[0] == sign[0] && s[1..] == u;
    }
  }

  /** A sign followed by text whose leading number is v reads as v with that sign. */
  lemma ParseIntSignedNumber(sign: string, u: string, v: int)
    requires sign == "" || sign == "+" || sign == "-"
    requires LeadingNumber(u) == Some(v)
    ensures sign != "-" ==> ParseInt(sign + u) == Some(v)
    ensures sign == "-" ==> ParseInt(sign + u) == Some(-v)
  {
    SignedText(sign, u);
    ParseIntTrimmed(sign + u);
  }

  lemma ParseIntSignedRun(sign: string, d: string, rest: string, v: int)
    requires sign == "" || sign == "+" || sign == "-"
    requires LeadingNumber(d + rest) == Some(v)
    ensures sign != "-" ==> ParseInt(sign + d + rest) == Some(v)
    ensures sign == "-" ==> ParseInt(sign + d + rest) == Some(-v)
  {
    AppendAssoc(sign, d, rest);
    ParseIntSignedNumber(sign, d + rest, v);
  }

  /**
    An optional sign, any run of digits d (leading zeros included) and a non-digit end read as v,
    the number d denotes, with that sign: "+3" is 3 and "007" is 7.
   */
  lemma ParseIntDigits(sign: string, d: string, rest: string, v: int)
    requires sign == "" || sign == "+" || sign == "-"
    requires d != [] && AllDigits(d) && v == DigitsValue(d)
    requires rest == [] || !IsDigit(rest[0])
    ensures sign != "-" ==> ParseInt(sign + d + rest) == Some(v)
    ensures sign == "-" ==> ParseInt(sign + d + rest) == Some(-v)
  {
    LeadingNumberOfDigits(d, rest);
    ParseIntSignedRun(sign, d, rest, v);
  }

  lemma ShowIntSigned(n: int, rest: string)
    ensures ShowInt(n) + rest == (if n < 0 then "-" else "") + ShowNat(if n < 0 then -n else n) + rest
  {
    if n >= 0 {
      assert "" + ShowNat(n) == ShowNat(n);
    }
  }

  /**
    parseInt reads back every integer written in decimal, whatever non-digit text follows it:
    only the leading run of digits is taken.
   */
  lemma ParseIntShowInt(n: int, rest: string)
    requires rest == [] || !IsDigit(rest[0])
    ensures ParseInt(ShowInt(n) + rest) == Some(n)
  {
    var m := if n < 0 then -n else n;
    ValueOfShowNat(m);
    ShowIntSigned(n, rest);
    ParseIntDigits(if n < 0 then "-" else "", ShowNat(m), rest, m);
  }

  /** ParseIntDigits for a word w spelled as sign, digits and tail. */
  lemma ParseIntWord(sign: string, d: string, tail: string, w: string, v: int)
    requires sign == "" || sign == "+" || sign == "-"
    requires d != [] && AllDigits(d) && v == DigitsValue(d)
    requires tail == [] || !IsDigit(tail[0])
    requires w == sign + d + tail
    ensures sign != "-" ==> ParseInt(w) == Some(v)
    ensures sign == "-" ==> ParseInt(w) == Some(-v)
  {
    ParseIntDigits(sign, d, tail, v);
  }

  /** A missing token reaches parseInt as the string "undefined", which is NaN. */
  lemma ParseIntUndefined()
    ensures ParseInt("undefined") == None
  {
  }
}
