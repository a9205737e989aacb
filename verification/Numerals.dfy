/**
 Decimal text of 64-bit integers: `strconv.ParseInt(s, 10, 64)` and
 `strconv.FormatInt(n, 10)`.
 */
module Numerals {
  import opened Text
  import opened Float64

  predicate IsInt64(n: int) {
    -TWO_63 <= n < TWO_63
  }

  predicate IsDigit(c: char) {
    '0' <= c <= '9'
  }

  predicate Digits(s: string) {
    s != "" && forall i :: 0 <= i < |s| ==> IsDigit(s[i])
  }

  function DigitValue(c: char): (d: nat)
    requires IsDigit(c)
    ensures d < 10
  {
    c as int - '0' as int
  }

  function DigitChar(d: nat): (c: char)
    requires d < 10
    ensures IsDigit(c) && DigitValue(c) == d
  {
    ('0' as int + d) as char
  }

  function Value(ds: string): nat
    requires Digits(ds)
  {
    var last := DigitValue(ds[|ds| - 1]);
    if |ds| == 1 then last else 10 * Value(ds[..|ds| - 1]) + last
  }

  /** An optional sign, then digits only, then a range check. */
  function ParseInt(s: string): (r: Option<int>)
    ensures r.Some? ==> IsInt64(r.value)
  {
    var signed := s != "" && s[0] in {'+', '-'};
    var body := if signed then s[1..] else s;
    if !Digits(body) then None
    else
      var v: int := Value(body);
      var n := if signed && s[0] == '-' then -v else v;
      if IsInt64(n) then Some(n) else None
  }

  function FormatNat(n: nat): (s: string)
    ensures Digits(s)
  {
    if n < 10 then [DigitChar(n)] else FormatNat(n / 10) + [DigitChar(n % 10)]
  }

  function FormatInt(n: int): string {
    if n < 0 then "-" + FormatNat(-n) else FormatNat(n)
  }

  /** Digits without a superfluous leading zero. */
  predicate CanonicalDigits(s: string) {
    Digits(s) && (s[0] == '0' ==> |s| == 1)
  }

  /** Decimal text as the standard library prints it: no plus sign, no leading zero, no minus zero. */
  predicate Canonical(s: string) {
    if s != "" && s[0] == '-' then CanonicalDigits(s[1..]) && s[1] != '0' else CanonicalDigits(s)
  }

  lemma {:induction false} FormatNatValue(n: nat)
    ensures Value(FormatNat(n)) == n
    ensures CanonicalDigits(FormatNat(n)) && (FormatNat(n)[0] == '0' <==> n == 0)
  {
    if n >= 10 {
      FormatNatValue(n / 10);
      var s := FormatNat(n);
      assert s[..|s| - 1] == FormatNat(n / 10);
    }
  }

  lemma {:induction false} ValueFormatNat(s: string)
    requires CanonicalDigits(s)
    ensures FormatNat(Value(s)) == s
    ensures s[0] != '0' ==> Value(s) > 0
  {
    if |s| > 1 {
      var init := s[..|s| - 1];
      ValueFormatNat(init);
      assert s == init + [s[|s| - 1]];
    }
  }

  lemma DigitsAreTrimmed(s: string)
    requires Digits(s)
    ensures Trimmed(s) && Trimmed("-" + s)
    ensures s[0] !in {'+', '-'}
  {
  }

  /** Parsing printed text gives the number back. */
  lemma ParseFormat(n: int)
    requires IsInt64(n)
    ensures ParseInt(FormatInt(n)) == Some(n)
    ensures Canonical(FormatInt(n)) && Trimmed(FormatInt(n))
  {
    var s := FormatNat(if n < 0 then -n else n);
    FormatNatValue(if n < 0 then -n else n);
    DigitsAreTrimmed(s);
    if n < 0 {
      assert FormatInt(n)[1..] == s;
    }
  }

  /** Printing a parsed number gives the text back exactly when the text was canonical. */
  lemma FormatParse(s: string)
    requires ParseInt(s).Some?
    ensures FormatInt(ParseInt(s).value) == s <==> Canonical(s)
  {
    var n := ParseInt(s).value;
    if Canonical(s) {
      if s[0] == '-' {
        ValueFormatNat(s[1..]);
        assert s == "-" + s[1..];
      } else {
        ValueFormatNat(s);
      }
    } else {
      ParseFormat(n);
    }
  }

  /** The longest prefix made of digits. */
  function LeadingDigits(s: string): (r: string)
    ensures |r| <= |s| && forall i :: 0 <= i < |r| ==> IsDigit(r[i])
  {
    if s != "" && IsDigit(s[0]) then [s[0]] + LeadingDigits(s[1..]) else ""
  }

  /**
   The number ParseInt hands back next to an error that the caller ignores:
   zero for malformed text, the nearest bound once the digits read so far
   overflow.
   */
  function ParseIntIgnoringError(s: string): (n: int)
    ensures IsInt64(n)
    ensures ParseInt(s).Some? ==> n == ParseInt(s).value
  {
    var signed := s != "" && s[0] in {'+', '-'};
    var body := if signed then s[1..] else s;
    var bound := if signed && s[0] == '-' then -TWO_63 else TWO_63 - 1;
    if ParseInt(s).Some? then ParseInt(s).value
    else if Digits(body) then bound
    else if Digits(LeadingDigits(body)) && Value(LeadingDigits(body)) >= 2 * TWO_63 then bound
    else 0
  }

  /** A sign in front: plus changes nothing, minus negates; only the smallest number has no positive counterpart. */
  lemma SignedText(ds: string)
    requires Digits(ds)
    ensures var n: int := Value(ds);
            && ParseInt("+" + ds) == ParseInt(ds) == (if n < TWO_63 then Some(n) else None)
            && ParseInt("-" + ds) == (if n <= TWO_63 then Some(-n) else None)
  {
    DigitsAreTrimmed(ds);
    var plus, minus := "+" + ds, "-" + ds;
    assert plus[0] == '+' && plus[1..] == ds && minus[0] == '-' && minus[1..] == ds;
  }

  lemma {:induction false} LeadingDigitsOf(ds: string, rest: string)
    requires (forall i :: 0 <= i < |ds| ==> IsDigit(ds[i])) && (rest == "" || !IsDigit(rest[0]))
    ensures LeadingDigits(ds + rest) == ds
  {
    if ds == "" {
      assert ds + rest == rest;
    } else {
      assert (ds + rest)[1..] == ds[1..] + rest;
      LeadingDigitsOf(ds[1..], rest);
    }
  }

  /** The sign and what follows it. */
  lemma SignApart(sign: string, body: string)
    requires sign in {"", "+", "-"} && (sign == "" ==> body == "" || body[0] !in {'+', '-'})
    ensures var s := sign + body; var signed := s != "" && s[0] in {'+', '-'};
            && (signed <==> sign != "") && (signed ==> s[1..] == body && (s[0] == '-' <==> sign == "-"))
            && (!signed ==> s == body)
  {
    if sign != "" {
      assert (sign + body)[0] == sign[0] && (sign + body)[1..] == body;
    }
  }

  lemma NoDigits(ds: string, rest: string)
    requires if rest == "" then ds == "" else !IsDigit(rest[0])
    ensures !Digits(ds + rest)
  {
    if rest != "" {
      assert (ds + rest)[|ds|] == rest[0];
    }
  }

  lemma JunkIs(sign: string, body: string, ds: string)
    requires sign in {"", "+", "-"} && (sign == "" ==> body == "" || body[0] !in {'+', '-'})
    requires !Digits(body) && LeadingDigits(body) == ds
    ensures ParseIntIgnoringError(sign + body) ==
            if !Digits(ds) || Value(ds) < 2 * TWO_63 then 0 else if sign == "-" then -TWO_63 else TWO_63 - 1
  {
    SignApart(sign, body);
  }

  /** Where the error is ignored, digits alone that are too large give the nearest bound. */
  lemma TooManyDigits(sign: string, ds: string)
    requires sign in {"", "+", "-"} && Digits(ds) && ParseInt(sign + ds).None?
    ensures ParseIntIgnoringError(sign + ds) == if sign == "-" then -TWO_63 else TWO_63 - 1
  {
    DigitsAreTrimmed(ds);
    SignApart(sign, ds);
  }

  /**
   Digits before something else give the bound only if they do not fit in 64 bits
   without a sign; all other text that is no number gives zero.
   */
  lemma JunkAfterDigits(sign: string, ds: string, rest: string)
    requires sign in {"", "+", "-"} && (ds == "" || Digits(ds))
    requires if rest == "" then ds == "" else !IsDigit(rest[0])
    requires sign == "" && ds == "" ==> rest == "" || rest[0] !in {'+', '-'}
    ensures var bound := if sign == "-" then -TWO_63 else TWO_63 - 1;
            ParseIntIgnoringError(sign + (ds + rest))
            == if ds != "" && Value(ds) >= 2 * TWO_63 then bound else 0
  {
    LeadingDigitsOf(ds, rest);
    NoDigits(ds, rest);
    JunkIs(sign, ds + rest, ds);
  }

  /** Two's complement truncation of an integer result to 64 bits. */
  function Wrap(n: int): (r: int)
    ensures IsInt64(r)
    ensures IsInt64(n) ==> r == n
  {
    (n + TWO_63) % (2 * TWO_63) - TWO_63
  }

  /** Integer division that truncates toward zero. */
  function TruncDiv(a: int, b: int): int
    requires b > 0
  {
    if a >= 0 then a / b else -(-a / b)
  }

  /** The quotient of the magnitudes, with the sign of a. */
  lemma TruncDivTowardZero(a: int, b: int)
    requires b > 0
    ensures TruncDiv(-a, b) == -TruncDiv(a, b)
    ensures a >= 0 ==> TruncDiv(a, b) == a / b
  {
  }
}
