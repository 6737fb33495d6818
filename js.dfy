/**
 * JavaScript values as the project store and the request handlers see them:
 * an object property that may be missing, null or set; truthiness; the white
 * space of ECMAScript; and the global function parseInt.
 */
module Js {

  /** One property of a JavaScript object: missing (`undefined`), `null`, or a value. */
  datatype Field<T> = Undefined | Null | Val(value: T)

  /** The answer of a lookup that yields `null` when nothing matches. */
  datatype Option<T> = None | Some(value: T)

  /** Truthiness of a string property: set, and not the empty string. */
  predicate TruthyString(f: Field<string>) {
    f.Val? && f.value != ""
  }

  /** Truthiness of a number property: set, and not zero. */
  predicate TruthyNumber(f: Field<int>) {
    f.Val? && f.value != 0
  }

  /** Truthiness of an array property: every array, the empty one included, is truthy. */
  predicate TruthyArray<T>(f: Field<seq<T>>) {
    f.Val?
  }

  /**
   * The characters ECMAScript counts as white space or line terminators: the
   * class `\s` of a regular expression, and what parseInt skips.
   */
  predicate IsWhitespace(c: char) {
    || c == '\t' || c == '\n' || c == '\U{B}' || c == '\U{C}' || c == '\r' || c == ' '
    || c == '\U{A0}' || c == '\U{1680}' || ('\U{2000}' <= c <= '\U{200A}')
    || c == '\U{2028}' || c == '\U{2029}' || c == '\U{202F}' || c == '\U{205F}'
    || c == '\U{3000}' || c == '\U{FEFF}'
  }

  /** A number that parseInt produces: NaN, which equals no number, or an integer. */
  datatype Parsed = NaN | Int(value: int)

  /** The string without its leading white space. */
  function TrimStart(s: string): (t: string)
    ensures |t| <= |s| && t == s[|s| - |t|..]
    ensures t == [] || !IsWhitespace(t[0])
    ensures forall i :: 0 <= i < |s| - |t| ==> IsWhitespace(s[i])
  {
    if s != [] && IsWhitespace(s[0]) then TrimStart(s[1..]) else s
  }

  /** The value of `c` as a digit of a radix up to 36, or 36 when `c` is no digit at all. */
  function DigitValue(c: char): nat {
    if '0' <= c <= '9' then c as int - '0' as int
    else if 'a' <= c <= 'z' then c as int - 'a' as int + 10
    else if 'A' <= c <= 'Z' then c as int - 'A' as int + 10
    else 36
  }

  /** The length of the longest prefix of `s` made of digits of the radix. */
  function DigitRun(s: string, radix: nat): (n: nat)
    ensures n <= |s|
    ensures forall i :: 0 <= i < n ==> DigitValue(s[i]) < radix
    ensures n < |s| ==> DigitValue(s[n]) >= radix
  {
    if s == [] || DigitValue(s[0]) >= radix then 0 else 1 + DigitRun(s[1..], radix)
  }

  /** The number that a run of digits denotes in the radix, most significant digit first. */
  function DigitsValue(s: string, radix: nat): nat {
    if s == [] then 0 else DigitsValue(s[..|s| - 1], radix) * radix + DigitValue(s[|s| - 1])
  }

  /**
   * parseInt(s) with no radix argument: skip leading white space, read an
   * optional sign, switch to radix 16 after a "0x" or "0X" prefix, and read
   * the longest run of digits; no digit at all gives NaN.
   */
  function ParseInt(s: string): (r: Parsed)
    ensures TrimStart(s) == [] ==> r == NaN
    ensures r.Int? && r.value < 0 ==> TrimStart(s) != [] && TrimStart(s)[0] == '-'
  {
    ParseSignedSign(TrimStart(s));
    ParseSigned(TrimStart(s))
  }

  /** Nothing gives NaN, and only a leading '-' gives a negative number. */
  lemma ParseSignedSign(t: string)
    ensures t == [] ==> ParseSigned(t) == NaN
    ensures ParseSigned(t).Int? && ParseSigned(t).value < 0 ==> t != [] && t[0] == '-'
  {
  }

  /** parseInt after the white space: an optional sign, then the unsigned numeral. */
  function ParseSigned(t: string): Parsed {
    if t != [] && t[0] == '-' then
      match ParseUnsigned(t[1..])
      case NaN => NaN
      case Int(v) => Int(-v)
    else if t != [] && t[0] == '+' then ParseUnsigned(t[1..])
    else ParseUnsigned(t)
  }

  /** The unsigned numeral: hexadecimal after "0x" or "0X", decimal otherwise. */
  function ParseUnsigned(u: string): Parsed {
    if |u| >= 2 && u[0] == '0' && (u[1] == 'x' || u[1] == 'X') then ParseDigits(u[2..], 16)
    else ParseDigits(u, 10)
  }

  /** The longest run of digits at the start of w, or NaN when there is none. */
  function ParseDigits(w: string, radix: nat): Parsed {
    var n := DigitRun(w, radix);
    if n == 0 then NaN else Int(DigitsValue(w[..n], radix))
  }

  /** The decimal digit character for d. */
  function DigitChar(d: nat): char
    requires d < 10
  {
    ('0' as int + d) as char
  }

  /** The decimal numeral of a natural number, as Number.prototype.toString writes it. */
  function DecimalString(n: nat): string
    decreases n
  {
    if n < 10 then [DigitChar(n)] else DecimalString(n / 10) + [DigitChar(n % 10)]
  }

  /** The decimal numeral of an integer, with a leading '-' when it is negative. */
  function IntString(n: int): string {
    if n < 0 then "-" + DecimalString(-n) else DecimalString(n)
  }

  /** A decimal numeral is a non-empty run of decimal digits, without a leading zero, that denotes n. */
  lemma {:induction false} DecimalStringDigits(n: nat)
    ensures |DecimalString(n)| >= 1
    ensures forall i :: 0 <= i < |DecimalString(n)| ==> DigitValue(DecimalString(n)[i]) < 10
    ensures DigitsValue(DecimalString(n), 10) == n
    ensures DecimalString(n)[0] == '0' ==> n == 0
    decreases n
  {
    if n >= 10 {
      DecimalStringDigits(n / 10);
      var s := DecimalString(n);
      assert s == DecimalString(n / 10) + [DigitChar(n % 10)];
      assert s[..|s| - 1] == DecimalString(n / 10);
      assert DigitValue(s[|s| - 1]) == n % 10;
      assert s[0] == DecimalString(n / 10)[0];
    }
  }

  /** Digits followed by anything: the run of digits covers the digits and continues into the rest. */
  lemma {:induction false} DigitRunAppend(ds: string, rest: string, radix: nat)
    requires forall i :: 0 <= i < |ds| ==> DigitValue(ds[i]) < radix
    ensures DigitRun(ds + rest, radix) == |ds| + DigitRun(rest, radix)
    decreases |ds|
  {
    if ds != [] {
      assert (ds + rest)[1..] == ds[1..] + rest;
      DigitRunAppend(ds[1..], rest, radix);
    } else {
      assert ds + rest == rest;
    }
  }

  /**
   * parseInt reads back the numeral of every integer, also when something
   * that is not a digit follows it. After "0" an 'x' or 'X' would start a
   * hexadecimal numeral instead, so that one continuation is excluded.
   */
  lemma ParseIntOfIntString(n: int, rest: string)
    requires rest == [] || (DigitValue(rest[0]) >= 10 && (n == 0 ==> rest[0] != 'x' && rest[0] != 'X'))
    ensures ParseInt(IntString(n) + rest) == Int(n)
  {
    var m: nat := if n < 0 then -n else n;
    var u := DecimalString(m) + rest;
    ParseUnsignedOfDecimal(m, rest);
    IntStringThen(n, rest);
    if n < 0 {
      ParseIntOfNegative(u);
    } else {
      ParseIntOfUnsigned(u);
    }
  }

  /** The numeral of n followed by rest: an optional '-', then the digits of |n|, then rest. */
  lemma IntStringThen(n: int, rest: string)
    ensures n < 0 ==> IntString(n) + rest == ['-'] + (DecimalString(-n) + rest)
    ensures n >= 0 ==> IntString(n) + rest == DecimalString(n) + rest
  {
    if n < 0 {
      assert IntString(n) == ['-'] + DecimalString(-n);
    }
  }

  /** A string that starts with neither white space nor a sign is read as an unsigned numeral. */
  lemma ParseIntOfUnsigned(u: string)
    requires u != [] && !IsWhitespace(u[0]) && u[0] != '-' && u[0] != '+'
    ensures ParseInt(u) == ParseUnsigned(u)
  {
    assert TrimStart(u) == u;
  }

  /** A '-' directly before an unsigned numeral negates it. */
  lemma ParseIntOfNegative(u: string)
    ensures ParseUnsigned(u).Int? ==> ParseInt(['-'] + u) == Int(-ParseUnsigned(u).value)
  {
    var t := ['-'] + u;
    assert t[1..] == u;
    assert !IsWhitespace(t[0]);
    assert TrimStart(t) == t;
  }

  /** The unsigned half of the round trip: the numeral of m, then no further digit. */
  lemma ParseUnsignedOfDecimal(m: nat, rest: string)
    requires rest == [] || (DigitValue(rest[0]) >= 10 && (m == 0 ==> rest[0] != 'x' && rest[0] != 'X'))
    ensures var u := DecimalString(m) + rest;
      && u != [] && !IsWhitespace(u[0]) && u[0] != '-' && u[0] != '+'
      && ParseUnsigned(u) == Int(m)
  {
    DecimalStringDigits(m);
    NumeralThenRest(DecimalString(m), rest);
  }

  /**
   * A decimal numeral without a leading zero, followed by something that is
   * neither a digit nor, after a lone "0", the 'x' of a hexadecimal prefix.
   */
  lemma NumeralThenRest(ds: string, rest: string)
    requires ds != [] && forall i :: 0 <= i < |ds| ==> DigitValue(ds[i]) < 10
    requires ds[0] == '0' ==> |ds| == 1
    requires rest == [] || (DigitValue(rest[0]) >= 10 && (ds[0] == '0' ==> rest[0] != 'x' && rest[0] != 'X'))
    ensures var u := ds + rest;
      && u != [] && !IsWhitespace(u[0]) && u[0] != '-' && u[0] != '+'
      && ParseUnsigned(u) == Int(DigitsValue(ds, 10))
  {
    var u := ds + rest;
    assert u[0] == ds[0];
    DigitIsNoSpace(ds[0]);
    DigitsThenRest(ds, rest, 10);
    if |u| >= 2 && u[0] == '0' {
      assert u[1] == rest[0];
    }
  }

  /** A decimal digit is neither white space nor a sign. */
  lemma DigitIsNoSpace(c: char)
    requires DigitValue(c) < 10
    ensures !IsWhitespace(c) && c != '-' && c != '+'
  {
  }

  /** A non-empty run of digits followed by something that is not a digit parses to the run's value. */
  lemma DigitsThenRest(ds: string, rest: string, radix: nat)
    requires ds != [] && forall i :: 0 <= i < |ds| ==> DigitValue(ds[i]) < radix
    requires rest == [] || DigitValue(rest[0]) >= radix
    ensures ParseDigits(ds + rest, radix) == Int(DigitsValue(ds, radix))
  {
    DigitRunAppend(ds, rest, radix);
    assert DigitRun(rest, radix) == 0;
    assert (ds + rest)[..|ds|] == ds;
  }

  /** Without a digit right at its start, the unsigned numeral is NaN. */
  lemma ParseUnsignedNoDigit(u: string)
    requires u == [] || DigitValue(u[0]) >= 10
    ensures ParseUnsigned(u) == NaN
  {
    assert DigitRun(u, 10) == 0;
  }

  /** A string without any decimal digit has no numeral at its start: parseInt gives NaN. */
  lemma ParseIntWithoutDigits(s: string)
    requires forall i :: 0 <= i < |s| ==> DigitValue(s[i]) >= 10
    ensures ParseInt(s) == NaN
  {
    var t := TrimStart(s);
    var k := |s| - |t|;
    if t != [] && (t[0] == '-' || t[0] == '+') {
      var u := t[1..];
      assert u != [] ==> u[0] == s[k + 1];
      ParseUnsignedNoDigit(u);
    } else {
      assert t != [] ==> t[0] == s[k];
      ParseUnsignedNoDigit(t);
    }
  }
}
