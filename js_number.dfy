/** The JavaScript conversions between strings and numbers that the dashboard relies on:
    `parseInt` without a radix, `parseFloat`, the `Number(string)` coercion done by `>` and
    `/`, and `Number.prototype.toFixed(2)` (ECMA-262, sections 19.2.4, 19.2.5, 7.1.4.1.1
    and 21.1.3.3). Exact real arithmetic stands in for IEEE doubles. */
module JsNumber {
  import opened Wrappers

  /** A JavaScript number. Finite values are exact; -0 is the same as 0. */
  datatype Number = NaN | Infinity(negative: bool) | Finite(value: real)

  /** The JavaScript comparison `x > y` for a number `x` and a finite `y` (false on NaN). */
  predicate GreaterThan(x: Number, y: real)
  {
    match x
    case NaN => false
    case Infinity(negative) => !negative
    case Finite(v) => v > y
  }

  /** The code points that string-to-number conversion trims: WhiteSpace and LineTerminator. */
  predicate IsStrWhiteSpace(c: char)
  {
    c == '\t' || c == '\n' || c == '\U{B}' || c == '\U{C}' || c == '\r' || c == ' '
    || c == '\U{A0}' || c == '\U{1680}' || ('\U{2000}' <= c <= '\U{200A}')
    || c == '\U{2028}' || c == '\U{2029}' || c == '\U{202F}' || c == '\U{205F}'
    || c == '\U{3000}' || c == '\U{FEFF}'
  }

  /** `s` without its leading white space. */
  function TrimStart(s: string): (t: string)
    ensures |t| <= |s|
    ensures t == [] || !IsStrWhiteSpace(t[0])
  {
    if s == [] || !IsStrWhiteSpace(s[0]) then s else TrimStart(s[1..])
  }

  /** `s` without its trailing white space. */
  function TrimEnd(s: string): (t: string)
    ensures |t| <= |s|
    ensures t == [] || !IsStrWhiteSpace(t[|t| - 1])
  {
    if s == [] || !IsStrWhiteSpace(s[|s| - 1]) then s else TrimEnd(s[..|s| - 1])
  }

  /** The value of `c` as a digit ('0'-'9', then 'a'-'z' or 'A'-'Z' from ten on), or 36 when it is none. */
  function DigitValue(c: char): (d: nat)
    ensures d <= 36
    ensures d < 10 <==> '0' <= c <= '9'
  {
    if '0' <= c <= '9' then c as int - '0' as int
    else if 'a' <= c <= 'z' then c as int - 'a' as int + 10
    else if 'A' <= c <= 'Z' then c as int - 'A' as int + 10
    else 36
  }

  predicate IsDigit(c: char, radix: nat)
  {
    DigitValue(c) < radix
  }

  /** The length of the longest prefix of `s` made of digits of `radix`. */
  function DigitRun(s: string, radix: nat): (n: nat)
    ensures n <= |s|
  {
    if s == [] || !IsDigit(s[0], radix) then 0 else 1 + DigitRun(s[1..], radix)
  }

  /** The value of a string of digits of `radix`, most significant first. */
  function DigitsValue(s: string, radix: nat): nat
  {
    if s == [] then 0 else DigitsValue(s[..|s| - 1], radix) * radix + DigitValue(s[|s| - 1])
  }

  /** The decimal digit character for `d`. */
  function DigitChar(d: nat): (c: char)
    requires d < 10
    ensures IsDigit(c, 10) && DigitValue(c) == d
  {
    ('0' as int + d) as char
  }

  /** The decimal text of `n` without leading zeros ("0" for zero), as JavaScript prints an integer. */
  function NatText(n: nat): (s: string)
    ensures |s| > 0 && forall i :: 0 <= i < |s| ==> IsDigit(s[i], 10)
    ensures (s[0] == '0') == (n == 0)
    ensures DigitsValue(s, 10) == n
  {
    if n < 10 then [DigitChar(n)]
    else
      var s := NatText(n / 10) + [DigitChar(n % 10)];
      assert s[..|s| - 1] == NatText(n / 10);
      s
  }

  /** The decimal text of an integer, with a leading '-' when it is negative. */
  function IntText(i: int): string
  {
    if i < 0 then "-" + NatText(-i) else NatText(i)
  }

  /** The unsigned part of `parseInt`: a "0x" or "0X" prefix selects radix 16 (radix 10
      otherwise), then the longest run of digits is read; None when there is no digit. */
  function ParseUnsignedInt(u: string): Option<nat>
  {
    var hex := |u| >= 2 && u[0] == '0' && (u[1] == 'x' || u[1] == 'X');
    var radix := if hex then 16 else 10;
    var body := if hex then u[2..] else u;
    var n := DigitRun(body, radix);
    if n == 0 then None else Some(DigitsValue(body[..n], radix))
  }

  /** `parseInt(s)` with no radix: skip leading white space, read an optional sign, then the
      unsigned part; with no digit at all the result is NaN, here None. */
  function ParseInt(s: string): Option<int>
  {
    var t := TrimStart(s);
    var negative := |t| > 0 && t[0] == '-';
    var unsigned := if |t| > 0 && (t[0] == '-' || t[0] == '+') then t[1..] else t;
    match ParseUnsignedInt(unsigned)
    case None => None
    case Some(magnitude) => Some(if negative then -(magnitude as int) else magnitude)
  }

  /** 10 to the power `k`. */
  function Pow10(k: nat): (p: nat)
    ensures p >= 1
  {
    if k == 0 then 1 else 10 * Pow10(k - 1)
  }

  /** 10 to the power `e`, for any integer exponent. */
  function Scale(e: int): (r: real)
    ensures r > 0.0
  {
    if e >= 0 then Pow10(e) as real else 1.0 / Pow10(-e) as real
  }

  /** A numeric literal read from the front of a string: its value and how many characters it took. */
  datatype Literal = Literal(number: Number, length: nat)

  /** An ExponentPart at the front of `s` ('e' or 'E', an optional sign, at least one digit):
      its value and its length; (0, 0) when `s` does not start with one. */
  function ScanExponent(s: string): (r: (int, nat))
    ensures r.1 <= |s|
    ensures r.1 == 0 ==> r.0 == 0
  {
    if |s| < 2 || !(s[0] == 'e' || s[0] == 'E') then (0, 0)
    else
      var signed := s[1] == '+' || s[1] == '-';
      var digits := if signed then s[2..] else s[1..];
      var k := DigitRun(digits, 10);
      if k == 0 then (0, 0)
      else
        var v: int := DigitsValue(digits[..k], 10);
        (if s[1] == '-' then -v else v, (if signed then 2 else 1) + k)
  }

  /** A decimal mantissa: the value of all its digits, how many of them follow the '.', and
      how many characters it took. */
  datatype Mantissa = Mantissa(digits: nat, fraction: nat, length: nat)

  /** The longest mantissa at the front of `u`: digits, then an optional '.' and fraction
      digits, with at least one digit in all; None when `u` does not start with one. */
  function ScanMantissa(u: string): (r: Option<Mantissa>)
    ensures r.Some? ==> 0 < r.value.length <= |u|
  {
    var a := DigitRun(u, 10);
    var dot := a < |u| && u[a] == '.';
    var b := if dot then DigitRun(u[a + 1..], 10) else 0;
    if a == 0 && b == 0 then None
    else
      var digits := if dot then u[..a] + u[a + 1..a + 1 + b] else u[..a];
      Some(Mantissa(DigitsValue(digits, 10), b, if dot then a + 1 + b else a))
  }

  /** The longest StrUnsignedDecimalLiteral at the front of `u` ("Infinity", or a mantissa
      with an optional exponent), given the sign read before it. */
  function ScanUnsigned(u: string, negative: bool): (r: Option<Literal>)
    ensures r.Some? ==> 0 < r.value.length <= |u|
  {
    if |u| >= 8 && u[..8] == "Infinity" then Some(Literal(Infinity(negative), 8))
    else
      match ScanMantissa(u)
      case None => None
      case Some(m) =>
        var exponent := ScanExponent(u[m.length..]);
        var magnitude := m.digits as real * Scale(exponent.0 - m.fraction);
        Some(Literal(Finite(if negative then -magnitude else magnitude), m.length + exponent.1))
  }

  /** The longest prefix of `s` that is a StrDecimalLiteral: an optional sign, then an
      unsigned literal. None when no prefix is one. */
  function ScanDecimalLiteral(s: string): (r: Option<Literal>)
    ensures r.Some? ==> 0 < r.value.length <= |s|
  {
    var signLength := if |s| > 0 && (s[0] == '+' || s[0] == '-') then 1 else 0;
    match ScanUnsigned(s[signLength..], signLength == 1 && s[0] == '-')
    case None => None
    case Some(literal) => Some(Literal(literal.number, signLength + literal.length))
  }

  /** `parseFloat(s)`: skip leading white space and read the longest decimal literal;
      NaN when there is none. Whatever follows the literal is ignored. */
  function ParseFloat(s: string): Number
  {
    match ScanDecimalLiteral(TrimStart(s))
    case None => NaN
    case Some(literal) => literal.number
  }

  /** `Number(s)`, the coercion JavaScript applies to a string operand of `>` or `/`: white
      space around the text is ignored, the empty text is 0, and anything but one whole
      decimal literal is NaN. */
  function StringToNumber(s: string): Number
  {
    var t := TrimEnd(TrimStart(s));
    if t == [] then Finite(0.0)
    else
      match ScanDecimalLiteral(t)
      case None => NaN
      case Some(literal) => if literal.length == |t| then literal.number else NaN
  }

  /** |v| * 100 rounded to the nearest integer, ties upward: the `n` of `toFixed(2)`. */
  function Cents(v: real): (n: nat)
    ensures var a := if v < 0.0 then -v else v;
            n as real - 0.5 <= a * 100.0 < n as real + 0.5
  {
    var a := if v < 0.0 then -v else v;
    var n := (a * 100.0 + 0.5).Floor;
    assert n >= 0 by {
      assert 0.0 <= a * 100.0 + 0.5;
    }
    n
  }

  /** `x.toFixed(2)`: NaN and the infinities print by name; a finite value prints a '-'
      when it is negative, then the text of `Cents(v)` hundredths. */
  function ToFixed2(x: Number): string
  {
    match x
    case NaN => "NaN"
    case Infinity(negative) => if negative then "-Infinity" else "Infinity"
    case Finite(v) =>
      (if v < 0.0 then "-" else "") + CentsText(Cents(v))
  }

  /** The unsigned text of `n` hundredths with exactly two decimals. */
  function CentsText(n: nat): string
  {
    NatText(n / 100) + "." + [DigitChar(n / 10 % 10), DigitChar(n % 10)]
  }

  /** The number `x` rounded to hundredths the way `toFixed(2)` rounds it. */
  function RoundToCents(x: Number): (r: Number)
    ensures r.NaN? == x.NaN? && r.Infinity? == x.Infinity?
    ensures x.Infinity? ==> r == x
    ensures x.Finite? ==> -0.005 <= r.value - x.value <= 0.005
  {
    match x
    case Finite(v) =>
      var magnitude := Cents(v) as real / 100.0;
      Finite(if v < 0.0 then -magnitude else magnitude)
    case _ => x
  }

  /** `TrimStart` removes a prefix made only of white space. */
  lemma {:induction false} TrimStartDropsOnlyWhiteSpace(s: string)
    ensures var t := TrimStart(s);
            t == s[|s| - |t|..] && forall i :: 0 <= i < |s| - |t| ==> IsStrWhiteSpace(s[i])
  {
    if s != [] && IsStrWhiteSpace(s[0]) {
      TrimStartDropsOnlyWhiteSpace(s[1..]);
    }
  }

  /** `TrimEnd` removes a suffix made only of white space. */
  lemma {:induction false} TrimEndDropsOnlyWhiteSpace(s: string)
    ensures var t := TrimEnd(s);
            t == s[..|t|] && forall i :: |t| <= i < |s| ==> IsStrWhiteSpace(s[i])
  {
    if s != [] && IsStrWhiteSpace(s[|s| - 1]) {
      TrimEndDropsOnlyWhiteSpace(s[..|s| - 1]);
    }
  }

  /** `DigitRun` is the longest prefix of digits: all of it are digits, and what follows is not. */
  lemma {:induction false} DigitRunIsLongest(s: string, radix: nat)
    ensures var n := DigitRun(s, radix);
            (forall i :: 0 <= i < n ==> IsDigit(s[i], radix)) && (n < |s| ==> !IsDigit(s[n], radix))
  {
    if s != [] && IsDigit(s[0], radix) {
      DigitRunIsLongest(s[1..], radix);
    }
  }

  /** A run of digits followed by more text: the run is read whole, then whatever digits follow. */
  lemma {:induction false} DigitRunAppend(d: string, rest: string, radix: nat)
    requires forall i :: 0 <= i < |d| ==> IsDigit(d[i], radix)
    ensures DigitRun(d + rest, radix) == |d| + DigitRun(rest, radix)
  {
    if d != [] {
      assert (d + rest)[1..] == d[1..] + rest;
      DigitRunAppend(d[1..], rest, radix);
    } else {
      assert d + rest == rest;
    }
  }

  /** One more digit multiplies the value by the radix and adds the digit. */
  lemma {:induction false} DigitsValueSnoc(s: string, c: char, radix: nat)
    ensures DigitsValue(s + [c], radix) == DigitsValue(s, radix) * radix + DigitValue(c)
  {
    assert (s + [c])[..|s|] == s;
  }

  /** Leading white space never changes what is read. */
  lemma {:induction false} TrimStartSkipsWhiteSpace(w: string, s: string)
    requires forall i :: 0 <= i < |w| ==> IsStrWhiteSpace(w[i])
    ensures TrimStart(w + s) == TrimStart(s)
  {
    if w != [] {
      assert (w + s)[1..] == w[1..] + s;
      TrimStartSkipsWhiteSpace(w[1..], s);
    } else {
      assert w + s == s;
    }
  }

  /** The unsigned part of `parseInt` reads back the decimal text of a natural number. */
  lemma {:induction false} ParseUnsignedIntReadsNatText(n: nat, rest: string)
    requires rest == [] || (!IsDigit(rest[0], 10) && (n != 0 || (rest[0] != 'x' && rest[0] != 'X')))
    ensures ParseUnsignedInt(NatText(n) + rest) == Some(n)
  {
    var digits := NatText(n);
    var u := digits + rest;
    if |u| >= 2 && u[0] == '0' {
      assert |digits| == 1 by {
        assert n == 0;
      }
      assert u[1] == rest[0];
    }
    DigitRunAppend(digits, rest, 10);
    assert u[..|digits|] == digits;
  }

  /** `parseInt` of a text without leading white space is its sign applied to its unsigned part. */
  lemma {:induction false} ParseIntOfSignedText(s: string, i: int)
    requires |s| > 0 && TrimStart(s) == s && (s[0] == '-') == (i < 0)
    requires ParseUnsignedInt(if s[0] == '-' || s[0] == '+' then s[1..] else s) == Some(if i < 0 then -i else i)
    ensures ParseInt(s) == Some(i)
  {
  }

  /** `parseInt` reads back the decimal text of any integer, whatever non-digit text follows
      it (for zero, other than an 'x' that would make "0x" a radix prefix). */
  lemma {:induction false} ParseIntReadsIntText(i: int, rest: string)
    requires rest == [] || (!IsDigit(rest[0], 10) && (i != 0 || (rest[0] != 'x' && rest[0] != 'X')))
    ensures ParseInt(IntText(i) + rest) == Some(i)
  {
    var magnitude := if i < 0 then -i else i;
    var s := IntText(i) + rest;
    SignedTextShape(i, rest);
    ParseUnsignedIntReadsNatText(magnitude, rest);
    ParseIntOfSignedText(s, i);
  }

  /** The text of an integer followed by more text starts with '-' exactly when the integer is
      negative, has no white space to skip, and after the sign holds the digits of its magnitude. */
  lemma {:induction false} SignedTextShape(i: int, rest: string)
    ensures var s := IntText(i) + rest;
            |s| > 0 && TrimStart(s) == s && (s[0] == '-') == (i < 0)
            && (if s[0] == '-' || s[0] == '+' then s[1..] else s) == NatText(if i < 0 then -i else i) + rest
  {
    var s := IntText(i) + rest;
    if i < 0 {
      assert s == "-" + (NatText(-i) + rest);
      StartsWithSignOrDigit(s);
    } else {
      DigitsFirst(NatText(i), rest);
      StartsWithSignOrDigit(s);
    }
  }

  /** Digits followed by more text start with a digit. */
  lemma {:induction false} DigitsFirst(d: string, rest: string)
    requires d != [] && forall i :: 0 <= i < |d| ==> IsDigit(d[i], 10)
    ensures (d + rest)[0] == d[0] && IsDigit((d + rest)[0], 10)
  {
  }

  /** A text that starts with '-' or a digit has no white space to skip. */
  lemma {:induction false} StartsWithSignOrDigit(s: string)
    requires s != [] && (s[0] == '-' || IsDigit(s[0], 10))
    ensures TrimStart(s) == s
  {
  }

  /** The mantissa of a two-decimal text is read whole: its digits spell `q * 100 + f`. */
  lemma {:induction false} ScanMantissaOfFixedText(q: nat, f: nat)
    requires f < 100
    ensures var u := NatText(q) + "." + [DigitChar(f / 10), DigitChar(f % 10)];
            ScanMantissa(u) == Some(Mantissa(q * 100 + f, 2, |u|))
  {
    var d1, d2 := DigitChar(f / 10), DigitChar(f % 10);
    ScanMantissaOfTwoDecimals(NatText(q), d1, d2);
    assert DigitValue(d1) * 10 + DigitValue(d2) == f;
  }

  /** Digits, a '.', and two more digits are read whole as one mantissa with two decimals. */
  lemma {:induction false} ScanMantissaOfTwoDecimals(w: string, d1: char, d2: char)
    requires forall i :: 0 <= i < |w| ==> IsDigit(w[i], 10)
    requires IsDigit(d1, 10) && IsDigit(d2, 10)
    ensures ScanMantissa(w + "." + [d1, d2])
            == Some(Mantissa(DigitsValue(w, 10) * 100 + DigitValue(d1) * 10 + DigitValue(d2), 2, |w| + 3))
  {
    var u := w + "." + [d1, d2];
    var a := |w|;
    DigitsThenDecimals(w, d1, d2);
    assert u[..a] + u[a + 1..a + 3] == w + [d1] + [d2];
    DigitsValueSnoc(w, d1, 10);
    DigitsValueSnoc(w + [d1], d2, 10);
  }

  /** In digits, a '.', and two more digits, the integer run ends at the '.' and the
      fraction run takes both decimals. */
  lemma {:induction false} DigitsThenDecimals(w: string, d1: char, d2: char)
    requires forall i :: 0 <= i < |w| ==> IsDigit(w[i], 10)
    requires IsDigit(d1, 10) && IsDigit(d2, 10)
    ensures var u := w + "." + [d1, d2];
            DigitRun(u, 10) == |w| && u[|w|] == '.' && u[|w| + 1..] == [d1, d2]
            && DigitRun(u[|w| + 1..], 10) == 2
  {
    var u := w + "." + [d1, d2];
    assert u == w + ("." + [d1, d2]);
    DigitRunAppend(w, "." + [d1, d2], 10);
    assert DigitRun("." + [d1, d2], 10) == 0;
    assert DigitRun([d1, d2], 10) == 2;
  }

  /** The hundreds, tens and units of a count of hundredths. */
  lemma {:induction false} CentsDigits(n: nat)
    ensures n % 100 / 10 == n / 10 % 10 && n % 100 % 10 == n % 10 && n / 100 * 100 + n % 100 == n
  {
    var q, r := n / 100, n % 100;
    var t, u := r / 10, r % 10;
    assert n == 100 * q + r && r == 10 * t + u;
    assert n == 10 * (10 * q + t) + u;
    assert n / 10 == 10 * q + t && n % 10 == u;
    assert (10 * q + t) % 10 == t;
  }

  /** An unsigned two-decimal text is one whole literal with value `n / 100`. */
  lemma {:induction false} ScanUnsignedOfFixedText(n: nat, negative: bool)
    ensures var u := CentsText(n);
            var magnitude := n as real / 100.0;
            ScanUnsigned(u, negative) == Some(Literal(Finite(if negative then -magnitude else magnitude), |u|))
  {
    var u := CentsText(n);
    assert ScanMantissa(u) == Some(Mantissa(n, 2, |u|)) by {
      CentsDigits(n);
      ScanMantissaOfFixedText(n / 100, n % 100);
    }
    assert !(|u| >= 8 && u[..8] == "Infinity") by {
      assert IsDigit(u[0], 10);
    }
    ScanUnsignedOfTwoDecimals(u, n, negative);
  }

  /** A text that is one whole mantissa with two decimals and no exponent is one literal,
      worth its digits over a hundred. */
  lemma {:induction false} ScanUnsignedOfTwoDecimals(u: string, n: nat, negative: bool)
    requires ScanMantissa(u) == Some(Mantissa(n, 2, |u|))
    requires !(|u| >= 8 && u[..8] == "Infinity")
    ensures var magnitude := n as real / 100.0;
            ScanUnsigned(u, negative) == Some(Literal(Finite(if negative then -magnitude else magnitude), |u|))
  {
    assert ScanExponent(u[|u|..]) == (0, 0) by {
      assert u[|u|..] == [];
    }
    assert Scale(-2) == 1.0 / 100.0 by {
      assert Pow10(2) == 100;
    }
  }

  /** A literal after an optional '-' is read with that sign, when no second sign follows. */
  lemma {:induction false} ScanSignedLiteral(u: string, negative: bool)
    requires u != [] && IsDigit(u[0], 10)
    ensures var s := (if negative then "-" else "") + u;
            ScanDecimalLiteral(s) == match ScanUnsigned(u, negative)
                                     case None => None
                                     case Some(l) => Some(Literal(l.number, |s| - |u| + l.length))
  {
    var s := (if negative then "-" else "") + u;
    if negative {
      assert s[1..] == u;
    } else {
      assert s[0] != '-' && s[0] != '+';
    }
  }

  /** Trimming leaves a text alone when it neither starts nor ends with white space. */
  lemma {:induction false} NothingToTrim(s: string)
    requires s != [] && !IsStrWhiteSpace(s[0]) && !IsStrWhiteSpace(s[|s| - 1])
    ensures TrimStart(s) == s && TrimEnd(s) == s
  {
  }

  /** A text that begins with a sign or a digit and ends with a digit has nothing to trim. */
  lemma {:induction false} SignedTextNothingToTrim(u: string, negative: bool)
    requires u != [] && IsDigit(u[0], 10) && IsDigit(u[|u| - 1], 10)
    ensures var s := (if negative then "-" else "") + u;
            s != [] && TrimStart(s) == s && TrimEnd(s) == s
  {
    var s := (if negative then "-" else "") + u;
    assert s[0] == '-' || s[0] == u[0];
    assert s[|s| - 1] == u[|u| - 1];
    NothingToTrim(s);
  }

  /** A signed text whose unsigned part is one whole literal is itself one whole literal. */
  lemma {:induction false} SignedWholeLiteral(u: string, negative: bool, magnitude: real)
    requires u != [] && IsDigit(u[0], 10)
    requires ScanUnsigned(u, negative) == Some(Literal(Finite(if negative then -magnitude else magnitude), |u|))
    ensures var s := (if negative then "-" else "") + u;
            ScanDecimalLiteral(s) == Some(Literal(Finite(if negative then -magnitude else magnitude), |s|))
  {
    ScanSignedLiteral(u, negative);
  }

  /** The text `toFixed(2)` prints for a finite number has no white space around it. */
  lemma {:induction false} FixedTextNothingToTrim(v: real)
    ensures var s := ToFixed2(Finite(v));
            s != [] && TrimStart(s) == s && TrimEnd(s) == s
  {
    var u := CentsText(Cents(v));
    assert IsDigit(u[0], 10) && IsDigit(u[|u| - 1], 10);
    SignedTextNothingToTrim(u, v < 0.0);
  }

  /** A signed two-decimal text of `n` hundredths is one whole literal worth `n / 100`. */
  lemma {:induction false} FixedTextOfCents(n: nat, negative: bool)
    ensures var s := (if negative then "-" else "") + CentsText(n);
            var magnitude := n as real / 100.0;
            ScanDecimalLiteral(s) == Some(Literal(Finite(if negative then -magnitude else magnitude), |s|))
  {
    var u := CentsText(n);
    assert IsDigit(u[0], 10);
    ScanUnsignedOfFixedText(n, negative);
    SignedWholeLiteral(u, negative, n as real / 100.0);
  }

  /** `toFixed(2)` and `RoundToCents` both work from the same count of hundredths. */
  lemma {:induction false} FiniteInCents(v: real)
    ensures var magnitude := Cents(v) as real / 100.0;
            ToFixed2(Finite(v)) == (if v < 0.0 then "-" else "") + CentsText(Cents(v))
            && RoundToCents(Finite(v)) == Finite(if v < 0.0 then -magnitude else magnitude)
  {
  }

  /** The text `toFixed(2)` prints for a finite number is one whole literal, worth the
      number rounded to hundredths. */
  lemma {:induction false} FixedTextOfFinite(v: real)
    ensures var s := ToFixed2(Finite(v));
            ScanDecimalLiteral(s) == Some(Literal(RoundToCents(Finite(v)), |s|))
  {
    FiniteInCents(v);
    FixedTextOfCents(Cents(v), v < 0.0);
  }

  /** A text that is one whole literal, without white space around it, is read the same
      by `parseFloat` and by `Number`. */
  lemma {:induction false} WholeLiteralRead(s: string, x: Number)
    requires s != [] && TrimStart(s) == s && TrimEnd(s) == s
    requires ScanDecimalLiteral(s) == Some(Literal(x, |s|))
    ensures ParseFloat(s) == x && StringToNumber(s) == x
  {
  }

  /** What `parseFloat` and `Number` both read back from the text `toFixed(2)` printed:
      the number rounded to hundredths. */
  lemma {:induction false} ToFixed2RoundTrip(x: Number)
    ensures ParseFloat(ToFixed2(x)) == RoundToCents(x)
    ensures StringToNumber(ToFixed2(x)) == RoundToCents(x)
  {
    var s := ToFixed2(x);
    match x
    case NaN =>
      assert TrimStart(s) == s && TrimEnd(s) == s;
      assert DigitRun(s, 10) == 0;
    case Infinity(negative) =>
      assert TrimStart(s) == s && TrimEnd(s) == s;
      var signLength := if negative then 1 else 0;
      assert s[signLength..][..8] == "Infinity";
      WholeLiteralRead(s, x);
    case Finite(v) =>
      FixedTextNothingToTrim(v);
      FixedTextOfFinite(v);
      WholeLiteralRead(s, RoundToCents(x));
  }
}
