/** Which strings are numbers, and of which value: the readers of Text against the form of numerals. */
module TextNumbers {
  import opened Wrappers
  import opened Text

  predicate AllSpace(s: string) {
    forall i :: 0 <= i < |s| ==> IsSpace(s[i])
  }

  predicate IsSign(s: string) { s == "" || s == "+" || s == "-" }

  function Signed(sign: string, n: int): int { if sign == "-" then -n else n }

  predicate Numeral(s: string) { s != "" && AllDigits(s) }

  // ---------------------------------------------------------------- blanks and signs

  lemma {:induction false} SkipBlanks(blanks: string, rest: string)
    requires AllSpace(blanks) && (rest == "" || !IsSpace(rest[0]))
    ensures SkipSpace(blanks + rest) == rest
  {
    if blanks == "" {
      assert blanks + rest == rest;
    } else {
      assert (blanks + rest)[1..] == blanks[1..] + rest;
      SkipBlanks(blanks[1..], rest);
    }
  }

  lemma {:induction false} BlanksBefore(value: string) returns (blanks: string)
    ensures AllSpace(blanks) && value == blanks + SkipSpace(value)
    ensures SkipSpace(value) == "" || !IsSpace(SkipSpace(value)[0])
  {
    hide IsSpace;
    if value != "" && IsSpace(value[0]) {
      var rest := BlanksBefore(value[1..]);
      blanks := [value[0]] + rest;
      assert value == [value[0]] + value[1..];
      assert [value[0]] + (rest + SkipSpace(value)) == blanks + SkipSpace(value);
    } else {
      blanks := "";
    }
  }

  /** The sign a text starts with. */
  function SignOf(text: string): (sign: string)
    ensures IsSign(sign) && sign <= text
  {
    if text != "" && (text[0] == '-' || text[0] == '+') then [text[0]] else ""
  }

  lemma SignedText(sign: string, text: string)
    requires IsSign(sign) && text != "" && text[0] != '-' && text[0] != '+'
    ensures SignOf(sign + text) == sign && (sign + text)[|sign|..] == text
  {
  }

  // ---------------------------------------------------------------- integers

  /** Blanks, a sign or none, and digits. */
  ghost predicate WritesInt(value: string, n: int) {
    exists blanks, sign, digits :: IntParts(value, blanks, sign, digits) && n == Signed(sign, Value(digits))
  }

  ghost predicate IntParts(value: string, blanks: string, sign: string, digits: string) {
    AllSpace(blanks) && IsSign(sign) && Numeral(digits) && value == blanks + sign + digits
  }

  lemma IntOfParts(value: string, blanks: string, sign: string, digits: string)
    requires IntParts(value, blanks, sign, digits)
    ensures var n := Signed(sign, Value(digits));
      ParseInt(value) == if INT_MIN <= n <= INT_MAX then Some(n) else None
  {
    var body := sign + digits;
    assert value == blanks + body;
    assert IsDigit(digits[0]);
    SkipBlanks(blanks, body);
    SignedText(sign, digits);
    hide Value, AllDigits;
  }

  lemma PartsOfInt(value: string) returns (blanks: string, sign: string, digits: string)
    requires ParseInt(value).Some?
    ensures IntParts(value, blanks, sign, digits)
  {
    hide Value, SkipSpace, AllSpace, AllDigits;
    blanks := BlanksBefore(value);
    var body := SkipSpace(value);
    sign := SignOf(body);
    digits := body[|sign|..];
    assert body == sign + digits;
    assert blanks + (sign + digits) == blanks + sign + digits;
  }

  /** A string reads as an integer exactly when it is blanks, a sign or none, and the digits of that integer,
      within 32 bits. */
  lemma ParseIntIff(value: string, n: int)
    ensures ParseInt(value) == Some(n) <==> WritesInt(value, n) && -0x8000_0000 <= n < 0x8000_0000
  {
    hide ParseInt;
    if ParseInt(value).Some? {
      var blanks, sign, digits := PartsOfInt(value);
      IntOfParts(value, blanks, sign, digits);
    }
    if WritesInt(value, n) {
      var blanks, sign, digits :| IntParts(value, blanks, sign, digits) && n == Signed(sign, Value(digits));
      IntOfParts(value, blanks, sign, digits);
    }
  }

  // ---------------------------------------------------------------- doubles

  /** A sign or none, and digits. */
  ghost predicate WritesExponent(text: string, e: int) {
    exists sign, digits :: IsSign(sign) && Numeral(digits) && text == sign + digits && e == Signed(sign, Value(digits))
  }

  lemma ExponentIff(text: string, e: int)
    ensures Exponent(text) == Some(e) <==> WritesExponent(text, e)
  {
    hide Value;
    var mark := SignOf(text);
    if Exponent(text).Some? {
      assert text == mark + text[|mark|..] && Numeral(text[|mark|..]);
      assert WritesExponent(text, Exponent(text).value);
    }
    if WritesExponent(text, e) {
      var sign, digits :|
        IsSign(sign) && Numeral(digits) && text == sign + digits && e == Signed(sign, Value(digits));
      assert IsDigit(digits[0]);
      SignedText(sign, digits);
    }
  }

  function Base(hex: bool): (b: nat)
    ensures b > 0
  {
    if hex then 16 else 10
  }

  predicate Digits(s: string, hex: bool) { if hex then AllHexDigits(s) else AllDigits(s) }

  function NumberOf(s: string, hex: bool): nat
    requires Digits(s, hex)
  {
    if hex then HexValue(s) else Value(s)
  }

  function Ratio(n: nat, unit: nat): real
    requires unit > 0
  {
    n as real / unit as real
  }

  ghost predicate MantissaParts(text: string, hex: bool, whole: string, point: string, fraction: string) {
    && (point == "." || (point == "" && fraction == "")) && whole + fraction != ""
    && Digits(whole + fraction, hex) && text == whole + point + fraction
  }

  /** Digits with at most one point among them: the digits' number over the base for each digit after the point. */
  ghost predicate WritesMantissa(text: string, hex: bool, x: real) {
    exists whole, point, fraction :: MantissaParts(text, hex, whole, point, fraction)
        && x == Ratio(NumberOf(whole + fraction, hex), Power(Base(hex), |fraction|))
  }

  lemma SplitDigits(whole: string, fraction: string, hex: bool)
    ensures Digits(whole + fraction, hex) <==> Digits(whole, hex) && Digits(fraction, hex)
  {
    var all := whole + fraction;
    assert forall i :: 0 <= i < |whole| ==> all[i] == whole[i];
    assert forall i :: 0 <= i < |fraction| ==> all[|whole| + i] == fraction[i];
  }

  lemma Shift(base: nat, v: nat, p: nat, w: nat, d: nat)
    ensures base * (v * p + w) + d == v * (base * p) + (base * w + d)
  {
  }

  lemma {:induction false} NumberConcat(whole: string, fraction: string, hex: bool)
    requires Digits(whole, hex) && Digits(fraction, hex) && Digits(whole + fraction, hex)
    ensures NumberOf(whole + fraction, hex)
        == NumberOf(whole, hex) * Power(Base(hex), |fraction|) + NumberOf(fraction, hex)
    decreases |fraction|
  {
    if fraction == "" {
      assert whole + fraction == whole;
    } else {
      var front, last := fraction[..|fraction| - 1], fraction[|fraction| - 1];
      var all := whole + fraction;
      assert all[..|all| - 1] == whole + front && all[|all| - 1] == last;
      SplitDigits(whole, front, hex);
      NumberConcat(whole, front, hex);
      var d := NumberOf(fraction, hex) - Base(hex) * NumberOf(front, hex);
      Shift(Base(hex), NumberOf(whole, hex), Power(Base(hex), |front|), NumberOf(front, hex), d);
    }
  }

  lemma FractionIs(v: nat, p: nat, w: nat, n: nat)
    requires p > 0 && n == v * p + w
    ensures Fraction(v, w, p) == Ratio(n, p)
  {
    var x, y := v as real, p as real;
    assert n as real == x * y + w as real;
    assert (x * y + w as real) / y == x + w as real / y;
  }

  lemma JoinedFraction(whole: string, fraction: string, hex: bool)
    requires Digits(whole, hex) && Digits(fraction, hex) && Digits(whole + fraction, hex)
    ensures Fraction(NumberOf(whole, hex), NumberOf(fraction, hex), Power(Base(hex), |fraction|))
        == Ratio(NumberOf(whole + fraction, hex), Power(Base(hex), |fraction|))
  {
    hide NumberOf, Power, Digits, Fraction, Ratio;
    NumberConcat(whole, fraction, hex);
    FractionIs(NumberOf(whole, hex), Power(Base(hex), |fraction|), NumberOf(fraction, hex),
               NumberOf(whole + fraction, hex));
  }

  lemma PointFree(s: string, hex: bool)
    requires Digits(s, hex)
    ensures Free(s, '.')
  {
  }

  lemma CutAtPoint(text: string, whole: string, point: string, fraction: string)
    requires Free(whole, '.') && text == whole + point + fraction && (point == "." || (point == "" && fraction == ""))
    ensures var k := FindChar(text, '.', 0);
      text[..k] == whole && (if k < |text| then text[k + 1..] else "") == fraction
  {
    if point == "." {
      FindFirst(text, '.', whole, fraction);
    } else {
      assert text == whole;
    }
  }

  lemma MantissaIs(text: string, hex: bool, whole: string, fraction: string)
    requires var k := FindChar(text, '.', 0);
      text[..k] == whole && (if k < |text| then text[k + 1..] else "") == fraction
    requires whole + fraction != "" && Digits(whole, hex) && Digits(fraction, hex)
    ensures Mantissa(text, hex) == Some(Fraction(NumberOf(whole, hex), NumberOf(fraction, hex),
                                                 Power(Base(hex), |fraction|)))
  {
    hide Value, HexValue, Power, Fraction, FindChar, AllDigits, AllHexDigits;
  }

  /** The value of a mantissa in parts. */
  lemma MantissaOfParts(text: string, hex: bool, whole: string, point: string, fraction: string)
    requires MantissaParts(text, hex, whole, point, fraction)
    ensures Mantissa(text, hex)
        == Some(Ratio(NumberOf(whole + fraction, hex), Power(Base(hex), |fraction|)))
  {
    hide Power, Fraction, Ratio, Mantissa, NumberOf, Digits, Base;
    SplitDigits(whole, fraction, hex);
    JoinedFraction(whole, fraction, hex);
    PointFree(whole, hex);
    CutAtPoint(text, whole, point, fraction);
    MantissaIs(text, hex, whole, fraction);
  }

  lemma PartsOfMantissa(text: string, hex: bool) returns (whole: string, point: string, fraction: string)
    requires Mantissa(text, hex).Some?
    ensures MantissaParts(text, hex, whole, point, fraction)
  {
    var k := FindChar(text, '.', 0);
    whole, point, fraction := text[..k], if k < |text| then "." else "", if k < |text| then text[k + 1..] else "";
    SplitDigits(whole, fraction, hex);
    hide AllDigits, AllHexDigits;
  }

  lemma MantissaIff(text: string, hex: bool, x: real)
    ensures Mantissa(text, hex) == Some(x) <==> WritesMantissa(text, hex, x)
  {
    hide Mantissa, NumberOf, Ratio, Power;
    if Mantissa(text, hex).Some? {
      var whole, point, fraction := PartsOfMantissa(text, hex);
      MantissaOfParts(text, hex, whole, point, fraction);
    }
    if WritesMantissa(text, hex, x) {
      var whole, point, fraction :| MantissaParts(text, hex, whole, point, fraction)
          && x == Ratio(NumberOf(whole + fraction, hex), Power(Base(hex), |fraction|));
      MantissaOfParts(text, hex, whole, point, fraction);
    }
  }

  /** A hexadecimal digit is worth its place among the sixteen, in either case. */
  lemma HexDigitIff(c: char, d: nat)
    ensures HexDigit(c) == Some(d)
        <==> d < 16 && (c == "0123456789abcdef"[d] || c == "0123456789ABCDEF"[d])
  {
  }

  /** A mantissa, and perhaps a mark and an exponent: of ten or, in hexadecimal, of two. */
  ghost predicate WritesScaled(text: string, hex: bool, x: real) {
    WritesMantissa(text, hex, x) || WritesMarked(text, hex, x)
  }

  predicate IsMark(mark: char, hex: bool) {
    if hex then mark == 'p' || mark == 'P' else mark == 'e' || mark == 'E'
  }

  ghost predicate WritesMarked(text: string, hex: bool, x: real) {
    exists m, mark, exponent, y, e :: IsMark(mark, hex) && text == m + [mark] + exponent
        && WritesMantissa(m, hex, y) && WritesExponent(exponent, e) && x == Scale(y, if hex then 2 else 10, e)
  }

  /** The place of the first mark. */
  function MarkAt(text: string, hex: bool): (k: nat)
    ensures k <= |text| && (k < |text| ==> IsMark(text[k], hex))
    ensures forall i :: 0 <= i < k ==> !IsMark(text[i], hex)
  {
    var i, j := FindChar(text, if hex then 'p' else 'e', 0), FindChar(text, if hex then 'P' else 'E', 0);
    if i < j then i else j
  }

  ghost predicate MarkFree(s: string, hex: bool) { forall i :: 0 <= i < |s| ==> !IsMark(s[i], hex) }

  lemma MantissaMarkFree(text: string, hex: bool)
    requires Mantissa(text, hex).Some?
    ensures MarkFree(text, hex)
  {
    var whole, point, fraction := PartsOfMantissa(text, hex);
    SplitDigits(whole, fraction, hex);
    hide Mantissa;
    DigitsMarkFree(whole, hex);
    DigitsMarkFree(fraction, hex);
  }

  lemma DigitsMarkFree(s: string, hex: bool)
    requires Digits(s, hex)
    ensures MarkFree(s, hex)
  {
  }

  lemma FirstMark(m: string, mark: char, rest: string, hex: bool)
    requires MarkFree(m, hex) && IsMark(mark, hex)
    ensures var text := m + [mark] + rest;
      MarkAt(text, hex) == |m| < |text| && text[..|m|] == m && text[|m| + 1..] == rest
  {
    var text := m + [mark] + rest;
    assert text[|m|] == mark;
    assert forall i :: 0 <= i < |m| ==> text[i] == m[i];
    hide IsMark;
  }

  lemma ScaledIs(text: string, hex: bool)
    ensures Scaled(text, hex) ==
      var k := MarkAt(text, hex);
      if k == |text| then Mantissa(text, hex)
      else match (Mantissa(text[..k], hex), Exponent(text[k + 1..]))
        case (Some(x), Some(e)) => Some(Scale(x, if hex then 2 else 10, e))
        case _ => None
  {
    hide Mantissa, Exponent, Scale, FindChar;
  }

  lemma ScaledIff(text: string, hex: bool, x: real)
    ensures Scaled(text, hex) == Some(x) <==> WritesScaled(text, hex, x)
  {
    hide Scaled, Mantissa, Exponent, Scale, WritesMantissa, WritesExponent, MarkAt;
    ScaledIs(text, hex);
    var k := MarkAt(text, hex);
    MantissaIff(text, hex, x);
    if WritesMantissa(text, hex, x) { MantissaMarkFree(text, hex); }
    if k < |text| {
      if Scaled(text, hex) == Some(x) {
        var y, e := Mantissa(text[..k], hex).value, Exponent(text[k + 1..]).value;
        MantissaIff(text[..k], hex, y);
        ExponentIff(text[k + 1..], e);
        assert text == text[..k] + [text[k]] + text[k + 1..];
        assert WritesMarked(text, hex, x);
      }
    }
    if WritesMarked(text, hex, x) { MarkedIs(text, hex, x); }
  }

  lemma MarkedIs(text: string, hex: bool, x: real)
    requires WritesMarked(text, hex, x)
    ensures Scaled(text, hex) == Some(x)
  {
    hide Scaled, Mantissa, Exponent, Scale, WritesMantissa, WritesExponent, MarkAt;
    var m, mark, exponent, y, e :| IsMark(mark, hex) && text == m + [mark] + exponent
        && WritesMantissa(m, hex, y) && WritesExponent(exponent, e) && x == Scale(y, if hex then 2 else 10, e);
    MantissaIff(m, hex, y);
    ExponentIff(exponent, e);
    MantissaMarkFree(m, hex);
    FirstMark(m, mark, exponent, hex);
    ScaledIs(text, hex);
  }

  /** A decimal number or, after `0x`, a hexadecimal one. */
  ghost predicate WritesUnsigned(text: string, x: real) {
    WritesScaled(text, false, x) || WritesHex(text, x)
  }

  ghost predicate WritesHex(text: string, x: real) {
    exists rest :: (text == "0x" + rest || text == "0X" + rest) && WritesScaled(rest, true, x)
  }

  predicate HexMarked(text: string) {
    |text| >= 2 && text[0] == '0' && (text[1] == 'x' || text[1] == 'X')
  }

  /** A decimal number starts with a digit or the point, and holds no `x`. */
  lemma DecimalForm(text: string, x: real)
    requires WritesScaled(text, false, x)
    ensures text != "" && !IsSpace(text[0]) && text[0] != '-' && text[0] != '+' && !HexMarked(text)
  {
    hide WritesExponent, Scale, NumberOf, Ratio, Power;
    if WritesMantissa(text, false, x) {
      MantissaForm(text, x);
    } else {
      var m, mark, exponent, y, e :| IsMark(mark, false) && text == m + [mark] + exponent
          && WritesMantissa(m, false, y) && WritesExponent(exponent, e) && x == Scale(y, 10, e);
      MantissaForm(m, y);
      assert text[0] == m[0] && (|m| > 1 ==> text[1] == m[1]) && (|m| == 1 ==> text[1] == mark);
    }
  }

  lemma MantissaForm(text: string, x: real)
    requires WritesMantissa(text, false, x)
    ensures text != "" && forall i :: 0 <= i < |text| ==> IsDigit(text[i]) || text[i] == '.'
  {
    hide NumberOf, Ratio, Power;
    var whole, point, fraction :| MantissaParts(text, false, whole, point, fraction)
        && x == Ratio(NumberOf(whole + fraction, false), Power(Base(false), |fraction|));
    SplitDigits(whole, fraction, false);
    forall i | 0 <= i < |text| ensures IsDigit(text[i]) || text[i] == '.' {
      assert text[i] == if i < |whole| then whole[i] else if i < |whole| + |point| then point[i - |whole|]
        else fraction[i - |whole| - |point|];
    }
  }

  /** What a double can hold without loss of range: zero, the normal numbers short of the one that rounds to
      infinity, and the whole multiples of the least subnormal number below them. */
  ghost predicate InRange(x: real) {
    || x == 0.0
    || (Scale(x, 2, 1022) >= 1.0 && x < Scale(1.0, 2, 1024) - Scale(1.0, 2, 970))
    || (x > 0.0 && Scale(x, 2, 1022) < 1.0 && IsWhole(Scale(x, 2, 1074)))
  }

  ghost predicate IsWhole(y: real) { exists n: int :: IsCast(n, y) }

  predicate IsCast(n: int, x: real) { n as real == x }

  lemma LeastIff(x: real, p: nat)
    requires p > 0
    ensures 1.0 / p as real <= x <==> x * p as real >= 1.0
  {
    var y := p as real;
    var r := 1.0 / y;
    assert r * y == 1.0;
    if r <= x { MulOrdered(r, x, y); } else { MulStrict(x, r, y); }
  }

  lemma MulOrdered(a: real, b: real, y: real)
    requires a <= b && y > 0.0
    ensures a * y <= b * y
  {
  }

  lemma MulStrict(a: real, b: real, y: real)
    requires a < b && y > 0.0
    ensures a * y < b * y
  {
  }

  lemma LeastNormalIff(x: real)
    ensures LeastNormal() <= x <==> Scale(x, 2, 1022) >= 1.0
  {
    hide Power;
    LeastIff(x, Power(2, 1022));
  }

  lemma OverflowIs()
    ensures Overflow() == Scale(1.0, 2, 1024) - Scale(1.0, 2, 970)
  {
    hide Power;
    DoubledPower(2, 54, 970);
    Spread(Power(2, 54), Power(2, 970), Power(2, 1024));
  }

  lemma Spread(a: nat, b: nat, c: nat)
    requires c == a * b && a > 0
    ensures (a - 1) as real * b as real == c as real - b as real
    ensures 1.0 * c as real - 1.0 * b as real == c as real - b as real
  {
    assert c as real == a as real * b as real;
  }

  lemma WholeIff(y: real)
    ensures y.Floor as real == y <==> IsWhole(y)
  {
    if y.Floor as real == y { assert IsCast(y.Floor, y); }
  }

  lemma InRangeIff(x: real)
    ensures InDoubleRange(x) <==> InRange(x)
  {
    hide LeastNormal, Overflow, Scale, IsWhole;
    LeastNormalIff(x);
    OverflowIs();
    WholeIff(Scale(x, 2, 1074));
  }

  lemma UnsignedIff(text: string, x: real)
    ensures Unsigned(text) == Some(x) <==> WritesUnsigned(text, x) && InRange(x)
  {
    hide Scaled, InDoubleRange, InRange, WritesScaled;
    InRangeIff(x);
    ScaledIff(text, false, x);
    if WritesScaled(text, false, x) { DecimalForm(text, x); }
    if HexMarked(text) {
      ScaledIff(text[2..], true, x);
      assert text == [text[0], text[1]] + text[2..];
    }
    if rest :| (text == "0x" + rest || text == "0X" + rest) && WritesScaled(rest, true, x) {
      assert HexMarked(text) && text[2..] == rest;
    }
  }

  ghost predicate DoubleParts(value: string, blanks: string, sign: string, text: string) {
    AllSpace(blanks) && IsSign(sign) && value == blanks + sign + text
  }

  /** Blanks, a sign or none, and a number within range. */
  ghost predicate WritesDouble(value: string, x: real) {
    exists blanks, sign, text, y :: DoubleParts(value, blanks, sign, text)
        && WritesUnsigned(text, y) && InRange(y) && x == (if sign == "-" then -y else y)
  }

  lemma UnsignedForm(text: string, x: real)
    requires WritesUnsigned(text, x)
    ensures text != "" && !IsSpace(text[0]) && text[0] != '-' && text[0] != '+'
  {
    hide WritesScaled;
    if WritesScaled(text, false, x) { DecimalForm(text, x); }
  }

  /** The number after blanks and sign decides. */
  lemma DoubleOfParts(value: string, blanks: string, sign: string, text: string, y: real)
    requires DoubleParts(value, blanks, sign, text) && WritesUnsigned(text, y)
    ensures ParseDouble(value) ==
      match Unsigned(text) case None => None case Some(r) => Some(if sign == "-" then -r else r)
  {
    hide WritesUnsigned, Unsigned;
    UnsignedForm(text, y);
    var body := sign + text;
    assert value == blanks + body;
    SkipBlanks(blanks, body);
    SignedText(sign, text);
  }

  lemma PartsOfDouble(value: string) returns (blanks: string, sign: string, text: string)
    requires ParseDouble(value).Some?
    ensures DoubleParts(value, blanks, sign, text) && Unsigned(text).Some?
    ensures ParseDouble(value).value == if sign == "-" then -Unsigned(text).value else Unsigned(text).value
  {
    hide SkipSpace, AllSpace, Unsigned;
    blanks := BlanksBefore(value);
    var body := SkipSpace(value);
    sign := SignOf(body);
    text := body[|sign|..];
    assert body == sign + text;
    assert blanks + (sign + text) == blanks + sign + text;
    assert sign == "" ==> text == body;
  }

  /** A string reads as a double exactly when it is blanks, a sign or none, and a decimal or hexadecimal
      number in the range of doubles; it reads as that number. */
  lemma ParseDoubleIff(value: string, x: real)
    ensures ParseDouble(value) == Some(x) <==> WritesDouble(value, x)
  {
    hide ParseDouble, WritesUnsigned, Unsigned, InRange;
    if ParseDouble(value).Some? {
      var blanks, sign, text := PartsOfDouble(value);
      UnsignedIff(text, Unsigned(text).value);
    }
    if WritesDouble(value, x) {
      var blanks, sign, text, y :| DoubleParts(value, blanks, sign, text)
          && WritesUnsigned(text, y) && InRange(y) && x == (if sign == "-" then -y else y);
      UnsignedIff(text, y);
      DoubleOfParts(value, blanks, sign, text, y);
    }
  }
}
