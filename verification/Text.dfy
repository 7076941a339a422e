/** Decimal numerals and delimited text, as the control plane prints them and the C++ core reads them. */
module Text {
  import opened Wrappers

  // ---------------------------------------------------------------- numerals

  predicate IsDigit(c: char) { '0' <= c <= '9' }

  predicate AllDigits(s: string) {
    forall i :: 0 <= i < |s| ==> IsDigit(s[i])
  }

  function Digit(d: nat): (c: char)
    requires d < 10
    ensures IsDigit(c) && (c as int) - ('0' as int) == d
  {
    (('0' as int) + d) as char
  }

  function Decimal(n: nat): (s: string)
    ensures s != "" && AllDigits(s)
  {
    if n < 10 then [Digit(n)] else Decimal(n / 10) + [Digit(n % 10)]
  }

  function IntText(n: int): string {
    if n < 0 then "-" + Decimal(-n) else Decimal(n)
  }

  /** The number a run of digits stands for. */
  function Value(s: string): (n: nat)
    requires AllDigits(s)
  {
    if s == "" then 0 else 10 * Value(s[..|s| - 1]) + ((s[|s| - 1] as int) - ('0' as int))
  }

  lemma {:induction false} ValueOfDecimal(n: nat)
    ensures Value(Decimal(n)) == n
  {
    if n >= 10 {
      var front := Decimal(n / 10);
      assert (front + [Digit(n % 10)])[..|front|] == front;
      ValueOfDecimal(n / 10);
    } else {
      assert [Digit(n)][..0] == "";
    }
  }

  lemma DecimalInjective(m: nat, n: nat)
    requires Decimal(m) == Decimal(n)
    ensures m == n
  {
    ValueOfDecimal(m);
    ValueOfDecimal(n);
  }

  predicate IsSpace(c: char) {
    c == ' ' || c == '\t' || c == '\n' || c == '\U{0b}' || c == '\U{0c}' || c == '\r'
  }

  function SkipSpace(s: string): string {
    if s != "" && IsSpace(s[0]) then SkipSpace(s[1..]) else s
  }

  const INT_MIN: int := -0x8000_0000
  const INT_MAX: int := 0x7fff_ffff

  /** `strtol` over the whole string, within 32 bits: blanks, a sign, at least one digit. */
  function ParseInt(value: string): Option<int> {
    var body := SkipSpace(value);
    var negative := body != "" && body[0] == '-';
    var digits := if body != "" && (body[0] == '-' || body[0] == '+') then body[1..] else body;
    if digits == "" || !AllDigits(digits) then None
    else
      var n: int := if negative then -(Value(digits) as int) else Value(digits);
      if INT_MIN <= n <= INT_MAX then Some(n) else None
  }

  /** A numeral is read back whatever sign precedes it. */
  lemma ParseSigned(digits: string, negative: bool)
    requires digits != "" && AllDigits(digits)
    ensures var n: int := if negative then -(Value(digits) as int) else Value(digits);
      ParseInt(if negative then "-" + digits else digits) == if INT_MIN <= n <= INT_MAX then Some(n) else None
  {
  }

  lemma ParseIntText(n: int)
    ensures ParseInt(IntText(n)) == if INT_MIN <= n <= INT_MAX then Some(n) else None
  {
    var m: nat := if n < 0 then -n else n;
    ValueOfDecimal(m);
    ParseSigned(Decimal(m), n < 0);
  }

  function BoolText(b: bool): string { if b then "1" else "0" }

  function ParseBool(value: string): Option<bool> {
    if value == "0" then Some(false) else if value == "1" then Some(true) else None
  }

  // ---------------------------------------------------------------- fractions

  function Power(base: nat, k: nat): (p: nat)
    requires base > 0
    ensures p > 0
  {
    if k == 0 then 1 else base * Power(base, k - 1)
  }

  function FindChar(s: string, c: char, start: nat): (k: nat)
    requires start <= |s|
    ensures start <= k <= |s| && (k < |s| ==> s[k] == c)
    ensures forall i :: start <= i < k ==> s[i] != c
    decreases |s| - start
  {
    if start == |s| || s[start] == c then start else FindChar(s, c, start + 1)
  }

  /** The value of a hexadecimal digit; None for any other character. */
  function HexDigit(c: char): (d: Option<nat>) {
    if IsDigit(c) then Some((c as int) - ('0' as int))
    else if 'a' <= c <= 'f' then Some((c as int) - ('a' as int) + 10)
    else if 'A' <= c <= 'F' then Some((c as int) - ('A' as int) + 10)
    else None
  }

  predicate AllHexDigits(s: string) {
    forall i :: 0 <= i < |s| ==> HexDigit(s[i]).Some?
  }

  function HexValue(s: string): nat
    requires AllHexDigits(s)
  {
    if s == "" then 0 else 16 * HexValue(s[..|s| - 1]) + HexDigit(s[|s| - 1]).value
  }

  function Fraction(whole: nat, fraction: nat, unit: nat): real
    requires unit > 0
  {
    whole as real + fraction as real / unit as real
  }

  /** Digits with at most one point, at least one digit. */
  function Mantissa(number: string, hex: bool): Option<real> {
    var k := FindChar(number, '.', 0);
    var whole, fraction := number[..k], if k < |number| then number[k + 1..] else "";
    if whole == "" && fraction == "" then None
    else if hex then
      if AllHexDigits(whole) && AllHexDigits(fraction)
      then Some(Fraction(HexValue(whole), HexValue(fraction), Power(16, |fraction|))) else None
    else
      if AllDigits(whole) && AllDigits(fraction)
      then Some(Fraction(Value(whole), Value(fraction), Power(10, |fraction|))) else None
  }

  /** A sign or none, then at least one decimal digit. */
  function Exponent(text: string): Option<int> {
    var digits := if text != "" && (text[0] == '-' || text[0] == '+') then text[1..] else text;
    if digits == "" || !AllDigits(digits) then None
    else Some(if text[0] == '-' then -(Value(digits) as int) else Value(digits))
  }

  function Scale(x: real, base: nat, exponent: int): real
    requires base > 0
  {
    if exponent >= 0 then x * Power(base, exponent) as real else x / Power(base, -exponent) as real
  }

  /** A mantissa, then perhaps a mark and an exponent: of ten after `e`, in hexadecimal of two after `p`. */
  function Scaled(number: string, hex: bool): Option<real> {
    var lower, upper := if hex then 'p' else 'e', if hex then 'P' else 'E';
    var i, j := FindChar(number, lower, 0), FindChar(number, upper, 0);
    var k := if i < j then i else j;
    if k == |number| then Mantissa(number, hex)
    else match (Mantissa(number[..k], hex), Exponent(number[k + 1..]))
      case (Some(x), Some(exponent)) => Some(Scale(x, if hex then 2 else 10, exponent))
      case _ => None
  }

  /** The least normal double. */
  function LeastNormal(): real { 1.0 / Power(2, 1022) as real }

  /** Where rounding to a double overflows. */
  function Overflow(): real { (Power(2, 54) - 1) as real * Power(2, 970) as real }

  /** Within the range of a double: zero, from the least normal number to where rounding overflows, or
      below it without loss. */
  predicate InDoubleRange(x: real) {
    || x == 0.0
    || LeastNormal() <= x < Overflow()
    || (0.0 < x < LeastNormal() && Scale(x, 2, 1074).Floor as real == Scale(x, 2, 1074))
  }

  function Unsigned(number: string): Option<real> {
    var r := if |number| >= 2 && number[0] == '0' && (number[1] == 'x' || number[1] == 'X')
             then Scaled(number[2..], true) else Scaled(number, false);
    if r.Some? && InDoubleRange(r.value) then r else None
  }

  /** `strtod` over the whole string, refusing what is not finite or out of range: blanks, a sign, a
      decimal or hexadecimal number. */
  function ParseDouble(value: string): Option<real> {
    var body := SkipSpace(value);
    if body != "" && body[0] == '-' then
      match Unsigned(body[1..]) case Some(r) => Some(-r) case None => None
    else if body != "" && body[0] == '+' then Unsigned(body[1..])
    else Unsigned(body)
  }

  const TICK_SCALE: nat := 10000

  /** Eighteen digits. */
  const TICK_BOUND: nat := 1_000_000_000_000_000_000

  function FourDigits(n: nat): (s: string)
    requires n < TICK_SCALE
    ensures |s| == 4 && AllDigits(s)
  {
    [Digit(n / 1000), Digit(n / 100 % 10), Digit(n / 10 % 10), Digit(n % 10)]
  }

  /** A price tick of `count` ten-thousandths, printed with four decimals. */
  function TickText(count: nat): string {
    Decimal(count / TICK_SCALE) + "." + FourDigits(count % TICK_SCALE)
  }

  lemma ValueOfFourDigits(n: nat)
    requires n < TICK_SCALE
    ensures Value(FourDigits(n)) == n
  {
    var s := FourDigits(n);
    assert s[..3] == [s[0], s[1], s[2]] && s[..3][..2] == [s[0], s[1]] && s[..3][..2][..1] == [s[0]];
    assert s[..3][..2][..1][..0] == "";
    assert Value(s[..3][..2][..1]) == n / 1000;
    assert Value(s[..3][..2]) == n / 100;
    assert Value(s[..3]) == n / 10;
  }

  /** The first occurrence, recognised by what precedes it. */
  lemma FindFirst(s: string, c: char, before: string, after: string)
    requires s == before + [c] + after && Free(before, c)
    ensures FindChar(s, c, 0) == |before| < |s|
    ensures s[..|before|] == before && s[|before| + 1..] == after
  {
    assert s[|before|] == c;
    forall i | 0 <= i < |before| ensures s[i] != c { assert s[i] == before[i]; }
  }

  lemma MantissaPoint(whole: string, fraction: string)
    requires whole != "" && AllDigits(whole) && AllDigits(fraction)
    ensures Mantissa(whole + "." + fraction, false)
      == Some(Fraction(Value(whole), Value(fraction), Power(10, |fraction|)))
  {
    var number := whole + "." + fraction;
    FindFirst(number, '.', whole, fraction);
    var k := FindChar(number, '.', 0);
    assert number[..k] == whole && number[k + 1..] == fraction;
  }

  /** Digits and a point hold no exponent mark and no hexadecimal prefix. */
  lemma PlainNumber(number: string)
    requires number != "" && forall i :: 0 <= i < |number| ==> IsDigit(number[i]) || number[i] == '.'
    ensures Unsigned(number) ==
      match Mantissa(number, false) case None => None case Some(x) => if InDoubleRange(x) then Some(x) else None
  {
    hide Mantissa, InDoubleRange;
    assert FindChar(number, 'e', 0) == |number| == FindChar(number, 'E', 0);
  }

  lemma TickQuotient(count: nat, q: nat, r: nat)
    requires count == q * TICK_SCALE + r
    ensures q as real + r as real / TICK_SCALE as real == count as real / TICK_SCALE as real
  {
  }

  lemma PowersOfTwo()
    ensures Power(2, 1) == 2 && Power(2, 64) == 0x1_0000_0000_0000_0000
  {
    assert Power(2, 4) == 2 * Power(2, 3) == 4 * Power(2, 2) == 8 * Power(2, 1) == 16;
    hide Power;
    DoubledPower(2, 4, 4);
    DoubledPower(2, 8, 8);
    DoubledPower(2, 16, 16);
    DoubledPower(2, 32, 32);
  }

  lemma {:induction false} PowerOfTwoLarge(k: nat)
    requires k >= 64
    ensures Power(2, k) >= 0x1_0000_0000_0000_0000
  {
    if k == 64 { PowersOfTwo(); } else { PowerOfTwoLarge(k - 1); }
  }

  lemma {:induction false} DoubledPower(base: nat, j: nat, k: nat)
    requires base > 0
    ensures Power(base, j + k) == Power(base, j) * Power(base, k)
  {
    if j > 0 { DoubledPower(base, j - 1, k); }
  }

  /** Price ticks are far from both ends of the double's range. */
  lemma TickInRange(count: nat)
    requires count < TICK_BOUND
    ensures InDoubleRange(count as real / TICK_SCALE as real)
  {
    hide Power;
    if count > 0 {
      PowerOfTwoLarge(1022);
      PowerOfTwoLarge(970);
      DoubledPower(2, 1, 53);
      PowersOfTwo();
      var x := count as real / TICK_SCALE as real;
      Between(x, Power(2, 1022), Power(2, 54) - 1, Power(2, 970));
    }
  }

  lemma Between(x: real, small: nat, a: nat, large: nat)
    requires 0.0001 <= x < 100_000_000_000_000.0 && small >= 10000 && a >= 1 && large >= 0x1_0000_0000_0000_0000
    ensures 1.0 / small as real <= x < a as real * large as real
  {
    assert 1.0 / small as real <= 0.0001;
    assert a as real * large as real >= large as real;
  }

  lemma ParseTickText(count: nat)
    requires count < TICK_BOUND
    ensures ParseDouble(TickText(count)) == Some(count as real / TICK_SCALE as real)
  {
    hide InDoubleRange, Mantissa, Unsigned, Decimal, Value;
    var q, r := count / TICK_SCALE, count % TICK_SCALE;
    MantissaTick(q, r);
    TickQuotient(count, q, r);
    TickInRange(count);
    PlainNumber(TickText(count));
    StartsWithDigit(TickText(count));
  }

  lemma StartsWithDigit(s: string)
    requires s != "" && IsDigit(s[0])
    ensures ParseDouble(s) == Unsigned(s)
  {
    hide Unsigned;
  }

  lemma MantissaTick(q: nat, r: nat)
    requires r < TICK_SCALE
    ensures Mantissa(Decimal(q) + "." + FourDigits(r), false) == Some(q as real + r as real / TICK_SCALE as real)
  {
    MantissaPoint(Decimal(q), FourDigits(r));
    ValueOfDecimal(q);
    ValueOfFourDigits(r);
    assert Power(10, 4) == 10 * Power(10, 3) == 100 * Power(10, 2) == 1000 * Power(10, 1) == 10000;
  }

  // ---------------------------------------------------------------- delimited fields

  ghost predicate Free(s: string, d: char) {
    forall i :: 0 <= i < |s| ==> s[i] != d
  }

  /** The pieces of `value` between delimiters; always at least one. */
  function Fields(value: string, d: char): (r: seq<string>)
    ensures r != []
    decreases |value|
  {
    var k := FindChar(value, d, 0);
    if k == |value| then [value] else [value[..k]] + Fields(value[k + 1..], d)
  }

  function Join(fields: seq<string>, d: char): string
    requires fields != []
  {
    if |fields| == 1 then fields[0] else fields[0] + [d] + Join(fields[1..], d)
  }

  lemma FieldsCut(first: string, d: char, rest: string)
    requires Free(first, d)
    ensures Fields(first + [d] + rest, d) == [first] + Fields(rest, d)
  {
    FindFirst(first + [d] + rest, d, first, rest);
  }

  lemma {:induction false} FieldsOfJoin(fields: seq<string>, d: char)
    requires fields != [] && forall i :: 0 <= i < |fields| ==> Free(fields[i], d)
    ensures Fields(Join(fields, d), d) == fields
  {
    if |fields| == 1 {
      assert fields == [fields[0]];
    } else {
      FieldsOfJoin(fields[1..], d);
      FieldsCut(fields[0], d, Join(fields[1..], d));
    }
  }

  lemma {:induction false} JoinOfFields(value: string, d: char)
    ensures Join(Fields(value, d), d) == value
    ensures forall i :: 0 <= i < |Fields(value, d)| ==> Free(Fields(value, d)[i], d)
    decreases |value|
  {
    var k := FindChar(value, d, 0);
    if k < |value| {
      JoinOfFields(value[k + 1..], d);
      assert Fields(value, d)[1..] == Fields(value[k + 1..], d);
      assert value == value[..k] + [d] + value[k + 1..];
    }
  }

  /** Cuts a string at every delimiter. */
  method Split(value: string, delimiter: char) returns (result: seq<string>)
    ensures result == Fields(value, delimiter)
  {
    result := [];
    var start := 0;
    while start <= |value|
      invariant 0 <= start <= |value|
      invariant result + Fields(value[start..], delimiter) == Fields(value, delimiter)
      decreases |value| - start
    {
      var end := FindChar(value, delimiter, start);
      FieldsStep(value, delimiter, start, end);
      ghost var before := result;
      result := result + [value[start..end]];
      if end == |value| {
        return;
      }
      MoveOne(before, value[start..end], Fields(value[end + 1..], delimiter));
      start := end + 1;
    }
  }

  lemma MoveOne(done: seq<string>, piece: string, rest: seq<string>)
    ensures done + ([piece] + rest) == done + [piece] + rest
  {
  }

  lemma FieldsStep(value: string, d: char, start: nat, end: nat)
    requires start <= |value| && end == FindChar(value, d, start)
    ensures end == |value| ==> Fields(value[start..], d) == [value[start..end]]
    ensures end < |value| ==> Fields(value[start..], d) == [value[start..end]] + Fields(value[end + 1..], d)
  {
    var piece := value[start..end];
    assert Free(piece, d);
    if end < |value| {
      assert value[start..] == piece + [d] + value[end + 1..];
      FieldsCut(piece, d, value[end + 1..]);
    } else {
      assert value[start..] == piece;
      FieldsWhole(piece, d);
    }
  }

  lemma FieldsWhole(value: string, d: char)
    requires Free(value, d)
    ensures Fields(value, d) == [value]
  {
  }

  /** What successive `getline` calls return: an empty tail after the last newline is no line. */
  function Lines(document: string): seq<string> {
    var pieces := Fields(document, '\n');
    if pieces[|pieces| - 1] == "" then pieces[..|pieces| - 1] else pieces
  }

  lemma LinesOfJoin(lines: seq<string>)
    requires lines != [] && forall i :: 0 <= i < |lines| ==> Free(lines[i], '\n')
    ensures Lines(Join(lines, '\n') + "\n") == lines
  {
    hide Join, Fields;
    var pieces := lines + [""];
    JoinAppend(lines, '\n');
    FieldsOfJoin(pieces, '\n');
  }

  lemma {:induction false} JoinAppend(lines: seq<string>, d: char)
    requires lines != []
    ensures Join(lines + [""], d) == Join(lines, d) + [d]
  {
    if |lines| > 1 {
      assert (lines + [""])[1..] == lines[1..] + [""];
      JoinAppend(lines[1..], d);
    } else {
      assert (lines + [""])[1..] == [""];
    }
  }
}
