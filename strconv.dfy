/**
 * Base-10 integer text as Go's strconv package reads and writes it:
 * strconv.FormatInt(n, 10) and strconv.ParseInt(s, 10, 64). The client uses
 * the first to render counts and integer replies and (through redigo's
 * redis.Int64) the second to read integers sent as bulk strings.
 */
module Strconv {

  const MinInt64: int := -0x8000_0000_0000_0000
  const MaxInt64: int := 0x7fff_ffff_ffff_ffff
  const MaxUint64: int := 0xffff_ffff_ffff_ffff

  /** Go's int64. */
  type Int64 = x: int | MinInt64 <= x <= MaxInt64

  predicate IsDigit(c: char)
  {
    '0' <= c <= '9'
  }

  function DigitValue(c: char): (d: nat)
    requires IsDigit(c)
    ensures d < 10
  {
    (c as int) - ('0' as int)
  }

  function DigitChar(d: nat): (c: char)
    requires d < 10
    ensures IsDigit(c) && DigitValue(c) == d
  {
    ((d + '0' as int) as char)
  }

  predicate AllDigits(s: string)
  {
    forall i :: 0 <= i < |s| ==> IsDigit(s[i])
  }

  /** The number a string of decimal digits denotes, most significant first. */
  function DecimalValue(s: string): nat
    requires AllDigits(s)
  {
    if s == [] then 0 else DecimalValue(s[..|s| - 1]) * 10 + DigitValue(s[|s| - 1])
  }

  /** The decimal digits of m, most significant first, without leading zeros. */
  function Digits(m: nat): (s: string)
    ensures |s| >= 1 && AllDigits(s)
    ensures DecimalValue(s) == m
    ensures s[0] == '0' ==> m == 0
  {
    if m < 10 then [DigitChar(m)]
    else
      var s := Digits(m / 10) + [DigitChar(m % 10)];
      assert s[..|s| - 1] == Digits(m / 10);
      s
  }

  /**
   * strconv.FormatInt(n, 10): a minus sign exactly for a negative n, then
   * the decimal digits of its magnitude, without leading zeros.
   */
  function FormatInt(n: int): (s: string)
    ensures |s| >= 1
    ensures (s[0] == '-') == (n < 0)
    ensures var mag := if n < 0 then s[1..] else s;
      |mag| >= 1 && AllDigits(mag) && DecimalValue(mag) == (if n < 0 then -n else n) &&
      (mag[0] == '0' ==> n == 0)
  {
    if n < 0 then
      var s := "-" + Digits(-n);
      assert s[1..] == Digits(-n);
      s
    else Digits(n)
  }

  /** The outcome of strconv.ParseUint on the digits after an optional sign. */
  datatype UintScan = Value(n: nat) | SyntaxError | RangeError

  /**
   * The digit loop of strconv.ParseUint, left to right from accumulator acc:
   * a non-digit is a syntax error, and a step that passes the uint64 maximum
   * stops at once with a range error (even if a non-digit follows).
   */
  function ScanUint(s: string, acc: nat): (r: UintScan)
    requires acc <= MaxUint64
    ensures r.Value? ==> acc <= r.n <= MaxUint64 && AllDigits(s)
  {
    if s == [] then Value(acc)
    else if !IsDigit(s[0]) then SyntaxError
    else if acc * 10 + DigitValue(s[0]) > MaxUint64 then RangeError
    else ScanUint(s[1..], acc * 10 + DigitValue(s[0]))
  }

  /** strconv.ParseUint(s, 10, 64): the empty string is a syntax error. */
  function ParseUint(s: string): UintScan
  {
    if s == [] then SyntaxError else ScanUint(s, 0)
  }

  datatype ParseResult = Parsed(n: Int64) | Invalid(error: string)

  function SyntaxErrorText(s: string): string
  {
    "strconv.ParseInt: parsing \"" + s + "\": invalid syntax"
  }

  function RangeErrorText(s: string): string
  {
    "strconv.ParseInt: parsing \"" + s + "\": value out of range"
  }

  /** The text after an optional leading '+' or '-'. */
  function Unsigned(s: string): string
  {
    if s != [] && (s[0] == '+' || s[0] == '-') then s[1..] else s
  }

  /**
   * strconv.ParseInt(s, 10, 64): an optional '+' or '-' and then at least one
   * decimal digit; a magnitude beyond int64 is a range error.
   */
  function ParseInt(s: string): (r: ParseResult)
    ensures s == [] ==> r.Invalid?
    ensures r.Parsed? ==> |Unsigned(s)| >= 1 && AllDigits(Unsigned(s))
  {
    if s == [] then Invalid(SyntaxErrorText(s))
    else
      var neg := s[0] == '-';
      var body := Unsigned(s);
      match ParseUint(body)
      case SyntaxError => Invalid(SyntaxErrorText(s))
      case RangeError => Invalid(RangeErrorText(s))
      case Value(u) =>
        if !neg && u > MaxInt64 then Invalid(RangeErrorText(s))
        else if neg && u > -MinInt64 then Invalid(RangeErrorText(s))
        else Parsed(if neg then -(u as int) else u)
  }

  /** One more digit at the end of the scanned text takes one more step of the loop. */
  lemma {:induction false} ScanUintSnoc(s: string, c: char, acc: nat)
    requires acc <= MaxUint64 && IsDigit(c)
    ensures ScanUint(s + [c], acc) ==
            match ScanUint(s, acc)
            case Value(v) => if v * 10 + DigitValue(c) <= MaxUint64 then Value(v * 10 + DigitValue(c)) else RangeError
            case other => other
  {
    if s == [] {
      assert s + [c] == [c];
      assert [c][1..] == [];
    } else {
      assert (s + [c])[0] == s[0];
      assert (s + [c])[1..] == s[1..] + [c];
      if IsDigit(s[0]) && acc * 10 + DigitValue(s[0]) <= MaxUint64 {
        ScanUintSnoc(s[1..], c, acc * 10 + DigitValue(s[0]));
      }
    }
  }

  /** The digit loop reads the decimal value of a digit string, or stops with a range error beyond uint64. */
  lemma {:induction false} ScanDecimal(d: string)
    requires AllDigits(d)
    ensures ScanUint(d, 0) == if DecimalValue(d) <= MaxUint64 then Value(DecimalValue(d)) else RangeError
  {
    if d != [] {
      var init := d[..|d| - 1];
      var c := d[|d| - 1];
      ScanDecimal(init);
      assert init + [c] == d;
      ScanUintSnoc(init, c, 0);
    }
  }

  /**
   * What ParseInt makes of well-formed text: the decimal value of the digits,
   * negated after a '-', when it fits int64, and a range error when it does
   * not; a sign alone, or nothing, is a syntax error.
   */
  lemma ParseIntDecimal(s: string)
    ensures s != [] && IsDigit(s[0]) && AllDigits(s) ==>
              ParseInt(s) == if DecimalValue(s) <= MaxInt64 then Parsed(DecimalValue(s)) else Invalid(RangeErrorText(s))
    ensures |s| >= 2 && s[0] == '+' && AllDigits(s[1..]) ==>
              ParseInt(s) == if DecimalValue(s[1..]) <= MaxInt64 then Parsed(DecimalValue(s[1..])) else Invalid(RangeErrorText(s))
    ensures |s| >= 2 && s[0] == '-' && AllDigits(s[1..]) ==>
              ParseInt(s) == if DecimalValue(s[1..]) <= -MinInt64 then Parsed(-(DecimalValue(s[1..]) as int)) else Invalid(RangeErrorText(s))
    ensures s == [] || s == "+" || s == "-" ==> ParseInt(s) == Invalid(SyntaxErrorText(s))
  {
    var body := Unsigned(s);
    if AllDigits(body) {
      ScanDecimal(body);
    }
  }

  /** ParseInt inverts FormatInt on every int64. */
  lemma FormatIntRoundTrip(n: Int64)
    ensures ParseInt(FormatInt(n)) == Parsed(n)
  {
    var s := FormatInt(n);
    if n < 0 {
      ScanDecimal(s[1..]);
    } else {
      ScanDecimal(s);
    }
  }
}
