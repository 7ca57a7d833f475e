/** The pieces of C# semantics the calculators depend on: 32-bit `int`,
    truncating division, unchecked wrap-around, `Convert.ToInt32(double)`
    (round half to even, with its overflow check), `string.IsNullOrEmpty`,
    `string.ToLower` and the exceptions the controllers throw. */
module CSharp {

  datatype Option<+T> = None | Some(value: T)

  const Int32Min: int := -0x8000_0000
  const Int32Max: int := 0x7FFF_FFFF

  /** A C# `int`. */
  type Int32 = x: int | -0x8000_0000 <= x <= 0x7FFF_FFFF

  predicate InInt32(x: int) {
    Int32Min <= x <= Int32Max
  }

  /** The exceptions a controller guard throws. */
  datatype Exception = ArgumentException | NullReferenceException

  /** C# `a / b` on integers with a positive divisor: the quotient is
      truncated toward zero, unlike Dafny's Euclidean `/`. */
  function Div(a: int, b: int): (q: int)
    requires b > 0
    ensures a >= 0 ==> q * b <= a < q * b + b
    ensures a < 0 ==> q * b - b < a <= q * b
  {
    if a >= 0 then a / b else -((-a) / b)
  }

  /** Unchecked C# `int` arithmetic: the mathematical result reduced modulo
      2^32 into the `int` range. */
  function Wrap32(x: int): (r: Int32)
    ensures InInt32(x) ==> r == x
    ensures (x - r) % 0x1_0000_0000 == 0
  {
    (x + 0x8000_0000) % 0x1_0000_0000 - 0x8000_0000
  }

  /** `n` is a nearest integer to `x`, and the even one when `x` lies
      exactly half-way between two integers. */
  ghost predicate IsNearestEven(x: real, n: int) {
    && x - 0.5 <= n as real <= x + 0.5
    && (n as real - x == 0.5 || x - n as real == 0.5 ==> n % 2 == 0)
  }

  /** Banker's rounding, built from `Floor`. */
  function RoundHalfEven(x: real): (n: int)
    ensures IsNearestEven(x, n)
  {
    var f := x.Floor;
    var d := x - f as real;
    if d < 0.5 then f
    else if d > 0.5 then f + 1
    else if f % 2 == 0 then f
    else f + 1
  }

  /** Rounding to nearest-even has exactly one answer. */
  lemma RoundHalfEvenUnique(x: real, n: int)
    requires IsNearestEven(x, n)
    ensures n == RoundHalfEven(x)
  {
  }

  /** `Convert.ToInt32(double)`: `None` stands for the `OverflowException`
      it throws when the value is outside [-2147483648.5, 2147483647.5).
      That range check is exactly "the rounded value fits in an int". */
  function ConvertToInt32(value: real): (r: Option<Int32>)
    ensures r.Some? <==> InInt32(RoundHalfEven(value))
    ensures r.Some? ==> r.value == RoundHalfEven(value)
  {
    var n := RoundHalfEven(value);
    if -2147483648.5 <= value < 2147483647.5 then
      assert n == -0x8000_0001 ==> value - n as real == 0.5;
      Some(n)
    else
      None
  }

  /** C# `string.IsNullOrEmpty`, with `None` for `null`. */
  predicate IsNullOrEmpty(s: Option<string>) {
    s.None? || s.value == ""
  }

  /** The upper-case letters `ToLower` maps in the Latin Extended-A block:
      the pairs whose capital sits at the even (or, in two runs, the odd)
      code point. U+0130, whose lower case depends on the culture, is not
      among them. */
  predicate IsExtendedAUpper(c: char) {
    || ('Ā' <= c <= 'ķ' && c != 'İ' && (c as int) % 2 == 0)
    || ('Ĺ' <= c <= 'ň' && (c as int) % 2 == 1)
    || ('Ŋ' <= c <= 'ŷ' && (c as int) % 2 == 0)
    || ('Ź' <= c <= 'ž' && (c as int) % 2 == 1)
  }

  /** Lower-casing one character: ASCII, Latin-1 and Latin Extended-A
      capitals (every letter of Czech among them); anything else unchanged. */
  function ToLowerChar(c: char): char
  {
    if 'A' <= c <= 'Z' then (c as int + 32) as char
    else if 'À' <= c <= 'Þ' && c != '×' then (c as int + 32) as char
    else if IsExtendedAUpper(c) then (c as int + 1) as char
    else if c == 'Ÿ' then 'ÿ'
    else c
  }

  /** `string.ToLower()`, character by character. */
  function ToLower(s: string): (r: string)
    ensures |r| == |s|
    ensures forall i :: 0 <= i < |s| ==> r[i] == ToLowerChar(s[i])
  {
    if s == [] then [] else [ToLowerChar(s[0])] + ToLower(s[1..])
  }
}
