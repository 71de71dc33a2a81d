/** Small shared vocabulary: optional values, results, machine integers and
    decimal text. Every other module imports this one. */
module Prelude {

  datatype Option<T> = None | Some(value: T)

  datatype Result<T, E> = Ok(value: T) | Err(error: E)

  const TWO_63: int := 0x8000_0000_0000_0000
  const TWO_64: int := 0x1_0000_0000_0000_0000

  /** Rust's `i64`. */
  type I64 = x: int | -TWO_63 <= x < TWO_63

  /** Two's-complement wrap-around into `i64`, as release-mode Rust does. */
  function Wrap64(x: int): (r: I64)
    ensures (r - x) % TWO_64 == 0
    ensures -TWO_63 <= x < TWO_63 ==> r == x
  {
    var m := x % TWO_64;
    if m < TWO_63 then m else m - TWO_64
  }

  lemma WrapAdd(a: int, b: int)
    ensures Wrap64(Wrap64(a) + b) == Wrap64(a + b)
  {
    var k := (Wrap64(a) - a) / TWO_64;
    assert Wrap64(a) + b == a + b + k * TWO_64;
    WrapShift(a + b, k);
  }

  lemma WrapMul(a: int, b: int)
    ensures Wrap64(Wrap64(a) * b) == Wrap64(a * b)
  {
    var k := (Wrap64(a) - a) / TWO_64;
    assert Wrap64(a) == a + k * TWO_64;
    calc {
      Wrap64(a) * b;
      (a + k * TWO_64) * b;
      a * b + (k * b) * TWO_64;
    }
    WrapShift(a * b, k * b);
  }

  lemma WrapNeg(a: int)
    ensures Wrap64(0 - Wrap64(a) as int) == Wrap64(0 - a)
  {
    var w: int := Wrap64(a);
    var k := (w - a) / TWO_64;
    assert 0 - w == (0 - a) + (0 - k) * TWO_64;
    WrapShift(0 - a, 0 - k);
  }

  /** Adding a multiple of 2^64 does not change the wrapped value. */
  lemma WrapShift(x: int, k: int)
    ensures Wrap64(x + k * TWO_64) == Wrap64(x)
  {
    assert (x + k * TWO_64) % TWO_64 == x % TWO_64;
  }

  /** Rust's `/` on integers truncates toward zero; Dafny's is Euclidean. */
  function TruncDiv(a: int, b: int): (q: int)
    requires b != 0
    ensures Abs(q) * Abs(b) <= Abs(a) < (Abs(q) + 1) * Abs(b)
    ensures q != 0 ==> ((q > 0) <==> ((a > 0) == (b > 0)))
  {
    var q0 := Abs(a) / Abs(b);
    DivBounds(Abs(a), Abs(b));
    assert a == 0 ==> q0 == 0;
    if (a >= 0) == (b > 0) then q0 else assert Abs(-q0) == q0; -q0
  }

  lemma DivBounds(x: nat, y: nat)
    requires y > 0
    ensures (x / y) * y <= x < (x / y + 1) * y
  {
  }

  lemma MulAbs(q: int, b: int)
    ensures Abs(q * b) == Abs(q) * Abs(b)
  {
    if q < 0 && b < 0 { assert q * b == (-q) * (-b); }
    else if q < 0 { assert q * b == -((-q) * b); }
    else if b < 0 { assert q * b == -(q * (-b)); }
  }

  function Abs(x: int): nat { if x < 0 then -x else x }

  predicate IsDigit(c: char) { '0' <= c <= '9' }

  function DigitValue(c: char): nat
    requires IsDigit(c)
  {
    c as int - '0' as int
  }

  /** The value of a non-empty string of decimal digits. */
  function DigitsValue(s: string): nat
    requires forall i :: 0 <= i < |s| ==> IsDigit(s[i])
  {
    if s == [] then 0 else DigitsValue(s[..|s| - 1]) * 10 + DigitValue(s[|s| - 1])
  }

  /** Decimal text of a natural number, as Rust's `{}` formats it. */
  function NatToString(n: nat): (s: string)
    ensures |s| >= 1
    ensures forall i :: 0 <= i < |s| ==> IsDigit(s[i])
    ensures |s| > 1 ==> s[0] != '0'
    decreases n
  {
    if n < 10 then ['0' + n as char]
    else NatToString(n / 10) + ['0' + (n % 10) as char]
  }

  /** Reading the decimal text back gives the number. */
  lemma {:induction false} NatToStringRoundTrip(n: nat)
    ensures DigitsValue(NatToString(n)) == n
    decreases n
  {
    if n >= 10 {
      var s := NatToString(n);
      NatToStringRoundTrip(n / 10);
      assert s[..|s| - 1] == NatToString(n / 10);
    }
  }

  /** Decimal text of an integer, with a leading '-' when negative. */
  function IntToString(i: int): (s: string)
    ensures |s| >= 1
    ensures (s[0] == '-') <==> i < 0
  {
    if i < 0 then "-" + NatToString(-i) else NatToString(i)
  }

  /** Rust's `str::parse::<i64>()`: an optional sign, then one or more
      decimal digits, whose value must fit in `i64`. */
  function ParseI64(s: string): (r: Option<I64>)
    ensures r.Some? ==> |s| >= 1
    ensures r.Some? ==> (IsDigit(s[0]) || s[0] == '-' || s[0] == '+') && forall i :: 0 < i < |s| ==> IsDigit(s[i])
  {
    if |s| == 0 then None
    else
      var neg := s[0] == '-';
      var digits := if s[0] == '-' || s[0] == '+' then s[1..] else s;
      if |digits| == 0 || !(forall i :: 0 <= i < |digits| ==> IsDigit(digits[i])) then None
      else
        var n: int := DigitsValue(digits);
        var v := if neg then 0 - n else n;
        if -TWO_63 <= v < TWO_63 then Some(v) else None
  }

  /** Printing an integer and parsing it back is the identity. */
  lemma ParseI64OfIntToString(i: I64)
    ensures ParseI64(IntToString(i)) == Some(i)
  {
    var s := IntToString(i);
    NatToStringRoundTrip(Abs(i));
    if i < 0 {
      assert s[1..] == NatToString(Abs(i));
    } else {
      var t := NatToString(i);
      assert s == t;
      assert t[0] != '-' && t[0] != '+' by { assert IsDigit(t[0]); }
    }
  }

  function Reverse<T>(s: seq<T>): (r: seq<T>)
    ensures |r| == |s|
    ensures forall i :: 0 <= i < |s| ==> r[i] == s[|s| - 1 - i]
  {
    if s == [] then [] else Reverse(s[1..]) + [s[0]]
  }
}
