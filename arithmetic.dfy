/** Rust's `i64` arithmetic as the interpreters use it: `+ - * /` panic on
    overflow (the behaviour of a debug build) and `/` rounds toward zero. */
module Arithmetic {
  import opened Common

  function Abs(x: int): nat {
    if x < 0 then -x else x
  }

  /** Rust's integer `/`: the quotient rounded toward zero. */
  function TruncDiv(a: int, b: int): int
    requires b != 0
  {
    var q := Abs(a) / Abs(b);
    if (a < 0) == (b < 0) then q else -q
  }

  lemma NegMul(x: int, y: int)
    ensures (-x) * y == -(x * y) && x * (-y) == -(x * y) && (-x) * (-y) == x * y
  {
  }

  lemma MulAtLeast(q: nat, b: int)
    requires b >= 1
    ensures q * b >= q
    ensures b >= 2 ==> q * b >= 2 * q
  {
  }

  /** Euclidean division of magnitudes, the step `TruncDiv` is built on. */
  lemma MagnitudeDivision(A: nat, B: nat)
    requires B > 0
    ensures A == (A / B) * B + A % B && 0 <= A % B < B && A / B <= A
  {
    MulAtLeast(A / B, B);
  }

  /** The quotient rounds toward zero: the remainder `a - q * b` is smaller
      than the divisor and has the dividend's sign (or is zero), and the
      quotient is no larger than the dividend. */
  lemma TruncDivRoundsTowardZero(a: int, b: int)
    requires b != 0
    ensures var q := TruncDiv(a, b); var r := a - q * b;
      Abs(r) < Abs(b) && (r == 0 || (r < 0) == (a < 0)) && Abs(q) <= Abs(a)
  {
    var A, B := Abs(a), Abs(b);
    var Q: int := A / B;
    MagnitudeDivision(A, B);
    var q := TruncDiv(a, b);
    NegMul(Q, B);
    if (a < 0) == (b < 0) {
      assert q == Q;
      assert q * b == if b < 0 then -(Q * B) else Q * B;
    } else {
      assert q == -Q;
      assert q * b == if b < 0 then Q * B else -(Q * B);
    }
  }

  /** `/` on two `i64`s overflows only for `i64::MIN / -1`. */
  lemma DivOverflowOnlyMinByMinusOne(a: Int64, b: Int64)
    requires b != 0
    ensures !InI64(TruncDiv(a, b)) <==> a == I64_MIN && b == -1
  {
    var A, B := Abs(a), Abs(b);
    var Q := A / B;
    MagnitudeDivision(A, B);
    if B == 1 {
      assert Q == A;
    } else {
      MulAtLeast(Q, B);
      assert 2 * Q <= A;
    }
  }

  function CheckedAdd(a: Int64, b: Int64): Result<Int64> {
    if InI64(a + b) then Ok(a + b) else Err(Panicked("attempt to add with overflow"))
  }

  function CheckedSub(a: Int64, b: Int64): Result<Int64> {
    if InI64(a - b) then Ok(a - b) else Err(Panicked("attempt to subtract with overflow"))
  }

  function CheckedMul(a: Int64, b: Int64): Result<Int64> {
    if InI64(a * b) then Ok(a * b) else Err(Panicked("attempt to multiply with overflow"))
  }

  function CheckedDiv(a: Int64, b: Int64): Result<Int64>
    requires b != 0
  {
    var q := TruncDiv(a, b);
    if InI64(q) then Ok(q) else Err(Panicked("attempt to divide with overflow"))
  }
}
