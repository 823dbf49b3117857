/** Vocabulary shared by every stage of the compiler: Rust's `i32`, the ways a
    compilation can abort, a failure-compatible `Result`, and the checked
    32-bit arithmetic of a debug build (overflow and a zero divisor abort). */
module Base {

  const I32_MIN: int := -0x8000_0000
  const I32_MAX: int := 0x7fff_ffff

  predicate InI32(x: int) { I32_MIN <= x <= I32_MAX }

  /** Rust's `i32`. */
  type i32 = x: int | InI32(x)

  datatype Option<+T> = None | Some(value: T)

  /** Every way the compiler stops early. In the source each one is a panic,
      except `WriteFailed`, which is an `io::Error` handed back to the caller. */
  datatype Error =
    | DivideByZero        // `x / 0` or `x % 0` while folding
    | Overflow            // an `i32` result out of range while folding
    | MissingInitializer  // a `const` without initializer: `unwrap()` of `None`
    | NotConstant         // a `const` initializer that does not fold: `unreachable!()`
    | Unimplemented       // `todo!()` or `unimplemented!()`
    | NoFunction          // `current_func` unwrapped while it is `None`
    | NoBlock             // `get_bb()` unwrapped while it is `None`
    | DuplicateInst       // `push_key_back` of a key the list already holds
    | NoValue             // a value handle looked up in an arena that lacks it
    | WriteFailed         // `writeln!` returned an error

  datatype Result<+T> = Ok(value: T) | Err(error: Error) {
    predicate IsFailure() { Err? }
    function PropagateFailure<U>(): Result<U> requires Err? { Err(error) }
    function Extract(): T requires Ok? { value }
  }

  function Abs(x: int): nat { if x < 0 then -x else x }

  /** Quotient rounded toward zero, as Rust's `/` on integers. */
  function TruncDiv(a: int, b: int): int
    requires b != 0
  {
    var q := Abs(a) / Abs(b);
    if (a < 0) == (b < 0) then q else -q
  }

  /** Remainder with the sign of the dividend, as Rust's `%` on integers. */
  function TruncRem(a: int, b: int): int
    requires b != 0
  {
    var m := Abs(a) % Abs(b);
    if a < 0 then -m else m
  }

  /** Truncating division and remainder fit together: the remainder is what the
      quotient leaves over, is smaller than the divisor, and has the sign of the
      dividend. */
  lemma DivRemSpec(a: int, b: int)
    requires b != 0
    ensures a == b * TruncDiv(a, b) + TruncRem(a, b)
    ensures Abs(TruncRem(a, b)) < Abs(b)
    ensures TruncRem(a, b) == 0 || (TruncRem(a, b) < 0 <==> a < 0)
  {
    var x: int, y: int := Abs(a), Abs(b);
    var q: int, m: int := x / y, x % y;
    assert x == y * q + m && 0 <= m < y;
    var p := y * q;
    MulNeg(y, q);
    if a < 0 && b < 0 {
      assert b * TruncDiv(a, b) == (-y) * q == -p;
    } else if a < 0 {
      assert b * TruncDiv(a, b) == y * (-q) == -p;
    } else if b < 0 {
      assert b * TruncDiv(a, b) == (-y) * (-q) == p;
    } else {
      assert b * TruncDiv(a, b) == p;
    }
  }

  lemma MulNeg(x: int, y: int)
    ensures (-x) * y == -(x * y) && x * (-y) == -(x * y) && (-x) * (-y) == x * y
  {
  }

  /** The `i32` value of `x`, or `Overflow` when Rust's debug build would panic. */
  function Checked(x: int): Result<i32> {
    if InI32(x) then Ok(x) else Err(Overflow)
  }

  /** Rust's `a / b` on `i32`: a zero divisor panics, and so does `i32::MIN / -1`. */
  function CheckedDiv(a: i32, b: i32): (r: Result<i32>)
    ensures r.Ok? <==> b != 0 && !(a == I32_MIN && b == -1)
    ensures r.Ok? ==> r.value == TruncDiv(a, b)
    ensures r.Err? ==> r.error == (if b == 0 then DivideByZero else Overflow)
  {
    if b == 0 then Err(DivideByZero)
    else if a == I32_MIN && b == -1 then Err(Overflow)
    else
      DivBound(a, b);
      Ok(TruncDiv(a, b))
  }

  /** Rust's `a % b` on `i32`: a zero divisor panics, and so does `i32::MIN % -1`. */
  function CheckedRem(a: i32, b: i32): (r: Result<i32>)
    ensures r.Ok? <==> b != 0 && !(a == I32_MIN && b == -1)
    ensures r.Ok? ==> r.value == TruncRem(a, b)
    ensures r.Err? ==> r.error == (if b == 0 then DivideByZero else Overflow)
  {
    if b == 0 then Err(DivideByZero)
    else if a == I32_MIN && b == -1 then Err(Overflow)
    else
      RemBound(a, b);
      Ok(TruncRem(a, b))
  }

  /** The one `i32` quotient that does not fit is `i32::MIN / -1`. */
  lemma DivBound(a: i32, b: i32)
    requires b != 0 && !(a == I32_MIN && b == -1)
    ensures InI32(TruncDiv(a, b))
  {
    assert InI32(a) && InI32(b);
    var x: int, y: int := Abs(a), Abs(b);
    var q: int := x / y;
    assert x <= 0x8000_0000;
    if y >= 2 {
      HalfBound(x, y);
      assert q <= 0x4000_0000;
    } else {
      assert q == x;
    }
    assert TruncDiv(a, b) == q || TruncDiv(a, b) == -q;
  }

  lemma HalfBound(x: nat, y: nat)
    requires y >= 2
    ensures 2 * (x / y) <= x
  {
    var q: int := x / y;
    assert y * q <= x;
    assert (y - 2) * q >= 0;
  }

  /** Every `i32` remainder fits: it is smaller than the divisor. */
  lemma RemBound(a: i32, b: i32)
    requires b != 0
    ensures InI32(TruncRem(a, b))
  {
    assert InI32(a) && InI32(b);
    var m: int := Abs(a) % Abs(b);
    assert Abs(b) <= 0x8000_0000;
    assert 0 <= m < Abs(b);
  }

  /** C's truth value of a comparison: 1 for true, 0 for false. */
  function BoolToI32(b: bool): (r: i32)
    ensures r == 0 || r == 1
    ensures r == 1 <==> b
  {
    if b then 1 else 0
  }
}
