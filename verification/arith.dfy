/** The arithmetic the evaluator applies once both operands are known:
    the multiplicative operators with their error checks, and '**'.
    Values are exact reals standing in for the source's double-precision floats. */
module Arith {
  import opened Tokens

  /** The host's `is_integer` test: the value has no fractional part. */
  predicate IsIntegral(x: real) {
    x == x.Floor as real
  }

  /** Floor division on integers: the quotient rounded toward negative infinity. */
  function FloorDiv(a: int, b: int): int
    requires b != 0
  {
    if b > 0 || a % b == 0 then a / b else a / b - 1
  }

  /** Floor modulo on integers: the remainder left by FloorDiv. */
  function FloorMod(a: int, b: int): int
    requires b != 0
  {
    a - b * FloorDiv(a, b)
  }

  /** FloorDiv rounds toward negative infinity, and FloorMod's sign follows the divisor. */
  lemma FloorDivModBounds(a: int, b: int)
    requires b != 0
    ensures b > 0 ==> b * FloorDiv(a, b) <= a < b * FloorDiv(a, b) + b
    ensures b < 0 ==> b * FloorDiv(a, b) + b < a <= b * FloorDiv(a, b)
    ensures b > 0 ==> 0 <= FloorMod(a, b) < b
    ensures b < 0 ==> b < FloorMod(a, b) <= 0
    ensures a == b * FloorDiv(a, b) + FloorMod(a, b)
  {
    var q := a / b;
    assert a == b * q + a % b;
    if b < 0 && a % b != 0 {
      assert b * (q - 1) == b * q - b;
    }
  }

  /** `b` raised to a natural exponent. */
  function NatPower(b: real, n: nat): real
  {
    if n == 0 then 1.0 else b * NatPower(b, n - 1)
  }

  lemma {:induction false} PowerNonZero(b: real, n: nat)
    requires b != 0.0
    ensures NatPower(b, n) != 0.0
  {
    if n > 0 {
      PowerNonZero(b, n - 1);
    }
  }

  /** One step of the multiplicative level: '*', '/', '//' or '%' applied to
      the accumulated left operand `a` and the right operand `b`, with the
      error checks in the order the evaluator makes them. */
  function ApplyMul(op: OpSym, a: real, b: real): (r: Result<real>)
    requires op.IsMultiplicative()
    ensures op == Times ==> r.Ok?
    ensures r.Ok? && (op == FloorDivide || op == Modulo) ==> IsIntegral(r.value)
    ensures r.Err? ==> r.error == DivisionByZero || r.error == IntegerOnlyOperation || r.error == ZeroDivisionFault
  {
    match op
    case Divide =>
      if b == 0.0 then Err(DivisionByZero) else Ok(a / b)
    case FloorDivide =>
      if b == 0.0 then Err(DivisionByZero)
      else if IsIntegral(a) && IsIntegral(b) then Ok(FloorDiv(a.Floor, b.Floor) as real)
      else Err(IntegerOnlyOperation)
    case Modulo =>
      if IsIntegral(a) && IsIntegral(b) then
        if b == 0.0 then Err(ZeroDivisionFault)
        else Ok(FloorMod(a.Floor, b.Floor) as real)
      else Err(IntegerOnlyOperation)
    case Times =>
      Ok(a * b)
  }

  /** What each multiplicative operator yields: '/' and '//' refuse a zero
      divisor, '//' and '%' refuse non-integral operands (checked before the
      zero divisor for '%'), '/' is exact division, '//' the floor of the
      quotient and '%' the remainder whose sign follows the divisor. */
  lemma ApplyMulMeaning(op: OpSym, a: real, b: real)
    requires op.IsMultiplicative()
    ensures op == Times ==> ApplyMul(op, a, b) == Ok(a * b)
    ensures op == Divide ==> (ApplyMul(op, a, b).Err? <==> b == 0.0)
    ensures op == Divide && b == 0.0 ==> ApplyMul(op, a, b).error == DivisionByZero
    ensures op == Divide && b != 0.0 ==> ApplyMul(op, a, b).Ok? && ApplyMul(op, a, b).value * b == a
    ensures op == FloorDivide && b == 0.0 ==> ApplyMul(op, a, b) == Err(DivisionByZero)
    ensures op == FloorDivide && b != 0.0 && !(IsIntegral(a) && IsIntegral(b)) ==> ApplyMul(op, a, b) == Err(IntegerOnlyOperation)
    ensures op == FloorDivide && b != 0.0 && IsIntegral(a) && IsIntegral(b) ==>
              var r := ApplyMul(op, a, b);
              r.Ok? && IsIntegral(r.value)
              && (b > 0.0 ==> r.value * b <= a < r.value * b + b)
              && (b < 0.0 ==> r.value * b + b < a <= r.value * b)
    ensures op == Modulo && !(IsIntegral(a) && IsIntegral(b)) ==> ApplyMul(op, a, b) == Err(IntegerOnlyOperation)
    ensures op == Modulo && IsIntegral(a) && IsIntegral(b) && b == 0.0 ==> ApplyMul(op, a, b) == Err(ZeroDivisionFault)
    ensures op == Modulo && IsIntegral(a) && IsIntegral(b) && b != 0.0 ==>
              var r := ApplyMul(op, a, b);
              r.Ok? && IsIntegral(r.value)
              && (b > 0.0 ==> 0.0 <= r.value < b)
              && (b < 0.0 ==> b < r.value <= 0.0)
  {
    if IsIntegral(a) && IsIntegral(b) && b != 0.0 {
      FloorDivReal(a, b);
      FloorDivModBounds(a.Floor, b.Floor);
    }
  }

  /** FloorDiv's bounds carried over from integers to the reals that hold them. */
  lemma FloorDivReal(a: real, b: real)
    requires IsIntegral(a) && IsIntegral(b) && b != 0.0
    ensures var q := FloorDiv(a.Floor, b.Floor) as real;
            && (b > 0.0 ==> q * b <= a < q * b + b)
            && (b < 0.0 ==> q * b + b < a <= q * b)
  {
    var A, B := a.Floor, b.Floor;
    var Q := FloorDiv(A, B);
    FloorDivModBounds(A, B);
    assert (Q as real) * (B as real) == (Q * B) as real;
  }

  /** Python's identity a == b * (a // b) + a % b, for the operands both
      operators accept. */
  lemma DivModIdentity(a: real, b: real)
    requires IsIntegral(a) && IsIntegral(b) && b != 0.0
    ensures ApplyMul(FloorDivide, a, b).Ok? && ApplyMul(Modulo, a, b).Ok?
    ensures a == b * ApplyMul(FloorDivide, a, b).value + ApplyMul(Modulo, a, b).value
  {
    var A, B := a.Floor, b.Floor;
    var Q := FloorDiv(A, B);
    assert (B as real) * (Q as real) == (B * Q) as real;
  }

  /** An integral exponent applied to a base; a negative exponent takes the reciprocal. */
  function IntPower(b: real, n: int): real
    requires n >= 0 || b != 0.0
  {
    if n >= 0 then NatPower(b, n)
    else
      PowerNonZero(b, -n);
      1.0 / NatPower(b, -n)
  }

  /** The power step: the indeterminate form 0 ** 0 is refused first; a zero
      base with a negative exponent is the host's division by zero. */
  function ApplyPow(a: real, b: real): (r: Result<real>)
    ensures r.Ok? ==> IsIntegral(b)
    ensures r.Ok? && a != 0.0 ==> r.value != 0.0
    ensures r.Err? ==> r.error == IndeterminateForm || r.error == FractionalExponent || r.error == ZeroDivisionFault
  {
    if a == 0.0 && b == 0.0 then Err(IndeterminateForm)
    else if !IsIntegral(b) then Err(FractionalExponent)
    else if a == 0.0 && b < 0.0 then Err(ZeroDivisionFault)
    else if a == 0.0 then Ok(IntPower(a, b.Floor))
    else
      PowerNonZero(a, if b.Floor >= 0 then b.Floor else -b.Floor);
      Ok(IntPower(a, b.Floor))
  }

  /** '**' fails with the indeterminate-form error exactly on 0 ** 0, succeeds
      exactly on an integral exponent that is not a negative power of zero, and
      then yields the repeated product or its reciprocal. */
  lemma ApplyPowMeaning(a: real, b: real)
    ensures ApplyPow(a, b) == Err(IndeterminateForm) <==> a == 0.0 && b == 0.0
    ensures ApplyPow(a, b).Ok? <==> IsIntegral(b) && (a != 0.0 || b > 0.0)
    ensures ApplyPow(a, b).Ok? && b >= 0.0 ==> ApplyPow(a, b).value == NatPower(a, b.Floor)
    ensures ApplyPow(a, b).Ok? && b < 0.0 ==> ApplyPow(a, b).value * NatPower(a, -b.Floor) == 1.0
  {
    if IsIntegral(b) && b < 0.0 && a != 0.0 {
      PowerNonZero(a, -b.Floor);
    }
  }
}
