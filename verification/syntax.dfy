/** A reference semantics for the evaluator, independent of its parsing
    code: expression trees, their evaluation, and the token list that
    writes a tree with as few brackets as precedence and associativity allow. */
module Syntax {
  import opened Tokens
  import opened Arith
  import opened Brackets

  datatype Expr = Const(value: real) | Binary(op: OpSym, left: Expr, right: Expr)

  /** Binding strength: additive 0, multiplicative 1, power 2. */
  function Prec(op: OpSym): nat
  {
    if op.IsAdditive() then 0 else if op.IsMultiplicative() then 1 else 2
  }

  /** The binding strength of a tree's root; a constant binds tightest. */
  function Level(e: Expr): nat
  {
    match e
    case Const(_) => 3
    case Binary(op, _, _) => Prec(op)
  }

  /** The least level a left operand may have without brackets: the operator's
      own for the left-associative operators, above it for '**'. */
  function LeftMin(op: OpSym): nat
  {
    if op == Power then 3 else Prec(op)
  }

  /** The least level a right operand may have without brackets: above the
      operator's own for the left-associative operators, equal to it for '**'. */
  function RightMin(op: OpSym): nat
  {
    if op == Power then 2 else Prec(op) + 1
  }

  /** The tokens of a tree, bracketing an operand only where precedence and
      associativity would otherwise group it differently. */
  function Render(e: Expr): seq<Token>
    decreases e, 0
  {
    match e
    case Const(v) => [Num(v)]
    case Binary(op, l, r) => RenderAt(l, LeftMin(op)) + [Op(op)] + RenderAt(r, RightMin(op))
  }

  /** The tokens of a tree placed where its level must be at least `min`. */
  function RenderAt(e: Expr, min: nat): seq<Token>
    decreases e, 1
  {
    if Level(e) >= min then Render(e) else [LParen] + Render(e) + [RParen]
  }

  /** One binary operator applied to two values, with the evaluator's error checks. */
  function Apply(op: OpSym, a: real, b: real): (r: Result<real>)
    ensures op.IsAdditive() ==> r.Ok?
    ensures op == Plus ==> r.value - b == a
    ensures op == Minus ==> r.value + b == a
    ensures r.Err? ==> r.error.ArithmeticFailure()
  {
    match op
    case Plus => Ok(a + b)
    case Minus => Ok(a - b)
    case Power => ApplyPow(a, b)
    case _ => ApplyMul(op, a, b)
  }

  /** An operator applied to two evaluation outcomes: the left operand's
      failure first, then the right operand's, then the operator's own. */
  function Strict(op: OpSym, x: Result<real>, y: Result<real>): (r: Result<real>)
    ensures r.Ok? <==> x.Ok? && y.Ok? && Apply(op, x.value, y.value).Ok?
    ensures r.Ok? ==> x.Ok? && y.Ok? && r == Apply(op, x.value, y.value)
    ensures r.Err? ==> r == x || r == y || r.error.ArithmeticFailure()
  {
    match x
    case Err(k) => Err(k)
    case Ok(a) =>
      match y
      case Err(k) => Err(k)
      case Ok(b) => Apply(op, a, b)
  }

  /** Strict evaluation, left operand first, then right, then the operator:
      the first failure met in that order is the result. */
  function Eval(e: Expr): Result<real>
  {
    match e
    case Const(v) => Ok(v)
    case Binary(op, l, r) => Strict(op, Eval(l), Eval(r))
  }

  /** Every rendering has balanced brackets and contains no EOF. */
  lemma {:induction false} RenderBalanced(e: Expr)
    ensures Balanced(Render(e))
    ensures forall k | 0 <= k < |Render(e)| :: Render(e)[k] != EOF
    decreases e, 0
  {
    match e
    case Const(v) =>
      BalancedSingle(Num(v));
    case Binary(op, l, r) =>
      RenderAtBalanced(l, LeftMin(op));
      RenderAtBalanced(r, RightMin(op));
      BalancedSingle(Op(op));
      BalancedConcat(RenderAt(l, LeftMin(op)), [Op(op)]);
      BalancedConcat(RenderAt(l, LeftMin(op)) + [Op(op)], RenderAt(r, RightMin(op)));
  }

  lemma {:induction false} RenderAtBalanced(e: Expr, min: nat)
    ensures Balanced(RenderAt(e, min))
    ensures forall k | 0 <= k < |RenderAt(e, min)| :: RenderAt(e, min)[k] != EOF
    decreases e, 1
  {
    RenderBalanced(e);
    if Level(e) < min {
      BalancedWrap(Render(e));
    }
  }
}
