/** Consequences of the agreement theorem for short token lists: how the
    evaluator groups operators, and what it yields on the examples the
    repository's tests use. Token lists stand for the inputs after splitting
    and classification, e.g. "2**3**2" is [2, '**', 3, '**', 2, EOF]. */
module Properties {
  import opened Tokens
  import opened Arith
  import opened Brackets
  import opened Parser
  import opened Calc
  import opened Syntax
  import opened Correctness
  import opened Lexer

  /** Evaluating the rendering of a tree, followed by EOF, gives the tree's value. */
  lemma EvaluatesAs(tokens: seq<Token>, e: Expr)
    requires tokens == Render(e) + [EOF]
    ensures WellTerminated(tokens) && EvaluateTokens(tokens) == Eval(e)
  {
    BalancedSingle(EOF);
    EvaluateRender(e, []);
    assert Render(e) + [] + [EOF] == tokens;
  }

  /** A constant is never bracketed. */
  lemma ConstRenders(v: real, m: nat)
    requires m <= 3
    ensures RenderAt(Const(v), m) == [Num(v)]
  {
  }

  /** A one-operator tree over constants renders without brackets at any
      position its level allows. */
  lemma SimpleRenders(op: OpSym, a: real, b: real, m: nat)
    requires m <= Prec(op)
    ensures RenderAt(Binary(op, Const(a), Const(b)), m) == [Num(a), Op(op), Num(b)]
  {
    ConstRenders(a, LeftMin(op));
    ConstRenders(b, RightMin(op));
    assert Render(Binary(op, Const(a), Const(b))) == [Num(a)] + [Op(op)] + [Num(b)];
  }

  /** One operator between two numbers is that operator applied to them. */
  lemma SingleOperator(op: OpSym, a: real, b: real)
    ensures EvaluateTokens([Num(a), Op(op), Num(b), EOF]) == Apply(op, a, b)
  {
    SimpleRenders(op, a, b, 0);
    EvaluatesAs([Num(a), Op(op), Num(b), EOF], Binary(op, Const(a), Const(b)));
  }

  predicate SameLevel(o1: OpSym, o2: OpSym)
  {
    (o1.IsAdditive() && o2.IsAdditive()) || (o1.IsMultiplicative() && o2.IsMultiplicative())
  }

  /** '+' and '-' group to the left among themselves, and so do '*', '/',
      '//' and '%': a o1 b o2 c is (a o1 b) o2 c. */
  lemma LeftAssociative(o1: OpSym, o2: OpSym, a: real, b: real, c: real)
    requires SameLevel(o1, o2)
    ensures EvaluateTokens([Num(a), Op(o1), Num(b), Op(o2), Num(c), EOF])
            == Strict(o2, Strict(o1, Ok(a), Ok(b)), Ok(c))
  {
    var e := Binary(o2, Binary(o1, Const(a), Const(b)), Const(c));
    assert LeftMin(o2) == Prec(o1) && RightMin(o2) <= 3;
    SimpleRenders(o1, a, b, LeftMin(o2));
    ConstRenders(c, RightMin(o2));
    assert Render(e) == [Num(a), Op(o1), Num(b)] + [Op(o2)] + [Num(c)];
    var tokens := [Num(a), Op(o1), Num(b), Op(o2), Num(c), EOF];
    assert tokens == Render(e) + [EOF];
    EvaluatesAs(tokens, e);
    assert Eval(Binary(o1, Const(a), Const(b))) == Strict(o1, Ok(a), Ok(b));
    assert Eval(Const(c)) == Ok(c);
    assert Eval(e) == Strict(o2, Strict(o1, Ok(a), Ok(b)), Ok(c));
  }

  /** '**' groups to the right: a ** b ** c is a ** (b ** c). */
  lemma PowerRightAssociative(a: real, b: real, c: real)
    ensures EvaluateTokens([Num(a), Op(Power), Num(b), Op(Power), Num(c), EOF])
            == Strict(Power, Ok(a), Strict(Power, Ok(b), Ok(c)))
  {
    var e := Binary(Power, Const(a), Binary(Power, Const(b), Const(c)));
    ConstRenders(a, LeftMin(Power));
    SimpleRenders(Power, b, c, RightMin(Power));
    assert Render(e) == [Num(a)] + [Op(Power)] + [Num(b), Op(Power), Num(c)];
    var tokens := [Num(a), Op(Power), Num(b), Op(Power), Num(c), EOF];
    assert tokens == Render(e) + [EOF];
    EvaluatesAs(tokens, e);
    assert Eval(Binary(Power, Const(b), Const(c))) == Strict(Power, Ok(b), Ok(c));
    assert Eval(Const(a)) == Ok(a);
    assert Eval(e) == Strict(Power, Ok(a), Strict(Power, Ok(b), Ok(c)));
  }

  /** An operator binds tighter than one of a lower level, on its right:
      with o1 below o2, a o1 b o2 c is a o1 (b o2 c). */
  lemma TighterOnRight(o1: OpSym, o2: OpSym, a: real, b: real, c: real)
    requires Prec(o1) < Prec(o2)
    ensures EvaluateTokens([Num(a), Op(o1), Num(b), Op(o2), Num(c), EOF])
            == Strict(o1, Ok(a), Strict(o2, Ok(b), Ok(c)))
  {
    var e := Binary(o1, Const(a), Binary(o2, Const(b), Const(c)));
    assert o1 != Power && RightMin(o1) == Prec(o1) + 1 && LeftMin(o1) <= 3;
    ConstRenders(a, LeftMin(o1));
    SimpleRenders(o2, b, c, RightMin(o1));
    assert Render(e) == [Num(a)] + [Op(o1)] + [Num(b), Op(o2), Num(c)];
    var tokens := [Num(a), Op(o1), Num(b), Op(o2), Num(c), EOF];
    assert tokens == Render(e) + [EOF];
    EvaluatesAs(tokens, e);
    assert Eval(Binary(o2, Const(b), Const(c))) == Strict(o2, Ok(b), Ok(c));
    assert Eval(Const(a)) == Ok(a);
    assert Eval(e) == Strict(o1, Ok(a), Strict(o2, Ok(b), Ok(c)));
  }

  /** And on its left: with o1 below o2, a o2 b o1 c is (a o2 b) o1 c. */
  lemma TighterOnLeft(o1: OpSym, o2: OpSym, a: real, b: real, c: real)
    requires Prec(o1) < Prec(o2)
    ensures EvaluateTokens([Num(a), Op(o2), Num(b), Op(o1), Num(c), EOF])
            == Strict(o1, Strict(o2, Ok(a), Ok(b)), Ok(c))
  {
    var e := Binary(o1, Binary(o2, Const(a), Const(b)), Const(c));
    assert o1 != Power && LeftMin(o1) == Prec(o1) && RightMin(o1) <= 3;
    SimpleRenders(o2, a, b, LeftMin(o1));
    ConstRenders(c, RightMin(o1));
    assert Render(e) == [Num(a), Op(o2), Num(b)] + [Op(o1)] + [Num(c)];
    var tokens := [Num(a), Op(o2), Num(b), Op(o1), Num(c), EOF];
    assert tokens == Render(e) + [EOF];
    EvaluatesAs(tokens, e);
    assert Eval(Binary(o2, Const(a), Const(b))) == Strict(o2, Ok(a), Ok(b));
    assert Eval(Const(c)) == Ok(c);
    assert Eval(e) == Strict(o1, Strict(o2, Ok(a), Ok(b)), Ok(c));
  }

  /** Brackets override precedence: (a o1 b) o2 c with o1 below o2. */
  lemma BracketsGroup(o1: OpSym, o2: OpSym, a: real, b: real, c: real)
    requires Prec(o1) < Prec(o2)
    ensures EvaluateTokens([LParen, Num(a), Op(o1), Num(b), RParen, Op(o2), Num(c), EOF])
            == Strict(o2, Strict(o1, Ok(a), Ok(b)), Ok(c))
  {
    var left := Binary(o1, Const(a), Const(b));
    var e := Binary(o2, left, Const(c));
    assert o1 != Power && Level(left) < LeftMin(o2) && RightMin(o2) <= 3;
    SimpleRenders(o1, a, b, 0);
    assert RenderAt(left, LeftMin(o2)) == [LParen] + [Num(a), Op(o1), Num(b)] + [RParen];
    ConstRenders(c, RightMin(o2));
    assert Render(e) == [LParen, Num(a), Op(o1), Num(b), RParen] + [Op(o2)] + [Num(c)];
    var tokens := [LParen, Num(a), Op(o1), Num(b), RParen, Op(o2), Num(c), EOF];
    assert tokens == Render(e) + [EOF];
    EvaluatesAs(tokens, e);
    assert Eval(left) == Strict(o1, Ok(a), Ok(b));
    assert Eval(Const(c)) == Ok(c);
    assert Eval(e) == Strict(o2, Strict(o1, Ok(a), Ok(b)), Ok(c));
  }

  /** The parse stops at the first token the grammar cannot continue with and
      reads nothing after it; the bracket check reads every token, and the
      number after `a` passes it. */
  lemma TrailingIgnored(a: real, b: real)
    ensures EvaluateTokens([Num(a), Num(b), EOF]) == Ok(a)
  {
    BalancedSingle(Num(b));
    EvaluateRender(Const(a), [Num(b)]);
    assert Render(Const(a)) + [Num(b)] + [EOF] == [Num(a), Num(b), EOF];
  }

  /** The repository's additive examples, signed operands included:
      2+3, 2-5, -3+5 and +3+5 (whose '+3' the lexer reads as 3). */
  lemma AdditiveExamples()
    ensures EvaluateTokens([Num(2.0), Op(Plus), Num(3.0), EOF]) == Ok(5.0)
    ensures EvaluateTokens([Num(2.0), Op(Minus), Num(5.0), EOF]) == Ok(-3.0)
    ensures EvaluateTokens([Num(-3.0), Op(Plus), Num(5.0), EOF]) == Ok(2.0)
    ensures EvaluateTokens([Num(3.0), Op(Plus), Num(5.0), EOF]) == Ok(8.0)
  {
    SingleOperator(Plus, 2.0, 3.0);
    SingleOperator(Minus, 2.0, 5.0);
    SingleOperator(Plus, -3.0, 5.0);
    SingleOperator(Plus, 3.0, 5.0);
  }

  /** 2*3+4 is 10 and (2+3)*4 is 20. */
  lemma GroupingExamples()
    ensures EvaluateTokens([Num(2.0), Op(Times), Num(3.0), Op(Plus), Num(4.0), EOF]) == Ok(10.0)
    ensures EvaluateTokens([LParen, Num(2.0), Op(Plus), Num(3.0), RParen, Op(Times), Num(4.0), EOF]) == Ok(20.0)
  {
    TighterOnLeft(Plus, Times, 2.0, 3.0, 4.0);
    BracketsGroup(Plus, Times, 2.0, 3.0, 4.0);
  }

  /** 10/2 is 5, 7//3 is 2 and 7%3 is 1. */
  lemma DivisionExamples()
    ensures EvaluateTokens([Num(10.0), Op(Divide), Num(2.0), EOF]) == Ok(5.0)
    ensures EvaluateTokens([Num(7.0), Op(FloorDivide), Num(3.0), EOF]) == Ok(2.0)
    ensures EvaluateTokens([Num(7.0), Op(Modulo), Num(3.0), EOF]) == Ok(1.0)
  {
    SingleOperator(Divide, 10.0, 2.0);
    SingleOperator(FloorDivide, 7.0, 3.0);
    SingleOperator(Modulo, 7.0, 3.0);
  }

  /** Floor rounding on a negative dividend: -7//2 is -4 and -7%2 is 1. */
  lemma FloorRoundingExamples()
    ensures EvaluateTokens([Num(-7.0), Op(FloorDivide), Num(2.0), EOF]) == Ok(-4.0)
    ensures EvaluateTokens([Num(-7.0), Op(Modulo), Num(2.0), EOF]) == Ok(1.0)
  {
    SingleOperator(FloorDivide, -7.0, 2.0);
    SingleOperator(Modulo, -7.0, 2.0);
  }

  /** 2**3**2 is 2**9 = 512. */
  lemma PowerExample()
    ensures EvaluateTokens([Num(2.0), Op(Power), Num(3.0), Op(Power), Num(2.0), EOF]) == Ok(512.0)
  {
    PowerRightAssociative(2.0, 3.0, 2.0);
    assert ApplyPow(3.0, 2.0) == Ok(9.0);
    assert ApplyPow(2.0, 9.0) == Ok(512.0);
  }

  /** The repository's division and power error examples. */
  lemma ErrorExamples()
    ensures EvaluateTokens([Num(2.0), Op(Divide), Num(0.0), EOF]) == Err(DivisionByZero)
    ensures EvaluateTokens([Num(2.0), Op(FloorDivide), Num(0.0), EOF]) == Err(DivisionByZero)
    ensures EvaluateTokens([Num(0.0), Op(Power), Num(0.0), EOF]) == Err(IndeterminateForm)
  {
    assert EvaluateTokens([Num(2.0), Op(Divide), Num(0.0), EOF]) == Err(DivisionByZero) by {
      SingleOperator(Divide, 2.0, 0.0);
    }
    assert EvaluateTokens([Num(2.0), Op(FloorDivide), Num(0.0), EOF]) == Err(DivisionByZero) by {
      SingleOperator(FloorDivide, 2.0, 0.0);
    }
    assert EvaluateTokens([Num(0.0), Op(Power), Num(0.0), EOF]) == Err(IndeterminateForm) by {
      SingleOperator(Power, 0.0, 0.0);
    }
  }

  /** The repository's examples of a fractional operand to an integer-only operator. */
  lemma IntegerOnlyExamples()
    ensures EvaluateTokens([Num(2.0), Op(FloorDivide), Num(2.5), EOF]) == Err(IntegerOnlyOperation)
    ensures EvaluateTokens([Num(5.1), Op(Modulo), Num(2.0), EOF]) == Err(IntegerOnlyOperation)
  {
    assert EvaluateTokens([Num(2.0), Op(FloorDivide), Num(2.5), EOF]) == Err(IntegerOnlyOperation) by {
      SingleOperator(FloorDivide, 2.0, 2.5);
    }
    assert EvaluateTokens([Num(5.1), Op(Modulo), Num(2.0), EOF]) == Err(IntegerOnlyOperation) by {
      SingleOperator(Modulo, 5.1, 2.0);
    }
  }

  /** The pieces of "2//2.5" and "5.1%2" tokenize, with their decimal points
      read, and then fail with the integer-only error, not a malformed number. */
  lemma DecimalErrorExamples()
    ensures Tokenize(["2", "//", "2.5"]).Ok?
    ensures EvaluateTokens(Tokenize(["2", "//", "2.5"]).value) == Err(IntegerOnlyOperation)
    ensures Tokenize(["5.1", "%", "2"]).Ok?
    ensures EvaluateTokens(Tokenize(["5.1", "%", "2"]).value) == Err(IntegerOnlyOperation)
  {
    TokenizeFloorDivideDecimal();
    TokenizeModuloDecimal();
    IntegerOnlyExamples();
  }

  /** An unclosed bracket fails the bracket check before any evaluation. */
  lemma UnclosedBracketExample()
    ensures EvaluateTokens([LParen, Num(2.0), Op(Plus), Num(3.0), EOF]) == Err(UnbalancedBrackets)
  {
    var open := [LParen, Num(2.0), Op(Plus), Num(3.0), EOF];
    assert !Scan(open[5..], [LParen]);
    assert !Scan(open[4..], [LParen]);
    assert !Scan(open[3..], [LParen]);
    assert !Scan(open[2..], [LParen]);
    assert !Scan(open[1..], [LParen]);
    assert [] + [LParen] == [LParen];
    assert !CheckBrackets(open);
  }

  /** Balanced brackets that do not close where the grammar needs them fail
      in the primary level: in "( 2 3 )" the bracketed sum ends before '3'. */
  lemma MisplacedBracketExample()
    ensures EvaluateTokens([LParen, Num(2.0), Num(3.0), RParen, EOF]) == Err(UnmatchedBracket)
  {
    var inner := [LParen, Num(2.0), Num(3.0), RParen, EOF];
    assert Scan(inner[4..], []);
    assert Scan(inner[3..], [LParen]);
    assert Scan(inner[2..], [LParen]);
    assert Scan(inner[1..], [LParen]);
    assert [] + [LParen] == [LParen] && [LParen][..0] == [];
    assert CheckBrackets(inner);
    assert ParseAdd(inner, 1) == Ok(Parsed(2.0, 2));
    assert ParsePrimary(inner, 0) == Err(UnmatchedBracket);
  }

  /** A token that cannot start a primary fails there: "* 2". */
  lemma LeadingOperatorExample()
    ensures EvaluateTokens([Op(Times), Num(2.0), EOF]) == Err(InvalidToken)
  {
    var star := [Op(Times), Num(2.0), EOF];
    assert Scan(star[3..], []);
    assert Scan(star[2..], []);
    assert Scan(star[1..], []);
    assert CheckBrackets(star);
    assert ParsePrimary(star, 0) == Err(InvalidToken);
  }
}
