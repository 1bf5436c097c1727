/** The evaluator agrees with the reference semantics: the token list of any
    expression tree, written with precedence-minimal brackets, evaluates to
    that tree's value or fails with that tree's first error. Precedence,
    left associativity of the additive and multiplicative operators and right
    associativity of '**' follow as corollaries. */
module Correctness {
  import opened Tokens
  import opened Arith
  import opened Brackets
  import opened Parser
  import opened Calc
  import opened Syntax

  /** `piece` sits in `tokens` from position `i` on, with at least one token after it. */
  ghost predicate At(tokens: seq<Token>, i: nat, piece: seq<Token>)
  {
    i + |piece| < |tokens| && tokens[i..i + |piece|] == piece
  }

  lemma AtSplit(tokens: seq<Token>, i: nat, a: seq<Token>, b: seq<Token>)
    requires At(tokens, i, a + b)
    ensures At(tokens, i, a) && At(tokens, i + |a|, b)
  {
    assert tokens[i..i + |a|] == (a + b)[..|a|];
    assert tokens[i + |a|..i + |a| + |b|] == (a + b)[|a|..];
  }

  lemma AtHead(tokens: seq<Token>, i: nat, t: Token, b: seq<Token>)
    requires At(tokens, i, [t] + b)
    ensures tokens[i] == t && At(tokens, i + 1, b)
  {
    AtSplit(tokens, i, [t], b);
    assert tokens[i] == tokens[i..i + 1][0];
  }

  /** A value-or-error as a parse result ending at `next`. */
  function Lift(res: Result<real>, next: nat): (r: Result<Parsed>)
  {
    match res
    case Err(k) => Err(k)
    case Ok(v) => Ok(Parsed(v, next))
  }

  /** Continues a result of the multiplicative level's first term with its loop. */
  function ThenMulLoop(tokens: seq<Token>, res: Result<Parsed>): Result<Parsed>
    requires WellTerminated(tokens)
    requires res.Ok? ==> res.value.next < |tokens| && tokens[res.value.next] != Op(Power)
  {
    match res
    case Err(k) => Err(k)
    case Ok(p) => MulLoop(tokens, p.value, p.next)
  }

  /** Continues a result of the additive level's first term with its loop. */
  function ThenAddLoop(tokens: seq<Token>, res: Result<Parsed>): Result<Parsed>
    requires WellTerminated(tokens)
    requires res.Ok? ==> res.value.next < |tokens| && (!tokens[res.value.next].Op? || tokens[res.value.next].IsAdditiveOp())
  {
    match res
    case Err(k) => Err(k)
    case Ok(p) => AddLoop(tokens, p.value, p.next)
  }

  /** A tree's outcome from its operands' outcomes. */
  lemma EvalBinary(op: OpSym, l: Expr, r: Expr)
    ensures Eval(Binary(op, l, r)) == Strict(op, Eval(l), Eval(r))
  {
  }

  // One step of each grammar level, stated on outcomes alone, with no tree in sight.

  /** A bracket, an additive expression and its closing bracket make a primary. */
  lemma PrimaryBracket(tokens: seq<Token>, i: nat, x: Result<real>, end: nat)
    requires WellTerminated(tokens) && i + 1 < |tokens| && tokens[i] == LParen
    requires ParseAdd(tokens, i + 1) == Lift(x, end)
    requires x.Ok? ==> tokens[end] == RParen
    ensures ParsePrimary(tokens, i) == Lift(x, end + 1)
  {
  }

  /** A primary with no '**' after it is the whole power term. */
  lemma PowSingle(tokens: seq<Token>, i: nat, x: Result<real>, j: nat)
    requires WellTerminated(tokens) && i < |tokens| && j < |tokens|
    requires ParsePrimary(tokens, i) == Lift(x, j) && tokens[j] != Op(Power)
    ensures ParsePow(tokens, i) == Lift(x, j)
  {
  }

  /** A primary, '**' and a power term make a power term. */
  lemma PowCompose(tokens: seq<Token>, i: nat, x: Result<real>, j: nat, y: Result<real>, end: nat, z: Result<real>)
    requires WellTerminated(tokens) && i < |tokens| && j + 1 < |tokens|
    requires ParsePrimary(tokens, i) == Lift(x, j) && tokens[j] == Op(Power)
    requires ParsePow(tokens, j + 1) == Lift(y, end)
    requires z == Strict(Power, x, y)
    ensures ParsePow(tokens, i) == Lift(z, end)
  {
    if x.Ok? {
      assert ParsePrimary(tokens, i) == Ok(Parsed(x.value, j));
    }
  }

  /** A power term starts the multiplicative level. */
  lemma MulSingle(tokens: seq<Token>, i: nat, x: Result<real>, j: nat)
    requires WellTerminated(tokens) && i < |tokens| && j < |tokens| && tokens[j] != Op(Power)
    requires ParsePow(tokens, i) == Lift(x, j)
    ensures ParseMul(tokens, i) == ThenMulLoop(tokens, Lift(x, j))
  {
  }

  /** One turn of the multiplicative loop: an operator and a power term. */
  lemma MulCompose(tokens: seq<Token>, i: nat, x: Result<real>, j: nat, op: OpSym, y: Result<real>, end: nat, z: Result<real>)
    requires WellTerminated(tokens) && i < |tokens| && j + 1 < |tokens| && end < |tokens|
    requires tokens[j] == Op(op) && op.IsMultiplicative() && tokens[end] != Op(Power)
    requires ParseMul(tokens, i) == ThenMulLoop(tokens, Lift(x, j))
    requires ParsePow(tokens, j + 1) == Lift(y, end)
    requires z == Strict(op, x, y)
    ensures ParseMul(tokens, i) == ThenMulLoop(tokens, Lift(z, end))
  {
    if x.Ok? {
      assert ParseMul(tokens, i) == MulLoop(tokens, x.value, j);
      if y.Ok? {
        assert Strict(op, x, y) == ApplyMul(op, x.value, y.value);
      }
    }
  }

  /** The multiplicative loop stops at a token that is not its operator. */
  lemma MulStops(tokens: seq<Token>, res: Result<Parsed>)
    requires WellTerminated(tokens)
    requires res.Ok? ==> res.value.next < |tokens| && !tokens[res.value.next].IsMultiplicativeOp()
                         && tokens[res.value.next] != Op(Power)
    ensures ThenMulLoop(tokens, res) == res
  {
  }

  /** A multiplicative term with no multiplicative operator after it starts the additive level. */
  lemma AddSingle(tokens: seq<Token>, i: nat, x: Result<real>, j: nat)
    requires WellTerminated(tokens) && i < |tokens| && j < |tokens|
    requires !tokens[j].Op? || tokens[j].IsAdditiveOp()
    requires ParseMul(tokens, i) == ThenMulLoop(tokens, Lift(x, j))
    ensures ParseAdd(tokens, i) == ThenAddLoop(tokens, Lift(x, j))
  {
    if x.Ok? {
      assert MulLoop(tokens, x.value, j) == Ok(Parsed(x.value, j));
    }
  }

  /** One turn of the additive loop: '+' or '-' and a multiplicative term. */
  lemma AddCompose(tokens: seq<Token>, i: nat, x: Result<real>, j: nat, op: OpSym, y: Result<real>, end: nat, z: Result<real>)
    requires WellTerminated(tokens) && i < |tokens| && j + 1 < |tokens| && end < |tokens|
    requires tokens[j] == Op(op) && op.IsAdditive()
    requires !tokens[end].Op? || tokens[end].IsAdditiveOp()
    requires ParseAdd(tokens, i) == ThenAddLoop(tokens, Lift(x, j))
    requires ParseMul(tokens, j + 1) == Lift(y, end)
    requires z == Strict(op, x, y)
    ensures ParseAdd(tokens, i) == ThenAddLoop(tokens, Lift(z, end))
  {
    if x.Ok? {
      assert ParseAdd(tokens, i) == AddLoop(tokens, x.value, j);
    }
  }

  /** The additive loop stops at a token that is not an operator. */
  lemma AddStops(tokens: seq<Token>, res: Result<Parsed>)
    requires WellTerminated(tokens)
    requires res.Ok? ==> res.value.next < |tokens| && !tokens[res.value.next].Op?
    ensures ThenAddLoop(tokens, res) == res
  {
  }

  // The grammar levels read rendered trees.

  /** The primary level reads a number or a bracketed tree. */
  lemma {:induction false} PrimaryRenders(tokens: seq<Token>, i: nat, e: Expr)
    requires WellTerminated(tokens) && At(tokens, i, RenderAt(e, 3))
    ensures ParsePrimary(tokens, i) == Lift(Eval(e), i + |RenderAt(e, 3)|)
    decreases |RenderAt(e, 3)|, 0
  {
    if e.Const? {
      assert RenderAt(e, 3) == [Num(e.value)] + [];
      AtHead(tokens, i, Num(e.value), []);
    } else {
      var body := Render(e);
      assert RenderAt(e, 3) == [LParen] + (body + [RParen]);
      AtHead(tokens, i, LParen, body + [RParen]);
      AtSplit(tokens, i + 1, body, [RParen]);
      assert [RParen] == [RParen] + [];
      AtHead(tokens, i + 1 + |body|, RParen, []);
      AddRenders(tokens, i + 1, e);
      PrimaryBracket(tokens, i, Eval(e), i + 1 + |body|);
    }
  }

  /** The power level reads a tree of level at least 2 (or a bracketed one)
      when no '**' follows it. */
  lemma {:induction false} PowRenders(tokens: seq<Token>, i: nat, e: Expr, m: nat)
    requires WellTerminated(tokens) && 2 <= m <= 3 && At(tokens, i, RenderAt(e, m))
    requires tokens[i + |RenderAt(e, m)|] != Op(Power)
    ensures ParsePow(tokens, i) == Lift(Eval(e), i + |RenderAt(e, m)|)
    decreases |RenderAt(e, m)|, 1
  {
    if Level(e) < m || e.Const? {
      assert RenderAt(e, m) == RenderAt(e, 3);
      PrimaryRenders(tokens, i, e);
      PowSingle(tokens, i, Eval(e), i + |RenderAt(e, m)|);
    } else {
      var Binary(op, l, r) := e;
      assert op == Power;
      var left, right := RenderAt(l, 3), RenderAt(r, 2);
      assert RenderAt(e, m) == left + ([Op(Power)] + right);
      AtSplit(tokens, i, left, [Op(Power)] + right);
      AtHead(tokens, i + |left|, Op(Power), right);
      PowBinary(tokens, i, l, r);
      assert |RenderAt(e, m)| == |left| + 1 + |right| && e == Binary(Power, l, r);
    }
  }

  /** PowRenders for a '**' root, with its tokens already split. */
  lemma {:induction false} PowBinary(tokens: seq<Token>, i: nat, l: Expr, r: Expr)
    requires WellTerminated(tokens)
    requires At(tokens, i, RenderAt(l, 3))
    requires tokens[i + |RenderAt(l, 3)|] == Op(Power)
    requires At(tokens, i + |RenderAt(l, 3)| + 1, RenderAt(r, 2))
    requires tokens[i + |RenderAt(l, 3)| + 1 + |RenderAt(r, 2)|] != Op(Power)
    ensures ParsePow(tokens, i) == Lift(Eval(Binary(Power, l, r)), i + |RenderAt(l, 3)| + 1 + |RenderAt(r, 2)|)
    decreases |RenderAt(l, 3)| + 1 + |RenderAt(r, 2)|, 0
  {
    var j := i + |RenderAt(l, 3)|;
    var end := j + 1 + |RenderAt(r, 2)|;
    PrimaryRenders(tokens, i, l);
    PowRenders(tokens, j + 1, r, 2);
    PowJoin(tokens, i, l, r, j, end);
  }

  /** PowCompose for the evaluations of two subtrees. */
  lemma PowJoin(tokens: seq<Token>, i: nat, l: Expr, r: Expr, j: nat, end: nat)
    requires WellTerminated(tokens) && i < |tokens| && j + 1 < |tokens|
    requires ParsePrimary(tokens, i) == Lift(Eval(l), j) && tokens[j] == Op(Power)
    requires ParsePow(tokens, j + 1) == Lift(Eval(r), end)
    ensures ParsePow(tokens, i) == Lift(Eval(Binary(Power, l, r)), end)
  {
    EvalBinary(Power, l, r);
    PowCompose(tokens, i, Eval(l), j, Eval(r), end, Eval(Binary(Power, l, r)));
  }

  /** The multiplicative level reads the first stretch of a tree of level at
      least 1 and hands the rest of the work to its loop. */
  lemma {:induction false} MulPrefix(tokens: seq<Token>, i: nat, e: Expr)
    requires WellTerminated(tokens) && At(tokens, i, RenderAt(e, 1))
    requires tokens[i + |RenderAt(e, 1)|] != Op(Power)
    ensures ParseMul(tokens, i) == ThenMulLoop(tokens, Lift(Eval(e), i + |RenderAt(e, 1)|))
    decreases |RenderAt(e, 1)|, 2
  {
    var end := i + |RenderAt(e, 1)|;
    if Level(e) == 0 {
      assert RenderAt(e, 1) == RenderAt(e, 3);
      PowRenders(tokens, i, e, 3);
      MulSingle(tokens, i, Eval(e), end);
    } else if Level(e) >= 2 {
      assert RenderAt(e, 1) == RenderAt(e, 2);
      PowRenders(tokens, i, e, 2);
      MulSingle(tokens, i, Eval(e), end);
    } else {
      var Binary(op, l, r) := e;
      assert op.IsMultiplicative();
      var left, right := RenderAt(l, 1), RenderAt(r, 2);
      assert RenderAt(e, 1) == left + ([Op(op)] + right);
      AtSplit(tokens, i, left, [Op(op)] + right);
      AtHead(tokens, i + |left|, Op(op), right);
      MulBinary(tokens, i, op, l, r);
      assert |RenderAt(e, 1)| == |left| + 1 + |right| && e == Binary(op, l, r);
    }
  }

  /** MulPrefix for a multiplicative root, with its tokens already split. */
  lemma {:induction false} MulBinary(tokens: seq<Token>, i: nat, op: OpSym, l: Expr, r: Expr)
    requires WellTerminated(tokens) && op.IsMultiplicative()
    requires At(tokens, i, RenderAt(l, 1))
    requires tokens[i + |RenderAt(l, 1)|] == Op(op)
    requires At(tokens, i + |RenderAt(l, 1)| + 1, RenderAt(r, 2))
    requires tokens[i + |RenderAt(l, 1)| + 1 + |RenderAt(r, 2)|] != Op(Power)
    ensures ParseMul(tokens, i)
            == ThenMulLoop(tokens, Lift(Eval(Binary(op, l, r)), i + |RenderAt(l, 1)| + 1 + |RenderAt(r, 2)|))
    decreases |RenderAt(l, 1)| + 1 + |RenderAt(r, 2)|, 1
  {
    var j := i + |RenderAt(l, 1)|;
    var end := j + 1 + |RenderAt(r, 2)|;
    MulPrefix(tokens, i, l);
    PowRenders(tokens, j + 1, r, 2);
    MulJoin(tokens, i, op, l, r, j, end);
  }

  /** MulCompose for the evaluations of two subtrees. */
  lemma MulJoin(tokens: seq<Token>, i: nat, op: OpSym, l: Expr, r: Expr, j: nat, end: nat)
    requires WellTerminated(tokens) && i < |tokens| && j + 1 < |tokens| && end < |tokens|
    requires tokens[j] == Op(op) && op.IsMultiplicative() && tokens[end] != Op(Power)
    requires ParseMul(tokens, i) == ThenMulLoop(tokens, Lift(Eval(l), j))
    requires ParsePow(tokens, j + 1) == Lift(Eval(r), end)
    ensures ParseMul(tokens, i) == ThenMulLoop(tokens, Lift(Eval(Binary(op, l, r)), end))
  {
    EvalBinary(op, l, r);
    MulCompose(tokens, i, Eval(l), j, op, Eval(r), end, Eval(Binary(op, l, r)));
  }

  /** The additive level reads the first stretch of any tree and hands the
      rest of the work to its loop, provided only '+', '-' or a non-operator
      follows the tree. */
  lemma {:induction false} AddPrefix(tokens: seq<Token>, i: nat, e: Expr)
    requires WellTerminated(tokens) && At(tokens, i, Render(e))
    requires !tokens[i + |Render(e)|].Op? || tokens[i + |Render(e)|].IsAdditiveOp()
    ensures ParseAdd(tokens, i) == ThenAddLoop(tokens, Lift(Eval(e), i + |Render(e)|))
    decreases |Render(e)|, 3
  {
    if Level(e) >= 1 {
      assert RenderAt(e, 1) == Render(e);
      MulPrefix(tokens, i, e);
      AddSingle(tokens, i, Eval(e), i + |Render(e)|);
    } else {
      var Binary(op, l, r) := e;
      assert op.IsAdditive();
      var left, right := RenderAt(l, 0), RenderAt(r, 1);
      assert left == Render(l);
      assert Render(e) == left + ([Op(op)] + right);
      AtSplit(tokens, i, left, [Op(op)] + right);
      AtHead(tokens, i + |left|, Op(op), right);
      AddBinary(tokens, i, op, l, r);
      assert |Render(e)| == |left| + 1 + |right| && e == Binary(op, l, r);
    }
  }

  /** AddPrefix for an additive root, with its tokens already split. */
  lemma {:induction false} AddBinary(tokens: seq<Token>, i: nat, op: OpSym, l: Expr, r: Expr)
    requires WellTerminated(tokens) && op.IsAdditive()
    requires At(tokens, i, Render(l))
    requires tokens[i + |Render(l)|] == Op(op)
    requires At(tokens, i + |Render(l)| + 1, RenderAt(r, 1))
    requires var end := i + |Render(l)| + 1 + |RenderAt(r, 1)|;
             !tokens[end].Op? || tokens[end].IsAdditiveOp()
    ensures ParseAdd(tokens, i)
            == ThenAddLoop(tokens, Lift(Eval(Binary(op, l, r)), i + |Render(l)| + 1 + |RenderAt(r, 1)|))
    decreases |Render(l)| + 1 + |RenderAt(r, 1)|, 2
  {
    var j := i + |Render(l)|;
    var end := j + 1 + |RenderAt(r, 1)|;
    AddPrefix(tokens, i, l);
    MulPrefix(tokens, j + 1, r);
    AddJoin(tokens, i, op, l, r, j, end);
  }

  /** AddCompose for the evaluations of two subtrees, the right one read by
      the multiplicative level up to a token its loop does not take. */
  lemma AddJoin(tokens: seq<Token>, i: nat, op: OpSym, l: Expr, r: Expr, j: nat, end: nat)
    requires WellTerminated(tokens) && i < |tokens| && j + 1 < |tokens| && end < |tokens|
    requires tokens[j] == Op(op) && op.IsAdditive()
    requires !tokens[end].Op? || tokens[end].IsAdditiveOp()
    requires ParseAdd(tokens, i) == ThenAddLoop(tokens, Lift(Eval(l), j))
    requires ParseMul(tokens, j + 1) == ThenMulLoop(tokens, Lift(Eval(r), end))
    ensures ParseAdd(tokens, i) == ThenAddLoop(tokens, Lift(Eval(Binary(op, l, r)), end))
  {
    MulStops(tokens, Lift(Eval(r), end));
    EvalBinary(op, l, r);
    AddCompose(tokens, i, Eval(l), j, op, Eval(r), end, Eval(Binary(op, l, r)));
  }

  /** The additive level reads a whole tree when a non-operator token follows it. */
  lemma {:induction false} AddRenders(tokens: seq<Token>, i: nat, e: Expr)
    requires WellTerminated(tokens) && At(tokens, i, Render(e))
    requires !tokens[i + |Render(e)|].Op?
    ensures ParseAdd(tokens, i) == Lift(Eval(e), i + |Render(e)|)
    decreases |Render(e)|, 4
  {
    AddPrefix(tokens, i, e);
    AddStops(tokens, Lift(Eval(e), i + |Render(e)|));
  }

  /** The central theorem: evaluating the tokens of any expression tree gives
      the tree's strict left-to-right evaluation. Balanced trailing tokens that
      do not start with an operator are ignored, since the final cursor is
      never compared with the position of EOF. */
  lemma EvaluateRender(e: Expr, junk: seq<Token>)
    requires Balanced(junk) && (junk != [] ==> !junk[0].Op?)
    ensures WellTerminated(Render(e) + junk + [EOF])
    ensures EvaluateTokens(Render(e) + junk + [EOF]) == Eval(e)
  {
    var body := Render(e);
    var tokens := body + junk + [EOF];
    assert tokens[0..|body|] == body;
    assert tokens[|body|] == if junk != [] then junk[0] else EOF;
    assert Balanced(tokens) by {
      RenderBalanced(e);
      BalancedSingle(EOF);
      BalancedConcat(body, junk);
      BalancedConcat(body + junk, [EOF]);
    }
    AddRenders(tokens, 0, e);
  }

  /** The same theorem for the whole pipeline, from any input whose pieces
      tokenize to the tree's tokens. */
  lemma EvaluateInput(e: Expr, input: string, validate: string -> bool, split: string -> Option<seq<string>>)
    requires validate(input) && split(input).Some?
    requires Lexer.Tokenize(split(input).value) == Ok(Render(e) + [EOF])
    ensures Evaluate(input, validate, split) == Eval(e)
  {
    BalancedSingle(EOF);
    EvaluateRender(e, []);
    assert Render(e) + [] + [EOF] == Render(e) + [EOF];
  }
}
