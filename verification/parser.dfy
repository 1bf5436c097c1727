/** The recursive-descent evaluator. Each grammar level takes the token list
    and a cursor and returns the value it computed together with the cursor
    after what it consumed:

      add     := mul (('+' | '-') mul)*          left-associative
      mul     := pow (('*' | '/' | '//' | '%') pow)*   left-associative
      pow     := primary ('**' pow)?             right-associative
      primary := NUM | '(' add ')'

    The two `while` loops of the additive and multiplicative levels are the
    tail-recursive helpers AddLoop and MulLoop. Every level stops on a token it
    cannot continue with, and never reads past EOF. */
module Parser {
  import opened Tokens
  import opened Arith

  /** A value together with the cursor of the next unconsumed token. */
  datatype Parsed = Parsed(value: real, next: nat)

  /** The additive level: one multiplicative term, then the '+'/'-' loop. */
  function ParseAdd(tokens: seq<Token>, i: nat): (r: Result<Parsed>)
    requires WellTerminated(tokens) && i < |tokens|
    ensures r.Ok? ==> i < r.value.next < |tokens| && !tokens[r.value.next].Op?
    ensures r.Err? ==> r.error.RaisedByEvaluator()
    decreases |tokens| - i, 3
  {
    match ParseMul(tokens, i)
    case Err(e) => Err(e)
    case Ok(first) => AddLoop(tokens, first.value, first.next)
  }

  /** The loop of the additive level: while the current token is '+' or '-',
      consume it and a multiplicative term, and fold it into `v` from the left. */
  function AddLoop(tokens: seq<Token>, v: real, j: nat): (r: Result<Parsed>)
    requires WellTerminated(tokens) && j < |tokens|
    requires !tokens[j].Op? || tokens[j].IsAdditiveOp()
    ensures r.Ok? ==> j <= r.value.next < |tokens| && !tokens[r.value.next].Op?
    ensures r.Ok? && r.value.next == j ==> r.value.value == v
    ensures r.Err? ==> r.error.RaisedByEvaluator()
    decreases |tokens| - j, 0
  {
    if tokens[j].IsAdditiveOp() then
      match ParseMul(tokens, j + 1)
      case Err(e) => Err(e)
      case Ok(rhs) =>
        var w := if tokens[j].sym == Plus then v + rhs.value else v - rhs.value;
        AddLoop(tokens, w, rhs.next)
    else
      Ok(Parsed(v, j))
  }

  /** The multiplicative level: one power term, then the '*', '/', '//', '%' loop. */
  function ParseMul(tokens: seq<Token>, i: nat): (r: Result<Parsed>)
    requires WellTerminated(tokens) && i < |tokens|
    ensures r.Ok? ==> i < r.value.next < |tokens|
    ensures r.Ok? ==> !tokens[r.value.next].IsMultiplicativeOp() && tokens[r.value.next] != Op(Power)
    ensures r.Err? ==> r.error.RaisedByEvaluator()
    decreases |tokens| - i, 2
  {
    match ParsePow(tokens, i)
    case Err(e) => Err(e)
    case Ok(first) => MulLoop(tokens, first.value, first.next)
  }

  /** The loop of the multiplicative level: while the current token is a
      multiplicative operator, consume it and a power term, and apply the
      operator to `v` and that term, failing as the operator demands. */
  function MulLoop(tokens: seq<Token>, v: real, j: nat): (r: Result<Parsed>)
    requires WellTerminated(tokens) && j < |tokens|
    requires tokens[j] != Op(Power)
    ensures r.Ok? ==> j <= r.value.next < |tokens|
    ensures r.Ok? ==> !tokens[r.value.next].IsMultiplicativeOp() && tokens[r.value.next] != Op(Power)
    ensures r.Ok? && r.value.next == j ==> r.value.value == v
    ensures r.Err? ==> r.error.RaisedByEvaluator()
    decreases |tokens| - j, 0
  {
    if tokens[j].IsMultiplicativeOp() then
      match ParsePow(tokens, j + 1)
      case Err(e) => Err(e)
      case Ok(rhs) =>
        match ApplyMul(tokens[j].sym, v, rhs.value)
        case Err(e) => Err(e)
        case Ok(w) => MulLoop(tokens, w, rhs.next)
    else
      Ok(Parsed(v, j))
  }

  /** The power level: a primary, and if '**' follows, a power term as the
      exponent (recursion on the right makes '**' right-associative). */
  function ParsePow(tokens: seq<Token>, i: nat): (r: Result<Parsed>)
    requires WellTerminated(tokens) && i < |tokens|
    ensures r.Ok? ==> i < r.value.next < |tokens| && tokens[r.value.next] != Op(Power)
    ensures r.Err? ==> r.error.RaisedByEvaluator()
    decreases |tokens| - i, 1
  {
    match ParsePrimary(tokens, i)
    case Err(e) => Err(e)
    case Ok(base) =>
      if tokens[base.next] == Op(Power) then
        match ParsePow(tokens, base.next + 1)
        case Err(e) => Err(e)
        case Ok(exponent) =>
          match ApplyPow(base.value, exponent.value)
          case Err(e) => Err(e)
          case Ok(w) => Ok(Parsed(w, exponent.next))
      else
        Ok(base)
  }

  /** The primary level: a number, or a bracketed additive expression that
      must be closed by the very next token. */
  function ParsePrimary(tokens: seq<Token>, i: nat): (r: Result<Parsed>)
    requires WellTerminated(tokens) && i < |tokens|
    ensures r.Ok? ==> i < r.value.next < |tokens|
    ensures tokens[i].Num? ==> r == Ok(Parsed(tokens[i].value, i + 1))
    ensures !tokens[i].Num? && tokens[i] != LParen ==> r == Err(InvalidToken)
    ensures tokens[i] == LParen && r.Ok? ==> tokens[r.value.next - 1] == RParen
    ensures tokens[i] == LParen && ParseAdd(tokens, i + 1).Ok? ==>
              var inner := ParseAdd(tokens, i + 1).value;
              if tokens[inner.next] == RParen then r == Ok(Parsed(inner.value, inner.next + 1))
              else r == Err(UnmatchedBracket)
    ensures r.Err? ==> r.error.RaisedByEvaluator()
    decreases |tokens| - i, 0
  {
    if tokens[i] == LParen then
      match ParseAdd(tokens, i + 1)
      case Err(e) => Err(e)
      case Ok(inner) =>
        if tokens[inner.next] != RParen then Err(UnmatchedBracket)
        else Ok(Parsed(inner.value, inner.next + 1))
    else if tokens[i].Num? then
      Ok(Parsed(tokens[i].value, i + 1))
    else
      Err(InvalidToken)
  }
}
