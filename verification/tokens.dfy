/** Tokens, error kinds and the failure-carrying result types shared by every
    stage of the calculator pipeline. */
module Tokens {

  /** The seven arithmetic operator symbols: + - * / // % ** */
  datatype OpSym = Plus | Minus | Times | Divide | FloorDivide | Modulo | Power
  {
    /** The operators folded by the additive grammar level. */
    predicate IsAdditive() {
      this == Plus || this == Minus
    }

    /** The operators folded by the multiplicative grammar level. */
    predicate IsMultiplicative() {
      this == Times || this == Divide || this == FloorDivide || this == Modulo
    }
  }

  /** A tagged token: a number with its value, an operator or a bracket with
      no payload, or the end-of-input marker the lexer appends. */
  datatype Token = Num(value: real) | Op(sym: OpSym) | LParen | RParen | EOF
  {
    predicate IsAdditiveOp() {
      Op? && sym.IsAdditive()
    }

    predicate IsMultiplicativeOp() {
      Op? && sym.IsMultiplicative()
    }
  }

  /** The ways an evaluation can fail. The first eight are the calculator's own
      errors; ZeroDivisionFault and MalformedNumber are failures the host
      language raises itself; FractionalExponent is no failure of the
      calculator at all but marks a power this model does not compute. */
  datatype ErrorKind =
    | InvalidCharacters     // the validator rejects the input
    | PatternError          // splitting the input into pieces raised
    | UnbalancedBrackets    // the stack-based bracket scan fails
    | UnmatchedBracket      // primary expects ')' and finds something else
    | InvalidToken          // primary finds neither a number nor '('
    | DivisionByZero        // '/' or '//' with a zero right operand
    | IntegerOnlyOperation  // '//' or '%' with a non-integral operand
    | IndeterminateForm     // 0 ** 0
    | ZeroDivisionFault     // host error: '%' by zero, or 0 raised to a negative power
    | MalformedNumber       // host error: a piece is neither a symbol nor a decimal literal
    | FractionalExponent    // '**' with a non-integral exponent: not computed by this model
  {
    /** The failures that can end the recursive-descent evaluation, whether the
        calculator raises them or the host's arithmetic does. */
    predicate RaisedByEvaluator() {
      !(InvalidCharacters? || PatternError? || UnbalancedBrackets? || MalformedNumber?)
    }

    /** The failures an operator itself can cause once both operands are known. */
    predicate ArithmeticFailure() {
      DivisionByZero? || IntegerOnlyOperation? || IndeterminateForm? || ZeroDivisionFault? || FractionalExponent?
    }
  }

  datatype Result<+T> = Ok(value: T) | Err(error: ErrorKind)

  datatype Option<+T> = None | Some(value: T)

  /** A token sequence as the lexer produces it: non-empty and ending in EOF. */
  predicate WellTerminated(tokens: seq<Token>) {
    |tokens| > 0 && tokens[|tokens| - 1] == EOF
  }
}
