/** The top-level entry: validation, splitting, tokenizing, the bracket
    check and the additive level from cursor 0, stopping at the first failure.
    The validating and splitting regular expressions are parameters. */
module Calc {
  import opened Tokens
  import opened Lexer
  import opened Brackets
  import opened Parser

  /** Evaluation from the token stage on: the bracket check first, then the
      additive level at cursor 0. The cursor the parse ends on is not
      inspected: the parse reads nothing after it, though the bracket check
      reads every token. */
  function EvaluateTokens(tokens: seq<Token>): (r: Result<real>)
    requires WellTerminated(tokens)
    ensures r == Err(UnbalancedBrackets) <==> !Balanced(tokens)
    ensures r.Ok? <==> Balanced(tokens) && ParseAdd(tokens, 0).Ok?
    ensures r.Ok? ==> r.value == ParseAdd(tokens, 0).value.value
    ensures r.Err? && Balanced(tokens) ==> r.error == ParseAdd(tokens, 0).error
  {
    if !CheckBrackets(tokens) then Err(UnbalancedBrackets)
    else
      match ParseAdd(tokens, 0)
      case Err(e) => Err(e)
      case Ok(p) => Ok(p.value)
  }

  /** The whole pipeline on an input string. `validate` stands for the
      whole-string pattern match and `split` for the tokenizing pattern's
      scan, which yields None when it raises. */
  function Evaluate(input: string, validate: string -> bool, split: string -> Option<seq<string>>): (r: Result<real>)
    ensures !validate(input) ==> r == Err(InvalidCharacters)
    ensures validate(input) && split(input).None? ==> r == Err(PatternError)
    ensures validate(input) && split(input).Some? && Tokenize(split(input).value).Err? ==> r == Err(MalformedNumber)
    ensures validate(input) && split(input).Some? && Tokenize(split(input).value).Ok? ==>
              r == EvaluateTokens(Tokenize(split(input).value).value)
    ensures r.Ok? || r.error.RaisedByEvaluator() || r.error == UnbalancedBrackets ==>
              && validate(input) && split(input).Some?
              && Tokenize(split(input).value).Ok?
              && r == EvaluateTokens(Tokenize(split(input).value).value)
  {
    if !validate(input) then Err(InvalidCharacters)
    else
      match split(input)
      case None => Err(PatternError)
      case Some(pieces) =>
        match Tokenize(pieces)
        case Err(e) => Err(e)
        case Ok(tokens) => EvaluateTokens(tokens)
  }
}
