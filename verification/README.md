# Recursive-descent calculator, modelled in Dafny

This project models the evaluator of the Recursive-Descent-Calculator: the
class `Calc` in `src/calc.py`. The model starts after the input has been
split into pieces. It turns the pieces into tokens, checks the brackets,
and evaluates the tokens with the four-level recursive-descent grammar:

    add     := mul (('+' | '-') mul)*
    mul     := pow (('*' | '/' | '//' | '%') pow)*
    pow     := primary ('**' pow)?
    primary := NUM | '(' add ')'

Modules, in dependency order:

- `Tokens`: the token, operator and error kinds, plus `Result` and `Option`.
- `Arith`: the arithmetic of one operator step. This is `is_integer`, floor
  division and floor modulo, and `**`, each with the evaluator's error checks.
- `Lexer`: `tokenize`, with the host's number conversion read as a signed
  decimal literal.
- `Brackets`: `check_brackets`. The stack scan is proved equal to a
  declarative "balanced" predicate.
- `Parser`: `parse_add`, `parse_mull`, `parse_pow` and `parse_primary`.
  Each is a function from a token list and a cursor to a value and the next
  cursor, or to an error. The two `while` loops are the tail-recursive
  `AddLoop` and `MulLoop`.
- `Calc`: `eval`. Whole-string validation and splitting are function
  parameters.
- `Syntax`: a reference semantics that is independent of the parser. It has
  expression trees, strict left-to-right evaluation (`Eval`), and `Render`,
  which writes a tree with only the brackets that precedence and
  associativity require.
- `Correctness`: the agreement theorem. Evaluating the tokens of any rendered
  tree gives that tree's value, or the first error met in strict evaluation
  order.
- `Locality`: a successful parse at any level depends only on the tokens it
  consumed and on the token it stops on. A non-operator there may be
  replaced by any other non-operator.
- `Properties`: consequences of the theorem for short inputs. These cover
  associativity, precedence, bracket grouping, trailing tokens, and the
  repository's test expressions.

Numbers are exact reals. Every error the source raises has its own error
kind. The eight `CalcError` raises are `InvalidCharacters` (src/calc.py:191-192),
`PatternError` (43-46), `UnbalancedBrackets` (197-198), `DivisionByZero`
(121-122, 125-126), `IntegerOnlyOperation` (129-132, 136-139),
`IndeterminateForm` (156-157), `UnmatchedBracket` (171-172) and
`InvalidToken` (181). Two kinds stand for errors the host raises itself.
`ZeroDivisionFault` is the host's `ZeroDivisionError` (`x % 0`, `0 ** -n`).
`MalformedNumber` is a piece that the number conversion rejects.
`FractionalExponent` is not an error of the source at all. `4 ** 0.5` yields
2.0 there, but this model does not compute powers with a non-integral
exponent and returns this kind instead (see "## Left out").
`RaisedByEvaluator` holds for every kind that can end the parse:
the five parse-stage `CalcError` kinds, `ZeroDivisionFault` and
`FractionalExponent`.

Behaviour of the source that the model keeps:

- `eval` never checks that the parse reached EOF. The parse of a successful
  evaluation reads nothing after the cursor it stops on. The bracket check
  before it does read the whole list. So any balanced continuation that
  starts with a non-operator gives the same result
  (`Locality.TrailingTokensIgnored`), and "( 2 ) 3" evaluates to 2
  (`Locality.BracketThenNumberExample`).
- `%` checks integrality before it looks at the divisor. `%` by zero is
  therefore the host's division error, not the calculator's.
- `0 ** 0` is refused before the power is computed.

## Model

| member | source | states |
|---|---|---|
| Lexer.SymbolOf | src/calc.py:59-60 | a piece names an operator exactly when it is that operator's text; no other piece names one |
| Lexer.SymbolRoundTrip | src/calc.py:59-60 | the text of every operator is recognised as that operator |
| Lexer.ParseUnsigned | src/calc.py:62 | a number conversion never yields a negative value without a sign, and a pure digit string reads as its decimal value; Lexer.UnsignedLiteralAccepted and Lexer.PointLiteralValue cover literals with a point |
| Lexer.UnsignedLiteralAccepted | src/calc.py:62 | the unsigned conversion accepts exactly a non-empty digit run, or digits, a point and digits with at least one digit in all |
| Lexer.PointLiteralValue | src/calc.py:62 | a literal with a point reads as all its digits taken together, divided by ten to the number of digits after the point ("2.5" is 25 / 10) |
| Lexer.ParseDecimal | src/calc.py:62 | a piece without a sign reads exactly as the unsigned literal, '+' leaves the unsigned reading unchanged, '-' negates it, and every accepted piece contains a digit |
| Lexer.NatTextRoundTrip | src/calc.py:62 | the decimal text of any natural number, bare or with a sign, reads back as that number |
| Lexer.Classify | src/calc.py:58-62 | brackets and operator strings become payload-free tokens; any other piece becomes a number exactly when it converts, else the conversion error |
| Lexer.Tokenize | src/calc.py:56-64 | one token per piece in order, each the piece's classification, then a single EOF; fails exactly when some piece fails to classify |
| Lexer.TokenizeOk | src/calc.py:56-64 | conversely, any list of classifications followed by EOF is what Tokenize yields |
| Lexer.ClassifyUnsignedLiteral | src/calc.py:58-62 | every piece the unsigned conversion reads (".5", "007", "3.25", ...), bare or after '-' or '+', classifies as a number token of that value, negated after '-' |
| Lexer.ClassifyNatText | src/calc.py:58-62 | "n", "-n" and "+n" classify as the numbers n, -n and n |
| Lexer.TokenizeSum | tests/tests.py:22-26 | ["2","+","3"] tokenizes to 2, '+', 3, EOF |
| Lexer.TokenizeSigned | tests/tests.py:28-32 | ["-3","*","+2"] tokenizes to -3, '*', 2, EOF |
| Lexer.TokenizeBrackets | tests/tests.py:34-46 | ["(","-2","+","3",")"] tokenizes to '(', -2, '+', 3, ')', EOF |
| Lexer.ClassifyDecimalExamples | tests/tests.py:93-96 | the pieces "2.5" and "5.1" of the error tests, and "-3.5" of tests/tests.py:9, classify as exactly 2.5, 5.1 and -3.5 |
| Lexer.TokenizeFloorDivideDecimal | tests/tests.py:93-94 | ["2","//","2.5"] tokenizes to 2, '//', 2.5, EOF |
| Lexer.TokenizeModuloDecimal | tests/tests.py:95-96 | ["5.1","%","2"] tokenizes to 5.1, '%', 2, EOF |
| Brackets.BalancedFromStep | src/calc.py:73-79 | consuming one token moves the depth by +1 for '(', -1 for ')' and 0 otherwise, without changing whether the rest is balanced |
| Brackets.Scan | src/calc.py:71-81 | a successful scan closes every bracket on the stack and every one opened after it, so the ')' count equals the stack depth plus the '(' count; Brackets.ScanMeaning states the full condition |
| Brackets.ScanMeaning | src/calc.py:71-81 | the stack scan succeeds exactly when the rest is balanced from the stack's depth |
| Brackets.CheckBrackets | src/calc.py:66-81 | the check passes exactly when no prefix closes more brackets than it opens and the counts of '(' and ')' are equal |
| Brackets.ScanIgnoresOthers | src/calc.py:73-79 | removing a non-bracket token anywhere leaves the scan's verdict unchanged, whatever the stack |
| Brackets.CheckIgnoresOthers | src/calc.py:73-79 | numbers, operators and EOF play no part in the bracket check |
| Brackets.CheckBracketsExamples | tests/tests.py:49-56 | "(1+(2*3))" passes the check and "(1+2" fails it |
| Arith.FloorDivModBounds | src/calc.py:124-135 | integer floor division rounds toward negative infinity, the remainder takes the divisor's sign, and quotient times divisor plus remainder is the dividend |
| Arith.ApplyMul | src/calc.py:119-141 | '*' never fails, '//' and '%' yield integral values, and the only failures are the division error, the integer-only error and the host's division error; Arith.ApplyMulMeaning states each operator's result |
| Arith.ApplyMulMeaning | src/calc.py:119-141 | '*' multiplies; '/' fails with the division error exactly on a zero divisor and otherwise inverts multiplication; '//' refuses zero, then non-integral operands, then floors the quotient; '%' refuses non-integral operands, then zero, then yields the remainder with the divisor's sign |
| Arith.FloorDivReal | src/calc.py:127-128 | floor division of two integral reals lies within one divisor of the dividend on the side the divisor's sign gives |
| Arith.DivModIdentity | src/calc.py:124-139 | for integral operands and a non-zero divisor, both '//' and '%' succeed and a == b * (a // b) + a % b |
| Arith.ApplyPow | src/calc.py:153-158 | a result needs an integral exponent, a non-zero base never gives zero, and the only failures are the indeterminate form, a fractional exponent and the host's division error; Arith.ApplyPowMeaning states when it succeeds and its value |
| Arith.ApplyPowMeaning | src/calc.py:153-158 | '**' fails with the indeterminate-form error exactly on 0 ** 0, succeeds exactly on an integral exponent that is not a negative power of zero, and yields the repeated product or its reciprocal |
| Parser.ParseAdd | src/calc.py:90-104 | on success the cursor moves strictly forward, stays before the end, and stops on a token that is no operator; every failure is one the evaluator raises |
| Parser.AddLoop | src/calc.py:98-102 | the loop never moves the cursor backward, stops on a non-operator, and returns the accumulated value unchanged when nothing is consumed |
| Parser.ParseMul | src/calc.py:106-143 | on success the cursor moves strictly forward and stops on a token that is neither a multiplicative operator nor '**' |
| Parser.MulLoop | src/calc.py:114-141 | the loop never moves the cursor backward, stops on a non-multiplicative token, and returns the accumulated value unchanged when nothing is consumed |
| Parser.ParsePow | src/calc.py:145-160 | on success the cursor moves strictly forward and never stops on '**', since a '**' after a primary is always consumed |
| Parser.ParsePrimary | src/calc.py:162-181 | a number is consumed with its value; a token that is neither a number nor '(' fails with the invalid-token error; '(' takes the inner additive expression and must be closed by the very next token, else the unmatched-bracket error |
| Calc.EvaluateTokens | src/calc.py:197-202 | fails with the bracket error exactly when the tokens are unbalanced; otherwise succeeds exactly when the additive level at cursor 0 does, with its value, whatever follows the final cursor |
| Calc.Evaluate | src/calc.py:183-202 | invalid characters, a splitting failure and a failed number conversion are reported in that order before any token is evaluated; an input that passes all three yields exactly the token stage's outcome on its tokens |
| Syntax.Apply | src/calc.py:98-158 | '+' and '-' never fail and undo each other; every failure of an operator is one of the arithmetic failures |
| Syntax.Strict | src/calc.py:96-104 | an operation succeeds exactly when both operands and the operator succeed, and then yields the operator's value; any failure is an operand's own or an arithmetic failure |
| Syntax.RenderBalanced | src/calc.py:66-81 | the rendering of any tree is balanced and contains no EOF |
| Correctness.PrimaryBracket | src/calc.py:168-174 | '(', an additive expression ending on ')', makes a primary with its value, ending after the ')' |
| Correctness.PowCompose | src/calc.py:151-158 | a primary followed by '**' and a power term evaluates to the strict power of the two outcomes |
| Correctness.MulCompose | src/calc.py:112-141 | extending a multiplicative term by one operator and power term applies the operator to the outcomes, the left's error first |
| Correctness.AddCompose | src/calc.py:96-102 | extending an additive term by '+' or '-' and a multiplicative term adds or subtracts the outcomes, the left's error first |
| Correctness.PrimaryRenders | src/calc.py:162-181 | a rendered tree in brackets, or a constant, parses at the primary level to the tree's value or error |
| Correctness.PowRenders | src/calc.py:145-160 | a rendered tree of power level or above parses at the power level to its value or error, ending right after its tokens |
| Correctness.MulPrefix | src/calc.py:106-143 | a rendered tree of multiplicative level or above is read by the multiplicative level as the tree's outcome, with the loop continuing after it |
| Correctness.AddPrefix | src/calc.py:90-104 | any rendered tree is read by the additive level as the tree's outcome, with the loop continuing after it |
| Correctness.AddRenders | src/calc.py:90-104 | a rendered tree followed by a non-operator token parses at the additive level to exactly the tree's value or first error, ending at that token |
| Correctness.EvaluateRender | src/calc.py:197-202 | evaluating any tree's rendering followed by balanced tokens that do not start with an operator gives the tree's strict value or first error |
| Correctness.EvaluateInput | src/calc.py:183-202 | on any input that validates and splits into pieces tokenizing to a tree's rendering, the calculator returns the tree's value or first error |
| Locality.PrimaryLocal | src/calc.py:162-181 | a successful primary gives the same result on any token list that agrees on the tokens it consumed and has a non-operator, or the same token, where it stops |
| Locality.PowLocal | src/calc.py:145-160 | the same for the power level; the token it stops on matters only through the '**' test |
| Locality.MulLoopLocal | src/calc.py:114-141 | the same for the multiplicative loop from any cursor and accumulated value |
| Locality.MulLocal | src/calc.py:106-143 | the same for the multiplicative level |
| Locality.AddLoopLocal | src/calc.py:98-102 | the same for the additive loop from any cursor and accumulated value |
| Locality.AddLocal | src/calc.py:90-104 | the same for the additive level |
| Locality.TrailingTokensIgnored | src/calc.py:197-202 | a successful evaluation is unchanged by replacing everything from the cursor it stops on with any balanced continuation that does not start with an operator |
| Locality.BracketThenNumberExample | src/calc.py:200-202 | "( 2 ) 3" evaluates to 2 |
| Properties.SingleOperator | src/calc.py:90-160 | one operator between two numbers yields that operator applied to them, with its error checks |
| Properties.LeftAssociative | src/calc.py:90-143 | two additive, or two multiplicative, operators group from the left |
| Properties.PowerRightAssociative | src/calc.py:145-160 | a ** b ** c is a ** (b ** c) |
| Properties.TighterOnRight | src/calc.py:90-160 | a lower-level operator followed by a higher-level one groups the higher one first |
| Properties.TighterOnLeft | src/calc.py:90-160 | a higher-level operator followed by a lower-level one groups the higher one first |
| Properties.BracketsGroup | src/calc.py:162-174 | a bracketed lower-level operation is evaluated before a higher-level operator outside it |
| Properties.TrailingIgnored | src/calc.py:200-202 | a number followed by another number evaluates to the first one |
| Properties.AdditiveExamples | tests/tests.py:70-86 | 2+3 is 5, 2-5 is -3, -3+5 is 2 and +3+5 is 8 |
| Properties.GroupingExamples | tests/tests.py:73-74 | 2*3+4 is 10 and (2+3)*4 is 20 |
| Properties.DivisionExamples | tests/tests.py:76-79 | 10/2 is 5, 7//3 is 2 and 7%3 is 1 |
| Properties.FloorRoundingExamples | src/calc.py:124-135 | -7//2 is -4 and -7%2 is 1 |
| Properties.PowerExample | tests/tests.py:81-82 | 2**3**2 is 512 |
| Properties.DecimalErrorExamples | tests/tests.py:93-96 | the pieces of "2//2.5" and "5.1%2" tokenize, reading their decimal points, and then fail with the integer-only error rather than a malformed number |
| Properties.ErrorExamples | tests/tests.py:88-98 | 2/0 and 2//0 fail with the division error, 0**0 with the indeterminate-form error |
| Properties.IntegerOnlyExamples | tests/tests.py:93-96 | 2//2.5 and 5.1%2 fail with the integer-only error |
| Properties.UnclosedBracketExample | tests/tests.py:99-100 | "(2+3" fails the bracket check |
| Properties.MisplacedBracketExample | src/calc.py:168-172 | "( 2 3 )" is balanced but fails with the unmatched-bracket error |
| Properties.LeadingOperatorExample | src/calc.py:176-181 | a leading '*' fails with the invalid-token error |

## Left out

- `validate_expr` and `parse` (src/calc.py:34-46, 83-88) match regular expressions defined in `src/constants.py`. That file is not part of this model. `Calc.Evaluate` takes both as function parameters. The test "2+2 junk" depends only on the validating pattern, so it is not stated.
- Lexer.SymbolOf: the operator and bracket sets tested at src/calc.py:59 come from `src/constants.py`. The model takes them to be exactly the seven operator strings and "(" and ")", matched by whole-string equality. The comparisons at src/calc.py:98, 114, 153, 168 and 171 use the same strings. Lexer.Classify rests on the same assumption.
- `__new__` (src/calc.py:27-32) only forwards to `eval`.
- Floating point: numbers are exact reals, so rounding, overflow, infinities and NaN are not modelled. `/` is exact division.
- Lexer.ParseDecimal: accepts only an optional sign and a plain decimal literal of ASCII digits. The host's `float` also accepts exponents, underscores, "inf" and "nan", surrounding spaces, and decimal digits of other scripts (Arabic-Indic "٣" reads as 3), and those forms are not modelled.
- Arith.ApplyPowMeaning: a non-integral exponent yields `FractionalExponent` instead of a real-valued (or, for a negative base, complex) power, because exact reals have no general root.
- `**` and `%` raise the host's `ZeroDivisionError` for a zero divisor or a negative power of zero. Both are modelled as one error kind, `ZeroDivisionFault`.
- Error messages are not modelled, only which error is raised.
- Recursion depth: the host's recursion limit on deeply nested input is not modelled.
