/** The token stage: each piece the splitter produced becomes a tagged token,
    and an EOF marker is appended. Numbers are read as decimal literals. */
module Lexer {
  import opened Tokens

  /** The text of each operator symbol. */
  function SymbolText(o: OpSym): string
  {
    match o
    case Plus => "+"
    case Minus => "-"
    case Times => "*"
    case Divide => "/"
    case FloorDivide => "//"
    case Modulo => "%"
    case Power => "**"
  }

  /** The operator a piece names, if it is one of the operator strings. */
  function SymbolOf(piece: string): (r: Option<OpSym>)
    ensures r.Some? ==> SymbolText(r.value) == piece
    ensures r.None? ==> forall o: OpSym :: SymbolText(o) != piece
  {
    if piece == "+" then Some(Plus)
    else if piece == "-" then Some(Minus)
    else if piece == "*" then Some(Times)
    else if piece == "/" then Some(Divide)
    else if piece == "//" then Some(FloorDivide)
    else if piece == "%" then Some(Modulo)
    else if piece == "**" then Some(Power)
    else None
  }

  lemma SymbolRoundTrip(o: OpSym)
    ensures SymbolOf(SymbolText(o)) == Some(o)
  {
  }

  predicate IsDigit(c: char) {
    '0' <= c <= '9'
  }

  predicate AllDigits(s: string) {
    forall k | 0 <= k < |s| :: IsDigit(s[k])
  }

  /** The value of a run of decimal digits, most significant first. */
  function DigitsValue(s: string): nat
    requires AllDigits(s)
  {
    if s == [] then 0
    else DigitsValue(s[..|s| - 1]) * 10 + (s[|s| - 1] as int - '0' as int)
  }

  function Pow10(n: nat): (r: nat)
    ensures r > 0
  {
    if n == 0 then 1 else 10 * Pow10(n - 1)
  }

  /** The length of the run of digits that starts `s`. */
  function DigitRun(s: string): (k: nat)
    ensures k <= |s| && AllDigits(s[..k])
    ensures k < |s| ==> !IsDigit(s[k])
  {
    if s == [] || !IsDigit(s[0]) then 0
    else
      var k := 1 + DigitRun(s[1..]);
      assert s[..k] == [s[0]] + s[1..][..k - 1];
      k
  }

  /** An unsigned decimal literal: digits, optionally a point and more
      digits, with at least one digit in all ("7", "3.5", "3.", ".5"). */
  function ParseUnsigned(s: string): (r: Option<real>)
    ensures r.Some? ==> r.value >= 0.0
    ensures AllDigits(s) && s != [] ==> r == Some(DigitsValue(s) as real)
  {
    var k := DigitRun(s);
    if k == |s| then
      assert s[..k] == s;
      if k == 0 then None else Some(DigitsValue(s) as real)
    else if s[k] != '.' then None
    else
      var fraction := s[k + 1..];
      if !AllDigits(fraction) || (k == 0 && fraction == []) then None
      else
        AllDigitsConcat(s[..k], fraction);
        Some(DigitsValue(s[..k] + fraction) as real / Pow10(|fraction|) as real)
  }

  /** The number conversion applied to a piece that is not a symbol: an
      optional sign followed by an unsigned decimal literal. */
  function ParseDecimal(s: string): (r: Option<real>)
    ensures |s| > 0 && s[0] == '+' ==> r == ParseUnsigned(s[1..])
    ensures |s| > 0 && s[0] == '-' ==> (r.Some? <==> ParseUnsigned(s[1..]).Some?)
    ensures |s| > 0 && s[0] == '-' && r.Some? ==> r.value == -ParseUnsigned(s[1..]).value
    ensures (|s| == 0 || (s[0] != '+' && s[0] != '-')) ==> r == ParseUnsigned(s)
    ensures r.Some? ==> exists k | 0 <= k < |s| :: IsDigit(s[k])
  {
    if |s| > 0 && s[0] == '-' then
      match ParseUnsigned(s[1..])
      case None => None
      case Some(v) => Some(-v)
    else if |s| > 0 && s[0] == '+' then ParseUnsigned(s[1..])
    else ParseUnsigned(s)
  }

  /** Classifies one piece: operator strings and brackets carry no payload,
      everything else must read as a number. */
  function Classify(piece: string): (r: Result<Token>)
    ensures r.Ok? ==> r.value != EOF
    ensures piece == "(" ==> r == Ok(LParen)
    ensures piece == ")" ==> r == Ok(RParen)
    ensures forall o: OpSym :: piece == SymbolText(o) ==> r == Ok(Op(o))
    ensures piece != "(" && piece != ")" && SymbolOf(piece).None? ==>
              (r.Ok? <==> ParseDecimal(piece).Some?)
              && (r.Ok? ==> r.value == Num(ParseDecimal(piece).value))
              && (r.Err? ==> r.error == MalformedNumber)
  {
    if piece == "(" then Ok(LParen)
    else if piece == ")" then Ok(RParen)
    else match SymbolOf(piece)
      case Some(o) => Ok(Op(o))
      case None =>
        match ParseDecimal(piece)
        case Some(v) => Ok(Num(v))
        case None => Err(MalformedNumber)
  }

  /** The token sequence for a list of pieces: one token per piece, in order,
      then EOF. A piece that is neither a symbol nor a number fails the whole
      conversion. */
  function Tokenize(pieces: seq<string>): (r: Result<seq<Token>>)
    ensures r.Ok? ==> |r.value| == |pieces| + 1 && WellTerminated(r.value)
    ensures r.Ok? ==> forall k | 0 <= k < |pieces| :: Classify(pieces[k]) == Ok(r.value[k])
    ensures r.Ok? ==> forall k | 0 <= k < |pieces| :: r.value[k] != EOF
    ensures r.Err? <==> exists k | 0 <= k < |pieces| :: Classify(pieces[k]).Err?
    ensures r.Err? ==> r.error == MalformedNumber
  {
    if pieces == [] then Ok([EOF])
    else
      match Classify(pieces[0])
      case Err(e) => Err(e)
      case Ok(first) =>
        match Tokenize(pieces[1..])
        case Err(e) =>
          assert forall k | 0 <= k < |pieces| - 1 :: pieces[1..][k] == pieces[k + 1];
          Err(e)
        case Ok(rest) =>
          assert forall k | 1 <= k < |pieces| :: pieces[k] == pieces[1..][k - 1];
          Ok([first] + rest)
  }

  /** The decimal text of a natural number. */
  function NatText(n: nat): (s: string)
    ensures s != [] && AllDigits(s)
  {
    if n < 10 then [('0' as int + n) as char]
    else NatText(n / 10) + [('0' as int + n % 10) as char]
  }

  lemma {:induction false} NatTextValue(n: nat)
    ensures DigitsValue(NatText(n)) == n
  {
    if n >= 10 {
      NatTextValue(n / 10);
      var s := NatText(n);
      assert s[..|s| - 1] == NatText(n / 10);
    }
  }

  /** Reading back the text of a natural number gives the number; with a
      leading '-' it gives its negation and with '+' the number itself. */
  lemma NatTextRoundTrip(n: nat)
    ensures ParseDecimal(NatText(n)) == Some(n as real)
    ensures ParseDecimal("-" + NatText(n)) == Some(-(n as real))
    ensures ParseDecimal("+" + NatText(n)) == Some(n as real)
  {
    NatTextValue(n);
    var s := NatText(n);
    assert ("-" + s)[1..] == s;
    assert ("+" + s)[1..] == s;
  }

  lemma AllDigitsConcat(a: string, b: string)
    requires AllDigits(a) && AllDigits(b)
    ensures AllDigits(a + b)
  {
    forall k | 0 <= k < |a + b|
      ensures IsDigit((a + b)[k])
    {
      if k < |a| {
        assert (a + b)[k] == a[k];
      } else {
        assert (a + b)[k] == b[k - |a|];
      }
    }
  }

  /** DigitRun is the only length whose prefix is all digits and that stops
      before a non-digit or at the end. */
  lemma {:induction false} DigitRunUnique(s: string, m: nat)
    requires m <= |s| && AllDigits(s[..m]) && (m < |s| ==> !IsDigit(s[m]))
    ensures DigitRun(s) == m
  {
    if m > 0 {
      assert s[..m][0] == s[0];
      assert s[1..][..m - 1] == s[..m][1..];
      DigitRunUnique(s[1..], m - 1);
    }
  }

  /** A literal with a point, digits then '.' then digits with at least one
      digit in all, reads as all its digits together scaled down by as many
      decimal places as follow the point: "2.5" is 25 / 10. */
  lemma PointLiteralValue(s: string, k: nat)
    requires k < |s| && s[k] == '.' && |s| > 1
    requires AllDigits(s[..k]) && AllDigits(s[k + 1..])
    ensures AllDigits(s[..k] + s[k + 1..])
    ensures ParseUnsigned(s) == Some(DigitsValue(s[..k] + s[k + 1..]) as real / Pow10(|s[k + 1..]|) as real)
  {
    AllDigitsConcat(s[..k], s[k + 1..]);
    DigitRunUnique(s, k);
  }

  /** No symbol or bracket contains a digit. */
  lemma DigitNotSymbol(s: string, k: nat)
    requires k < |s| && IsDigit(s[k])
    ensures SymbolOf(s).None? && s != "(" && s != ")"
  {
    assert s[k] != '+' && s[k] != '-' && s[k] != '*' && s[k] != '/' && s[k] != '%';
  }

  /** A piece that reads as a number and contains a digit classifies as that number. */
  lemma ClassifyNumber(piece: string, k: nat, v: real)
    requires k < |piece| && IsDigit(piece[k]) && ParseDecimal(piece) == Some(v)
    ensures Classify(piece) == Ok(Num(v))
  {
    DigitNotSymbol(piece, k);
  }

  /** The text of a natural number, bare or signed, classifies as that number. */
  lemma ClassifyNatText(n: nat)
    ensures Classify(NatText(n)) == Ok(Num(n as real))
    ensures Classify("-" + NatText(n)) == Ok(Num(-(n as real)))
    ensures Classify("+" + NatText(n)) == Ok(Num(n as real))
  {
    NatTextValue(n);
    ClassifyUnsignedLiteral(NatText(n), n as real);
  }

  /** The pieces "2", "-2" and "+2" become numbers. */
  lemma ClassifyExamples()
    ensures Classify("2") == Ok(Num(2.0))
    ensures Classify("3") == Ok(Num(3.0))
    ensures Classify("-2") == Ok(Num(-2.0))
    ensures Classify("-3") == Ok(Num(-3.0))
    ensures Classify("+2") == Ok(Num(2.0))
  {
    ClassifyNatText(2);
    ClassifyNatText(3);
    assert NatText(2) == "2" && NatText(3) == "3";
    assert "-" + NatText(2) == "-2" && "-" + NatText(3) == "-3" && "+" + NatText(2) == "+2";
  }

  /** An unsigned decimal literal: a non-empty run of digits, or digits, a
      point and digits with at least one digit in all. */
  ghost predicate UnsignedLiteral(s: string)
  {
    || (s != [] && AllDigits(s))
    || (exists k | 0 <= k < |s| :: s[k] == '.' && |s| > 1 && AllDigits(s[..k]) && AllDigits(s[k + 1..]))
  }

  /** The conversion accepts exactly the unsigned decimal literals. */
  lemma UnsignedLiteralAccepted(s: string)
    ensures ParseUnsigned(s).Some? <==> UnsignedLiteral(s)
  {
    var k := DigitRun(s);
    if ParseUnsigned(s).Some? && k < |s| {
      assert s[k] == '.' && |s| > 1 && AllDigits(s[..k]) && AllDigits(s[k + 1..]);
    }
    if UnsignedLiteral(s) && !(s != [] && AllDigits(s)) {
      var m :| 0 <= m < |s| && s[m] == '.' && |s| > 1 && AllDigits(s[..m]) && AllDigits(s[m + 1..]);
      PointLiteralValue(s, m);
    }
  }

  /** Every unsigned literal (UnsignedLiteralAccepted: exactly the pieces
      ParseUnsigned reads), bare or after either sign, classifies as the
      number it reads as. */
  lemma ClassifyUnsignedLiteral(s: string, v: real)
    requires ParseUnsigned(s) == Some(v)
    ensures Classify(s) == Ok(Num(v))
    ensures Classify("-" + s) == Ok(Num(-v))
    ensures Classify("+" + s) == Ok(Num(v))
  {
    var k := LiteralDigit(s);
    ClassifySigned(s, k, v);
  }

  /** A piece with a digit that reads as `v` classifies as `v`, and as `-v`
      and `v` after a '-' or '+'. */
  lemma ClassifySigned(s: string, k: nat, v: real)
    requires k < |s| && IsDigit(s[k]) && ParseUnsigned(s) == Some(v)
    ensures Classify(s) == Ok(Num(v))
    ensures Classify("-" + s) == Ok(Num(-v))
    ensures Classify("+" + s) == Ok(Num(v))
  {
    var neg, pos := "-" + s, "+" + s;
    assert Classify(s) == Ok(Num(v)) by {
      SignStripped(s, '-');
      ClassifyNumber(s, k, v);
    }
    assert Classify(neg) == Ok(Num(-v)) by {
      SignStripped(s, '-');
      ClassifyNumber(neg, k + 1, -v);
    }
    assert Classify(pos) == Ok(Num(v)) by {
      SignStripped(s, '+');
      ClassifyNumber(pos, k + 1, v);
    }
  }

  /** Reading a piece with a sign put in front reads the piece itself. */
  lemma SignStripped(s: string, sign: char)
    requires sign == '-' || sign == '+'
    ensures ([sign] + s)[1..] == s && (forall k | 0 <= k < |s| :: ([sign] + s)[k + 1] == s[k])
    ensures s != [] && IsDigit(s[0]) ==> ParseDecimal(s) == ParseUnsigned(s)
    ensures sign == '+' ==> ParseDecimal([sign] + s) == ParseUnsigned(s)
    ensures sign == '-' && ParseUnsigned(s).Some? ==> ParseDecimal([sign] + s) == Some(-ParseUnsigned(s).value)
  {
    assert ([sign] + s)[1..] == s;
  }

  /** A piece ParseUnsigned reads has a digit in its first or second place. */
  lemma LiteralDigit(s: string) returns (k: nat)
    requires ParseUnsigned(s).Some?
    ensures k < |s| && k <= 1 && IsDigit(s[k])
  {
    var run := DigitRun(s);
    if run > 0 {
      assert s[..run][0] == s[0];
      k := 0;
    } else {
      assert s[1..][0] == s[1];
      k := 1;
    }
  }

  /** The literal of two digits around a point reads as its exact value. */
  lemma TwoDigitPoint(s: string, v: real)
    requires |s| == 3 && IsDigit(s[0]) && s[1] == '.' && IsDigit(s[2])
    requires v * 10.0 == ((s[0] as int - '0' as int) * 10 + (s[2] as int - '0' as int)) as real
    ensures ParseUnsigned(s) == Some(v)
  {
    assert s[..1] == [s[0]] && s[2..] == [s[2]];
    PointLiteralValue(s, 1);
    var digits := s[..1] + s[2..];
    assert digits == [s[0], s[2]] && digits[..1] == [s[0]] && [s[0]][..0] == [];
    var n := (s[0] as int - '0' as int) * 10 + (s[2] as int - '0' as int);
    assert DigitsValue([s[0]]) == s[0] as int - '0' as int;
    assert DigitsValue(digits) == n;
    assert Pow10(|s[2..]|) == 10;
    assert ParseUnsigned(s) == Some(n as real / 10.0);
  }

  /** Pieces with a decimal point become their exact values: "2.5", "5.1" and "-3.5". */
  lemma ClassifyDecimalExamples()
    ensures Classify("2.5") == Ok(Num(2.5))
    ensures Classify("5.1") == Ok(Num(5.1))
    ensures Classify("-3.5") == Ok(Num(-3.5))
  {
    TwoDigitPoint("2.5", 2.5);
    TwoDigitPoint("5.1", 5.1);
    TwoDigitPoint("3.5", 3.5);
    assert "-3.5"[1..] == "3.5";
    ClassifyNumber("2.5", 0, 2.5);
    ClassifyNumber("5.1", 0, 5.1);
    ClassifyNumber("-3.5", 1, -3.5);
  }

  /** The converse of Tokenize's contract: a token list that classifies
      piece by piece and ends in EOF is what Tokenize produces. */
  lemma {:induction false} TokenizeOk(pieces: seq<string>, ts: seq<Token>)
    requires |ts| == |pieces| + 1 && ts[|pieces|] == EOF
    requires forall k | 0 <= k < |pieces| :: Classify(pieces[k]) == Ok(ts[k])
    ensures Tokenize(pieces) == Ok(ts)
  {
    if pieces != [] {
      assert forall k | 0 <= k < |pieces| - 1 :: pieces[1..][k] == pieces[k + 1] && ts[1..][k] == ts[k + 1];
      TokenizeOk(pieces[1..], ts[1..]);
      assert Classify(pieces[0]) == Ok(ts[0]);
      assert ts == [ts[0]] + ts[1..];
    } else {
      assert ts == [EOF];
    }
  }

  /** TokenizeOk for three pieces, stated piece by piece. */
  lemma TokenizeThree(a: string, b: string, c: string, ta: Token, tb: Token, tc: Token)
    requires Classify(a) == Ok(ta) && Classify(b) == Ok(tb) && Classify(c) == Ok(tc)
    ensures Tokenize([a, b, c]) == Ok([ta, tb, tc, EOF])
  {
    TokenizeOk([a, b, c], [ta, tb, tc, EOF]);
  }

  /** One more piece in front adds its token in front. */
  lemma TokenizeCons(piece: string, rest: seq<string>, t: Token)
    requires Classify(piece) == Ok(t) && Tokenize(rest).Ok?
    ensures Tokenize([piece] + rest) == Ok([t] + Tokenize(rest).value)
  {
    assert ([piece] + rest)[0] == piece && ([piece] + rest)[1..] == rest;
  }

  /** The lexer's example ["2","+","3"]. */
  lemma TokenizeSum()
    ensures Tokenize(["2", "+", "3"]) == Ok([Num(2.0), Op(Plus), Num(3.0), EOF])
  {
    assert Classify("2") == Ok(Num(2.0)) by { ClassifyExamples(); }
    assert Classify("+") == Ok(Op(Plus)) by { SymbolRoundTrip(Plus); }
    assert Classify("3") == Ok(Num(3.0)) by { ClassifyExamples(); }
    TokenizeThree("2", "+", "3", Num(2.0), Op(Plus), Num(3.0));
  }

  /** The lexer's example with signed numbers: ["-3","*","+2"]. */
  lemma TokenizeSigned()
    ensures Tokenize(["-3", "*", "+2"]) == Ok([Num(-3.0), Op(Times), Num(2.0), EOF])
  {
    assert Classify("-3") == Ok(Num(-3.0)) by { ClassifyExamples(); }
    assert Classify("*") == Ok(Op(Times)) by { SymbolRoundTrip(Times); }
    assert Classify("+2") == Ok(Num(2.0)) by { ClassifyExamples(); }
    TokenizeThree("-3", "*", "+2", Num(-3.0), Op(Times), Num(2.0));
  }

  /** The lexer's example with brackets: ["(","-2","+","3",")"]. */
  lemma TokenizeBrackets()
    ensures Tokenize(["(", "-2", "+", "3", ")"]) == Ok([LParen, Num(-2.0), Op(Plus), Num(3.0), RParen, EOF])
  {
    var tail, tailTokens := ["+", "3", ")"], [Op(Plus), Num(3.0), RParen, EOF];
    assert Tokenize(tail) == Ok(tailTokens) by {
      assert Classify("+") == Ok(Op(Plus)) by { SymbolRoundTrip(Plus); }
      assert Classify("3") == Ok(Num(3.0)) by { ClassifyExamples(); }
      TokenizeThree("+", "3", ")", Op(Plus), Num(3.0), RParen);
    }
    assert Classify("-2") == Ok(Num(-2.0)) by { ClassifyExamples(); }
    TokenizeCons("-2", tail, Num(-2.0));
    TokenizeCons("(", ["-2"] + tail, LParen);
    assert ["("] + (["-2"] + tail) == ["(", "-2", "+", "3", ")"];
    assert [LParen] + ([Num(-2.0)] + tailTokens) == [LParen, Num(-2.0), Op(Plus), Num(3.0), RParen, EOF];
  }

  /** The pieces of "2//2.5". */
  lemma TokenizeFloorDivideDecimal()
    ensures Tokenize(["2", "//", "2.5"]) == Ok([Num(2.0), Op(FloorDivide), Num(2.5), EOF])
  {
    assert Classify("2") == Ok(Num(2.0)) by { ClassifyExamples(); }
    assert Classify("//") == Ok(Op(FloorDivide)) by { SymbolRoundTrip(FloorDivide); }
    assert Classify("2.5") == Ok(Num(2.5)) by { ClassifyDecimalExamples(); }
    TokenizeThree("2", "//", "2.5", Num(2.0), Op(FloorDivide), Num(2.5));
  }

  /** The pieces of "5.1%2". */
  lemma TokenizeModuloDecimal()
    ensures Tokenize(["5.1", "%", "2"]) == Ok([Num(5.1), Op(Modulo), Num(2.0), EOF])
  {
    assert Classify("5.1") == Ok(Num(5.1)) by { ClassifyDecimalExamples(); }
    assert Classify("%") == Ok(Op(Modulo)) by { SymbolRoundTrip(Modulo); }
    assert Classify("2") == Ok(Num(2.0)) by { ClassifyExamples(); }
    TokenizeThree("5.1", "%", "2", Num(5.1), Op(Modulo), Num(2.0));
  }
}
