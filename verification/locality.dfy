/** Successful parses are local: a grammar level that succeeds on a stretch of
    tokens reads nothing beyond the token it stops on. Its result depends on
    the tokens it consumed and on that stopping token, where a non-operator
    may be replaced by any other non-operator. So any other token list that
    agrees on the stretch, and at the stopping cursor holds the same token or
    two non-operators, gives the same result. */
module Locality {
  import opened Tokens
  import opened Arith
  import opened Brackets
  import opened Parser
  import opened Calc

  /** `u` agrees with `t` on the cursors from `i` up to `j`, and at `j` itself
      either holds the same token or, like `t`, no operator. */
  ghost predicate Agree(t: seq<Token>, u: seq<Token>, i: nat, j: nat)
  {
    && WellTerminated(t) && WellTerminated(u)
    && i <= j < |t| && j < |u|
    && (forall k | i <= k < j :: u[k] == t[k])
    && (u[j] == t[j] || (!u[j].Op? && !t[j].Op?))
  }

  lemma {:induction false} PrimaryLocal(t: seq<Token>, u: seq<Token>, i: nat)
    requires WellTerminated(t) && i < |t| && ParsePrimary(t, i).Ok?
    requires Agree(t, u, i, ParsePrimary(t, i).value.next)
    ensures ParsePrimary(u, i) == ParsePrimary(t, i)
    decreases |t| - i, 0
  {
    var j := ParsePrimary(t, i).value.next;
    assert u[i] == t[i];
    if t[i] == LParen {
      var inner := ParseAdd(t, i + 1);
      assert inner.Ok? && inner.value.next + 1 == j;
      AddLocal(t, u, i + 1);
    }
  }

  lemma {:induction false} PowLocal(t: seq<Token>, u: seq<Token>, i: nat)
    requires WellTerminated(t) && i < |t| && ParsePow(t, i).Ok?
    requires Agree(t, u, i, ParsePow(t, i).value.next)
    ensures ParsePow(u, i) == ParsePow(t, i)
    decreases |t| - i, 1
  {
    var j := ParsePow(t, i).value.next;
    var base := ParsePrimary(t, i).value;
    if t[base.next] == Op(Power) {
      assert ParsePow(t, base.next + 1).value.next == j && base.next < j;
      PrimaryLocal(t, u, i);
      PowLocal(t, u, base.next + 1);
    } else {
      assert base.next == j;
      PrimaryLocal(t, u, i);
    }
    PowSame(t, u, i);
  }

  /** The power level gives the same result on two token lists once its primary
      and, after a '**', its exponent do, and the '**' test agrees. */
  lemma PowSame(t: seq<Token>, u: seq<Token>, i: nat)
    requires WellTerminated(t) && WellTerminated(u) && i < |t| && i < |u|
    requires ParsePrimary(t, i).Ok? && ParsePrimary(u, i) == ParsePrimary(t, i)
    requires var n := ParsePrimary(t, i).value.next;
             u[n] == t[n] || (t[n] != Op(Power) && u[n] != Op(Power))
    requires var n := ParsePrimary(t, i).value.next;
             t[n] == Op(Power) ==> ParsePow(u, n + 1) == ParsePow(t, n + 1)
    ensures ParsePow(u, i) == ParsePow(t, i)
  {
  }

  lemma {:induction false} MulLoopLocal(t: seq<Token>, u: seq<Token>, v: real, j0: nat)
    requires WellTerminated(t) && j0 < |t| && t[j0] != Op(Power) && MulLoop(t, v, j0).Ok?
    requires Agree(t, u, j0, MulLoop(t, v, j0).value.next)
    ensures u[j0] != Op(Power) && MulLoop(u, v, j0) == MulLoop(t, v, j0)
    decreases |t| - j0, 0
  {
    var end := MulLoop(t, v, j0).value.next;
    if t[j0].IsMultiplicativeOp() {
      var rhs := ParsePow(t, j0 + 1).value;
      var w := ApplyMul(t[j0].sym, v, rhs.value).value;
      assert MulLoop(t, v, j0) == MulLoop(t, w, rhs.next);
      assert u[j0] == t[j0];
      PowLocal(t, u, j0 + 1);
      MulLoopLocal(t, u, w, rhs.next);
    }
  }

  lemma {:induction false} MulLocal(t: seq<Token>, u: seq<Token>, i: nat)
    requires WellTerminated(t) && i < |t| && ParseMul(t, i).Ok?
    requires Agree(t, u, i, ParseMul(t, i).value.next)
    ensures ParseMul(u, i) == ParseMul(t, i)
    decreases |t| - i, 2
  {
    var first := ParsePow(t, i).value;
    assert ParseMul(t, i) == MulLoop(t, first.value, first.next);
    PowLocal(t, u, i);
    MulLoopLocal(t, u, first.value, first.next);
  }

  lemma {:induction false} AddLoopLocal(t: seq<Token>, u: seq<Token>, v: real, j0: nat)
    requires WellTerminated(t) && j0 < |t| && (!t[j0].Op? || t[j0].IsAdditiveOp())
    requires AddLoop(t, v, j0).Ok?
    requires Agree(t, u, j0, AddLoop(t, v, j0).value.next)
    ensures (!u[j0].Op? || u[j0].IsAdditiveOp()) && AddLoop(u, v, j0) == AddLoop(t, v, j0)
    decreases |t| - j0, 0
  {
    if t[j0].IsAdditiveOp() {
      var rhs := ParseMul(t, j0 + 1).value;
      var w := if t[j0].sym == Plus then v + rhs.value else v - rhs.value;
      assert AddLoop(t, v, j0) == AddLoop(t, w, rhs.next);
      assert u[j0] == t[j0];
      MulLocal(t, u, j0 + 1);
      AddLoopLocal(t, u, w, rhs.next);
      AddLoopSame(t, u, v, j0);
    }
  }

  /** One additive step gives the same result on two token lists once the
      operator, the right-hand term and the rest of the loop do. */
  lemma AddLoopSame(t: seq<Token>, u: seq<Token>, v: real, j0: nat)
    requires WellTerminated(t) && WellTerminated(u) && j0 < |t| && j0 < |u|
    requires t[j0].IsAdditiveOp() && u[j0] == t[j0] && ParseMul(t, j0 + 1).Ok?
    requires ParseMul(u, j0 + 1) == ParseMul(t, j0 + 1)
    requires var rhs := ParseMul(t, j0 + 1).value;
             var w := if t[j0].sym == Plus then v + rhs.value else v - rhs.value;
             AddLoop(u, w, rhs.next) == AddLoop(t, w, rhs.next)
    ensures AddLoop(u, v, j0) == AddLoop(t, v, j0)
  {
  }

  lemma {:induction false} AddLocal(t: seq<Token>, u: seq<Token>, i: nat)
    requires WellTerminated(t) && i < |t| && ParseAdd(t, i).Ok?
    requires Agree(t, u, i, ParseAdd(t, i).value.next)
    ensures ParseAdd(u, i) == ParseAdd(t, i)
    decreases |t| - i, 3
  {
    var first := ParseMul(t, i).value;
    assert ParseAdd(t, i) == AddLoop(t, first.value, first.next);
    MulLocal(t, u, i);
    AddLoopLocal(t, u, first.value, first.next);
  }

  /** The parse of a successful evaluation reads nothing after the cursor it
      stops on. The bracket check does read the whole list, so the
      replacement must be balanced: any balanced token list with the same
      tokens before that cursor and a non-operator at it evaluates to the
      same value. */
  lemma TrailingTokensIgnored(t: seq<Token>, u: seq<Token>)
    requires WellTerminated(t) && EvaluateTokens(t).Ok?
    requires WellTerminated(u) && Balanced(u)
    requires var j := ParseAdd(t, 0).value.next;
             j < |u| && u[..j] == t[..j] && !u[j].Op?
    ensures EvaluateTokens(u) == EvaluateTokens(t)
  {
    var j := ParseAdd(t, 0).value.next;
    forall k | 0 <= k < j
      ensures u[k] == t[k]
    {
      assert u[..j][k] == u[k] && t[..j][k] == t[k];
    }
    AddLocal(t, u, 0);
  }

  /** "( 2 )" is balanced, and the additive level reads it to 2, stopping on EOF. */
  lemma BracketedTwo()
    ensures Balanced([LParen, Num(2.0), RParen, EOF])
    ensures ParseAdd([LParen, Num(2.0), RParen, EOF], 0) == Ok(Parsed(2.0, 3))
  {
    var t := [LParen, Num(2.0), RParen, EOF];
    BalancedSingle(Num(2.0));
    BalancedWrap([Num(2.0)]);
    BalancedSingle(EOF);
    assert [LParen] + [Num(2.0)] + [RParen] + [EOF] == t;
    BalancedConcat([LParen] + [Num(2.0)] + [RParen], [EOF]);
    assert ParseAdd(t, 1) == Ok(Parsed(2.0, 2));
    assert ParsePrimary(t, 0) == Ok(Parsed(2.0, 3));
    assert ParsePow(t, 0) == Ok(Parsed(2.0, 3));
    assert ParseMul(t, 0) == Ok(Parsed(2.0, 3));
  }

  /** "( 2 ) 3" is balanced. */
  lemma BracketThenNumberBalanced()
    ensures Balanced([LParen, Num(2.0), RParen, Num(3.0), EOF])
  {
    BalancedSingle(Num(2.0));
    BalancedWrap([Num(2.0)]);
    BalancedSingle(Num(3.0));
    BalancedSingle(EOF);
    var w := [LParen] + [Num(2.0)] + [RParen];
    BalancedConcat(w, [Num(3.0)]);
    BalancedConcat(w + [Num(3.0)], [EOF]);
    assert w + [Num(3.0)] + [EOF] == [LParen, Num(2.0), RParen, Num(3.0), EOF];
  }

  /** "( 2 ) 3" evaluates to 2: the parse reads nothing after the bracketed
      term, and the bracket check, which reads every token, passes. */
  lemma BracketThenNumberExample()
    ensures EvaluateTokens([LParen, Num(2.0), RParen, Num(3.0), EOF]) == Ok(2.0)
  {
    var t := [LParen, Num(2.0), RParen, EOF];
    var u := [LParen, Num(2.0), RParen, Num(3.0), EOF];
    BracketedTwo();
    BracketThenNumberBalanced();
    assert u[..3] == t[..3];
    TrailingTokensIgnored(t, u);
  }
}
