/** The structural bracket check that runs before evaluation: a left-to-right
    scan with a stack of open brackets. */
module Brackets {
  import opened Tokens

  /** How many times `t` occurs in `s`. */
  function Count(s: seq<Token>, t: Token): nat
  {
    if s == [] then 0 else (if s[0] == t then 1 else 0) + Count(s[1..], t)
  }

  lemma {:induction false} CountConcat(a: seq<Token>, b: seq<Token>, t: Token)
    ensures Count(a + b, t) == Count(a, t) + Count(b, t)
  {
    if a != [] {
      assert (a + b)[1..] == a[1..] + b;
      CountConcat(a[1..], b, t);
    } else {
      assert a + b == b;
    }
  }

  /** Starting `depth` brackets deep, no prefix of `s` closes more brackets
      than are open, and `s` closes exactly the ones open at its end. */
  ghost predicate BalancedFrom(s: seq<Token>, depth: int)
  {
    && (forall k | 0 <= k <= |s| :: Count(s[..k], RParen) <= depth + Count(s[..k], LParen))
    && depth + Count(s, LParen) == Count(s, RParen)
  }

  /** Balanced brackets: no prefix has more ')' than '(', and the whole
      sequence has as many of each. Other tokens play no part. */
  ghost predicate Balanced(s: seq<Token>)
  {
    BalancedFrom(s, 0)
  }

  /** The depth change of a single token. */
  function Delta(t: Token): int
  {
    if t == LParen then 1 else if t == RParen then -1 else 0
  }

  /** Consuming the first token moves the starting depth by that token's delta. */
  lemma BalancedFromStep(s: seq<Token>, depth: int)
    requires s != [] && depth >= 0
    ensures BalancedFrom(s, depth) <==> BalancedFrom(s[1..], depth + Delta(s[0]))
  {
    var rest, d := s[1..], depth + Delta(s[0]);
    forall k | 1 <= k <= |s|
      ensures Count(s[..k], RParen) <= depth + Count(s[..k], LParen)
              <==> Count(rest[..k - 1], RParen) <= d + Count(rest[..k - 1], LParen)
    {
      assert s[..k][1..] == rest[..k - 1];
    }
    assert s == [s[0]] + rest;
    if BalancedFrom(rest, d) {
      forall k | 0 <= k <= |s|
        ensures Count(s[..k], RParen) <= depth + Count(s[..k], LParen)
      {
        if k == 0 {
          assert s[..k] == [];
        } else {
          assert Count(rest[..k - 1], RParen) <= d + Count(rest[..k - 1], LParen);
        }
      }
    }
    if BalancedFrom(s, depth) {
      forall k | 0 <= k <= |rest|
        ensures Count(rest[..k], RParen) <= d + Count(rest[..k], LParen)
      {
        assert Count(s[..k + 1], RParen) <= depth + Count(s[..k + 1], LParen);
      }
    }
  }

  /** The scan of the source's loop: push on '(', pop on ')' (failing when
      the stack is empty), ignore every other token, succeed iff the stack
      ends empty. */
  function Scan(tokens: seq<Token>, stack: seq<Token>): (ok: bool)
    ensures ok ==> |stack| + Count(tokens, LParen) == Count(tokens, RParen)
    decreases |tokens|
  {
    if tokens == [] then stack == []
    else if tokens[0] == LParen then Scan(tokens[1..], stack + [tokens[0]])
    else if tokens[0] == RParen then stack != [] && Scan(tokens[1..], stack[..|stack| - 1])
    else Scan(tokens[1..], stack)
  }

  /** The scan succeeds exactly when the rest of the input is balanced
      starting at the stack's depth. */
  lemma {:induction false} ScanMeaning(tokens: seq<Token>, stack: seq<Token>)
    ensures Scan(tokens, stack) <==> BalancedFrom(tokens, |stack|)
    decreases |tokens|
  {
    if tokens == [] {
      assert tokens[..0] == [];
    } else {
      BalancedFromStep(tokens, |stack|);
      if tokens[0] == LParen {
        ScanMeaning(tokens[1..], stack + [tokens[0]]);
      } else if tokens[0] == RParen {
        if stack == [] {
          assert tokens[1..][..0] == [];
        } else {
          ScanMeaning(tokens[1..], stack[..|stack| - 1]);
        }
      } else {
        ScanMeaning(tokens[1..], stack);
      }
    }
  }

  /** The bracket check: true iff the brackets of the token list are balanced. */
  function CheckBrackets(tokens: seq<Token>): (ok: bool)
    ensures ok <==> Balanced(tokens)
  {
    ScanMeaning(tokens, []);
    Scan(tokens, [])
  }

  /** A token that is not a bracket can be dropped without changing the scan. */
  lemma {:induction false} ScanIgnoresOthers(a: seq<Token>, t: Token, b: seq<Token>, stack: seq<Token>)
    requires t != LParen && t != RParen
    ensures Scan(a + [t] + b, stack) == Scan(a + b, stack)
    decreases |a|
  {
    if a == [] {
      assert a + [t] + b == [t] + b && ([t] + b)[1..] == b && a + b == b;
    } else {
      assert (a + [t] + b)[0] == a[0] == (a + b)[0];
      assert (a + [t] + b)[1..] == a[1..] + [t] + b;
      assert (a + b)[1..] == a[1..] + b;
      if a[0] == LParen {
        ScanIgnoresOthers(a[1..], t, b, stack + [a[0]]);
      } else if a[0] == RParen {
        if stack != [] {
          ScanIgnoresOthers(a[1..], t, b, stack[..|stack| - 1]);
        }
      } else {
        ScanIgnoresOthers(a[1..], t, b, stack);
      }
    }
  }

  /** Numbers, operators and EOF do not affect the bracket check. */
  lemma CheckIgnoresOthers(a: seq<Token>, t: Token, b: seq<Token>)
    requires t != LParen && t != RParen
    ensures CheckBrackets(a + [t] + b) == CheckBrackets(a + b)
  {
    ScanIgnoresOthers(a, t, b, []);
  }

  /** Two balanced sequences placed side by side are balanced. */
  lemma BalancedConcat(a: seq<Token>, b: seq<Token>)
    requires Balanced(a) && Balanced(b)
    ensures Balanced(a + b)
  {
    CountConcat(a, b, LParen);
    CountConcat(a, b, RParen);
    forall k | 0 <= k <= |a + b|
      ensures Count((a + b)[..k], RParen) <= Count((a + b)[..k], LParen)
    {
      if k <= |a| {
        assert (a + b)[..k] == a[..k];
      } else {
        assert (a + b)[..k] == a + b[..k - |a|];
        assert a[..|a|] == a;
        CountConcat(a, b[..k - |a|], LParen);
        CountConcat(a, b[..k - |a|], RParen);
      }
    }
  }

  /** A balanced sequence wrapped in a pair of brackets is balanced. */
  lemma BalancedWrap(a: seq<Token>)
    requires Balanced(a)
    ensures Balanced([LParen] + a + [RParen])
  {
    var w := [LParen] + a + [RParen];
    CountConcat([LParen] + a, [RParen], LParen);
    CountConcat([LParen] + a, [RParen], RParen);
    CountConcat([LParen], a, LParen);
    CountConcat([LParen], a, RParen);
    forall k | 0 <= k <= |w|
      ensures Count(w[..k], RParen) <= Count(w[..k], LParen)
    {
      if k == 0 {
        assert w[..k] == [];
      } else if k <= |a| + 1 {
        assert w[..k] == [LParen] + a[..k - 1];
        CountConcat([LParen], a[..k - 1], LParen);
        CountConcat([LParen], a[..k - 1], RParen);
      } else {
        assert w[..k] == w;
      }
    }
  }

  /** A single token that is not a bracket is balanced, and so is nothing. */
  lemma BalancedSingle(t: Token)
    requires t != LParen && t != RParen
    ensures Balanced([]) && Balanced([t])
  {
    assert [t][..0] == [] && [t][..1] == [t];
    assert forall k | 0 <= k <= 1 :: [t][..k] == [] || [t][..k] == [t];
  }

  /** The bracket examples: ( 1 + ( 2 * 3 ) ) passes, ( 1 + 2 fails. */
  lemma CheckBracketsExamples()
    ensures CheckBrackets([LParen, Num(1.0), Op(Plus), LParen, Num(2.0), Op(Times), Num(3.0), RParen, RParen, EOF])
    ensures !CheckBrackets([LParen, Num(1.0), Op(Plus), Num(2.0), EOF])
  {
    var good := [LParen, Num(1.0), Op(Plus), LParen, Num(2.0), Op(Times), Num(3.0), RParen, RParen, EOF];
    assert [LParen] + [LParen] == [LParen, LParen] && [] + [LParen] == [LParen];
    assert [LParen, LParen][..1] == [LParen] && [LParen][..0] == [];
    assert Scan(good[9..], []);
    assert Scan(good[8..], [LParen]);
    assert Scan(good[7..], [LParen, LParen]);
    assert Scan(good[6..], [LParen, LParen]);
    assert Scan(good[5..], [LParen, LParen]);
    assert Scan(good[4..], [LParen, LParen]);
    assert Scan(good[3..], [LParen]);
    assert Scan(good[2..], [LParen]);
    assert Scan(good[1..], [LParen]);
    var bad := [LParen, Num(1.0), Op(Plus), Num(2.0), EOF];
    assert !Scan(bad[5..], [LParen]);
    assert !Scan(bad[4..], [LParen]);
    assert !Scan(bad[3..], [LParen]);
    assert !Scan(bad[2..], [LParen]);
    assert !Scan(bad[1..], [LParen]);
  }
}
