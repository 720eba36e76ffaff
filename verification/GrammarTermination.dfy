/** Structured-output grammars under speculative batches (patch_xgrammar_spec_termination.py): accepting, validating
    and resetting a matcher whose termination is cached.

    The matcher is any one with exact rollback and non-mutating rejection: its state is the history of accepted tokens,
    and a language says which token may follow which history and which histories are finished. */
module GrammarTermination {

  type Token = nat

  datatype Language = Language(allows: (seq<Token>, Token) -> bool, finished: seq<Token> -> bool)

  // ---------------------------------------------------------------------------
  // What a batch consumes
  // ---------------------------------------------------------------------------

  /** The tokens a grammar takes from a batch: those allowed one after another, up to and including the first that
      finishes it. */
  function Consumed(l: Language, h: seq<Token>, tokens: seq<Token>): (c: seq<Token>)
    ensures c <= tokens
    decreases |tokens|
  {
    if l.finished(h) || tokens == [] || !l.allows(h, tokens[0]) then []
    else [tokens[0]] + Consumed(l, h + [tokens[0]], tokens[1..])
  }

  /** A batch is good when it is consumed whole or finishes the grammar. */
  predicate Good(l: Language, h: seq<Token>, tokens: seq<Token>) {
    Consumed(l, h, tokens) == tokens || l.finished(h + Consumed(l, h, tokens))
  }

  /** No history before the last was finished, and every token was allowed when it came. */
  ghost predicate Reachable(l: Language, h: seq<Token>) {
    forall i :: 0 <= i < |h| ==> !l.finished(h[..i]) && l.allows(h[..i], h[i])
  }

  /** Consumption is the longest legal extension that never passes a finished history. */
  lemma {:induction false} ConsumedIsLongest(l: Language, h: seq<Token>, tokens: seq<Token>)
    requires Reachable(l, h)
    ensures Reachable(l, h + Consumed(l, h, tokens))
    ensures forall n :: |Consumed(l, h, tokens)| < n <= |tokens| ==> !Reachable(l, h + tokens[..n])
    decreases |tokens|
  {
    hide Reachable;
    if l.finished(h) || tokens == [] || !l.allows(h, tokens[0]) {
      assert h + [] == h;
      forall n | 0 < n <= |tokens| ensures !Reachable(l, h + tokens[..n]) {
        Blocked(l, h, tokens, n);
      }
    } else {
      var t, rest := tokens[0], tokens[1..];
      Extends(l, h, t);
      ConsumedIsLongest(l, h + [t], rest);
      ConsumeNext(l, h, t, rest);
      assert [t] + rest == tokens;
      hide Consumed;
      forall n | |Consumed(l, h, tokens)| < n <= |tokens| ensures !Reachable(l, h + tokens[..n]) {
        assert h + tokens[..n] == (h + [t]) + rest[..n - 1];
      }
    }
  }

  /** No extension past a finished history or a token that is not allowed. */
  lemma Blocked(l: Language, h: seq<Token>, tokens: seq<Token>, n: nat)
    requires 0 < n <= |tokens| && (l.finished(h) || !l.allows(h, tokens[0]))
    ensures !Reachable(l, h + tokens[..n])
  {
    var g := h + tokens[..n];
    assert g[..|h|] == h && g[|h|] == tokens[0];
  }

  lemma Extends(l: Language, h: seq<Token>, t: Token)
    requires Reachable(l, h) && !l.finished(h) && l.allows(h, t)
    ensures Reachable(l, h + [t])
  {
    var g := h + [t];
    forall i | 0 <= i < |g| ensures !l.finished(g[..i]) && l.allows(g[..i], g[i]) {
      assert g[..i] == h[..i];
      if i == |h| { assert h[..i] == h; }
    }
  }

  /** One allowed token: the rest of the batch goes on from the longer history. */
  lemma ConsumeNext(l: Language, h: seq<Token>, t: Token, rest: seq<Token>)
    requires !l.finished(h) && l.allows(h, t)
    ensures var c := Consumed(l, h + [t], rest);
            Consumed(l, h, [t] + rest) == [t] + c && h + Consumed(l, h, [t] + rest) == (h + [t]) + c
            && (Good(l, h, [t] + rest) <==> Good(l, h + [t], rest))
  {
    var c := Consumed(l, h + [t], rest);
    assert ([t] + rest)[1..] == rest;
    assert Consumed(l, h, [t] + rest) == [t] + c;
    hide Consumed;
    assert h + ([t] + c) == (h + [t]) + c;
    if [t] + c == [t] + rest { assert ([t] + c)[1..] == c && ([t] + rest)[1..] == rest; }
  }

  /** Nothing is consumed from a finished history or when the first token is not allowed. */
  lemma ConsumeNone(l: Language, h: seq<Token>, tokens: seq<Token>)
    requires l.finished(h) || tokens == [] || !l.allows(h, tokens[0])
    ensures Consumed(l, h, tokens) == [] && h + [] == h
    ensures Good(l, h, tokens) <==> l.finished(h) || tokens == []
  {
    assert h + [] == h;
  }

  /** A batch of two parts consumes the first, and the second only when the first was good; it is good when both are. */
  lemma {:induction false} BatchesCompose(l: Language, h: seq<Token>, a: seq<Token>, b: seq<Token>)
    ensures Consumed(l, h, a + b) ==
            if Good(l, h, a) then Consumed(l, h, a) + Consumed(l, h + Consumed(l, h, a), b) else Consumed(l, h, a)
    ensures Good(l, h, a + b) <==> Good(l, h, a) && Good(l, h + Consumed(l, h, a), b)
    decreases |a|
  {
    hide Consumed, Good;
    if a == [] || l.finished(h) || !l.allows(h, a[0]) {
      ConsumeNone(l, h, a);
      assert [] + Consumed(l, h, b) == Consumed(l, h, b);
      if a == [] {
        assert a + b == b;
      } else {
        assert (a + b)[0] == a[0];
        ConsumeNone(l, h, a + b);
        if l.finished(h) { ConsumeNone(l, h, b); }
      }
    } else {
      var t, rest := a[0], a[1..];
      assert a == [t] + rest && a + b == [t] + (rest + b);
      ConsumeNext(l, h, t, rest);
      ConsumeNext(l, h, t, rest + b);
      BatchesCompose(l, h + [t], rest, b);
      var c := Consumed(l, h + [t], rest);
      assert ([t] + c) + Consumed(l, (h + [t]) + c, b) == [t] + (c + Consumed(l, (h + [t]) + c, b));
    }
  }

  // ---------------------------------------------------------------------------
  // The matcher and the grammar
  // ---------------------------------------------------------------------------

  class Matcher {
    const l: Language
    var history: seq<Token>

    constructor (l: Language)
      ensures this.l == l && history == []
    {
      this.l, history := l, [];
    }

    /** A terminated matcher must not be fed. */
    method AcceptToken(t: Token) returns (ok: bool)
      requires !l.finished(history)
      modifies this
      ensures ok == l.allows(old(history), t)
      ensures history == if ok then old(history) + [t] else old(history)
    {
      ok := l.allows(history, t);
      if ok { history := history + [t]; }
    }

    method Rollback(n: nat)
      requires n <= |history|
      modifies this
      ensures history == old(history)[..|old(history)| - n]
    {
      history := history[..|history| - n];
    }

    method Reset()
      modifies this
      ensures history == []
    {
      history := [];
    }
  }

  /** The grammar wrapper of one request. */
  class Grammar {
    const matcher: Matcher
    var numProcessed: nat
    var isTerminated: bool

    /** The cached flag is the matcher's, the count is the history's length, and the matcher never moved past a
        finished history. */
    ghost predicate Valid()
      reads this, matcher
    {
      && isTerminated == matcher.l.finished(matcher.history)
      && numProcessed == |matcher.history|
      && Reachable(matcher.l, matcher.history)
    }

    /** A fresh grammar is consistent exactly when the empty history is not already finished. */
    constructor (l: Language)
      ensures fresh(matcher) && matcher.l == l && matcher.history == []
      ensures numProcessed == 0 && !isTerminated
      ensures Valid() <==> !l.finished([])
    {
      matcher := new Matcher(l);
      numProcessed, isTerminated := 0, false;
    }

    /** accept_tokens: advance by what the batch consumes and say whether the batch was good. */
    method AcceptTokens(tokens: seq<Token>) returns (ok: bool)
      requires Valid()
      modifies this, matcher
      ensures Valid()
      ensures matcher.history == old(matcher.history) + Consumed(matcher.l, old(matcher.history), tokens)
      ensures ok == Good(matcher.l, old(matcher.history), tokens)
    {
      ghost var l, h := matcher.l, matcher.history;
      hide Consumed, Good;
      if isTerminated {
        ConsumeNone(l, h, tokens);
        return true;
      }
      assert h + [] == h && tokens[..0] == [];
      for i := 0 to |tokens|
        invariant Valid() && !isTerminated
        invariant h + Consumed(l, h, tokens) == matcher.history + Consumed(l, matcher.history, tokens[i..])
        invariant Good(l, h, tokens) <==> Good(l, matcher.history, tokens[i..])
      {
        ghost var g := matcher.history;
        assert tokens[i..] == [tokens[i]] + tokens[i + 1..];
        var accepted := matcher.AcceptToken(tokens[i]);
        if !accepted {
          ConsumeNone(l, g, tokens[i..]);
          return false;
        }
        ConsumeNext(l, g, tokens[i], tokens[i + 1..]);
        Extends(l, g, tokens[i]);
        numProcessed := numProcessed + 1;
        isTerminated := matcher.l.finished(matcher.history);
        if isTerminated {
          ConsumeNone(l, matcher.history, tokens[i + 1..]);
          return true;
        }
      }
      ConsumeNone(l, matcher.history, tokens[|tokens|..]);
      ok := true;
    }

    /** validate_tokens: the same prefix, with the matcher rolled back to where it was. */
    method ValidateTokens(tokens: seq<Token>) returns (accepted: seq<Token>)
      requires Valid()
      modifies matcher
      ensures Valid() && matcher.history == old(matcher.history)
      ensures accepted == Consumed(matcher.l, matcher.history, tokens)
    {
      ghost var l, h := matcher.l, matcher.history;
      hide Consumed, Reachable;
      accepted := [];
      if isTerminated {
        ConsumeNone(l, h, tokens);
        return;
      }
      ghost var whole, rest := Consumed(l, h, tokens), tokens;
      Prepend(h, whole);
      for i := 0 to |tokens|
        invariant rest == tokens[i..] && !l.finished(matcher.history)
        invariant matcher.history == h + accepted
        invariant whole == accepted + Consumed(l, matcher.history, rest)
      {
        ghost var g := matcher.history;
        var ok := matcher.AcceptToken(tokens[i]);
        if !ok { break; }
        rest := tokens[i + 1..];
        ValidateStep(l, h, g, accepted, tokens, i, whole);
        accepted := accepted + [tokens[i]];
        if matcher.l.finished(matcher.history) { break; }
      }
      ConsumeNone(l, matcher.history, rest);
      Prepend(accepted, []);
      if |accepted| > 0 { matcher.Rollback(|accepted|); }
      assert (h + accepted)[..|h|] == h;
    }

    /** reset: back to a fresh grammar; consistent exactly when the empty history is not finished. */
    method Reset()
      modifies this, matcher
      ensures matcher.history == [] && numProcessed == 0 && !isTerminated
      ensures Valid() <==> !matcher.l.finished([])
    {
      matcher.Reset();
      numProcessed := 0;
      isTerminated := false;
    }
  }

  lemma Prepend(h: seq<Token>, s: seq<Token>)
    ensures h + [] == h && [] + s == s
  {
  }

  lemma Reassociate(a: seq<Token>, b: seq<Token>, c: seq<Token>)
    ensures a + (b + c) == (a + b) + c
  {
  }

  /** What validation has established about the tokens before i carries over to one more. */
  lemma ValidateStep(l: Language, h: seq<Token>, g: seq<Token>, accepted: seq<Token>, tokens: seq<Token>, i: nat,
                     whole: seq<Token>)
    requires i < |tokens| && g == h + accepted && !l.finished(g) && l.allows(g, tokens[i])
    requires whole == accepted + Consumed(l, g, tokens[i..])
    ensures g + [tokens[i]] == h + (accepted + [tokens[i]])
    ensures whole == (accepted + [tokens[i]]) + Consumed(l, g + [tokens[i]], tokens[i + 1..])
  {
    hide Consumed;
    var t, rest := tokens[i], tokens[i + 1..];
    assert tokens[i..] == [t] + rest;
    ConsumeNext(l, g, t, rest);
    Reassociate(accepted, [t], Consumed(l, g + [t], rest));
    Reassociate(h, accepted, [t]);
  }

  /** Accepting a and, if that was good, b does what accepting a + b at once does. */
  method AcceptInTwo(g: Grammar, a: seq<Token>, b: seq<Token>) returns (ok: bool)
    requires g.Valid()
    modifies g, g.matcher
    ensures g.Valid()
    ensures g.matcher.history == old(g.matcher.history) + Consumed(g.matcher.l, old(g.matcher.history), a + b)
    ensures ok == Good(g.matcher.l, old(g.matcher.history), a + b)
  {
    hide Consumed, Good;
    ghost var l, h := g.matcher.l, g.matcher.history;
    BatchesCompose(l, h, a, b);
    ok := g.AcceptTokens(a);
    if ok {
      ok := g.AcceptTokens(b);
      assert (h + Consumed(l, h, a)) + Consumed(l, h + Consumed(l, h, a), b) ==
             h + (Consumed(l, h, a) + Consumed(l, h + Consumed(l, h, a), b));
    }
  }
}
