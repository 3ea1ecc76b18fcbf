/**
 The other direction: what the parser accepts without an error is a fitting
 tree over a maximal prefix of the tokens. With `PrattLaws` this decides
 exactly what every token list parses to.
 */
module PrattSoundness {
  import opened Values
  import opened Pratt
  import opened PrattLaws

  /** `t` is a fitting tree over the tokens of `ts` before `rest`, and `rest` does not extend it. */
  predicate Right(t: Tree, ts: seq<Token>, rest: seq<Token>, min: nat) {
    Fits(t) && AtLeast(t, min) && ts == Yield(t) + rest && Closed(t, rest) && Below(rest, min)
  }

  predicate RightOperand(t: Tree, ts: seq<Token>, rest: seq<Token>) {
    Fits(t) && !t.Infix? && ts == Yield(t) + rest && NoPostfix(rest)
  }

  lemma RestSplits(whole: seq<Token>, a: seq<Token>, b: seq<Token>, c: seq<Token>)
    requires whole == b + c
    ensures a + whole == (a + b) + c
  {
  }

  lemma {:induction false} SoundExpr(ts: seq<Token>, min: nat)
    ensures var r := ParseExpr(ts, min);
            r.Parsed? && r.errors == [] ==> Right(r.v, ts, r.rest, min)
    decreases |ts|, 5
  {
    hide ParsePrefix, InfixLoop, Yield, Fits;
    var r := ParsePrefix(ts);
    if r.Parsed? && r.errors == [] {
      SoundPrefix(ts);
      SoundInfix(r.v, r.rest, min);
    }
  }

  lemma {:induction false} SoundInfix(lhs: Tree, ts: seq<Token>, min: nat)
    requires Fits(lhs) && AtLeast(lhs, min) && Closed(lhs, ts)
    ensures var r := InfixLoop(lhs, ts, min);
            r.Parsed? && r.errors == [] ==> Right(r.v, Yield(lhs) + ts, r.rest, min)
    decreases |ts|, 0
  {
    if !(ts == [] || !ts[0].Operator? || Lbp(ts[0].sym) < min) {
      var sym, r := ts[0].sym, ParseExpr(ts[1..], Rbp(ts[0].sym));
      InfixStep(lhs, ts, min);
      hide ParseExpr, InfixLoop;
      if r.Parsed? && r.errors == [] {
        SoundExpr(ts[1..], Rbp(sym));
        var t := Infix(sym, lhs, r.v);
        SoundInfix(t, r.rest, min);
        InfixYield(lhs, ts, sym, r.v, r.rest);
      }
    }
  }

  lemma InfixYield(l: Tree, ts: seq<Token>, sym: Symbol, r: Tree, rest: seq<Token>)
    requires ts != [] && ts[0] == Operator(sym) && ts[1..] == Yield(r) + rest
    ensures Yield(l) + ts == Yield(Infix(sym, l, r)) + rest
  {
    assert ts == [Operator(sym)] + (Yield(r) + rest);
  }

  lemma InfixStep(lhs: Tree, ts: seq<Token>, min: nat)
    requires ts != [] && ts[0].Operator? && min <= Lbp(ts[0].sym)
    ensures var r := ParseExpr(ts[1..], Rbp(ts[0].sym));
            InfixLoop(lhs, ts, min) ==
              if r.Failed? then r
              else Before(r.errors, InfixLoop(Infix(ts[0].sym, lhs, r.v), r.rest, min))
  {
    hide ParseExpr, Before;
  }

  lemma {:induction false} SoundPrefix(ts: seq<Token>)
    ensures var r := ParsePrefix(ts);
            r.Parsed? && r.errors == [] ==> RightOperand(r.v, ts, r.rest)
    decreases |ts|, 4
  {
    if ts != [] && IsPrefix(ts[0]) {
      hide ParseExpr;
      SoundExpr(ts[1..], PREFIX_POWER);
      var r := ParseExpr(ts[1..], PREFIX_POWER);
      assert ts == [ts[0]] + ts[1..];
      if r.Parsed? && r.errors == [] {
        RestSplits(ts[1..], [ts[0]], Yield(r.v), r.rest);
      }
    } else {
      hide ParsePrimary, PostfixLoop, Yield, Fits;
      var r := ParsePrimary(ts);
      if r.Parsed? && r.errors == [] {
        SoundPrimary(ts);
        SoundPostfix(r.v, r.rest);
      }
    }
  }

  lemma ParenRight(e: Tree, ts: seq<Token>, rest: seq<Token>)
    requires StartsWith(ts, LParen) && Right(e, ts[1..], rest, 0) && StartsWith(rest, RParen)
    ensures Fits(Paren(e)) && ts == Yield(Paren(e)) + rest[1..]
  {
    assert ts == [LParen] + (Yield(e) + ([RParen] + rest[1..]));
    assert Yield(Paren(e)) == [LParen] + (Yield(e) + [RParen]);
    hide Yield;
  }

  lemma {:induction false} SoundPrimary(ts: seq<Token>)
    ensures var r := ParsePrimary(ts);
            r.Parsed? && r.errors == [] ==> Fits(r.v) && IsPostfix(r.v) && !r.v.Field? && ts == Yield(r.v) + r.rest
    decreases |ts|, 3
  {
    if ts != [] && IsAtom(ts[0]) {
    } else if StartsWith(ts, LParen) {
      hide ParseExpr, LooksLikeArrowFn;
      var r := ParseExpr(ts[1..], 0);
      SoundExpr(ts[1..], 0);
      hide Fits;
      if r.Parsed? && r.errors == [] && StartsWith(r.rest, RParen) {
        ParenRight(r.v, ts, r.rest);
      }
    } else if StartsWith(ts, LBracket) {
      hide ParseItems;
      var r := ParseItems(ts[1..], RBracket);
      SoundItems(ts[1..], RBracket);
      if r.Parsed? && r.errors == [] {
        assert ts == [LBracket] + (YieldItems(r.v, RBracket) + r.rest);
        hide YieldItems;
      }
    }
  }

  predicate RightItems(items: seq<Tree>, ts: seq<Token>, rest: seq<Token>, closer: Token) {
    ts == YieldItems(items, closer) + rest && forall i :: 0 <= i < |items| ==> Fits(items[i])
  }

  lemma {:induction false} SoundItems(ts: seq<Token>, closer: Token)
    ensures var r := ParseItems(ts, closer);
            r.Parsed? && r.errors == [] ==> RightItems(r.v, ts, r.rest, closer)
    decreases |ts|, 8
  {
    if !StartsWith(ts, closer) {
      SoundItemsLoop([], ts, closer);
      hide ItemsLoop;
    }
  }

  lemma {:induction false} SoundItemsLoop(done: seq<Tree>, ts: seq<Token>, closer: Token)
    ensures var r := ItemsLoop(done, ts, closer);
            r.Parsed? && r.errors == [] ==>
              && |r.v| > |done| && r.v[..|done|] == done
              && RightItems(r.v[|done|..], ts, r.rest, closer)
    decreases |ts|, 7
  {
    hide ParseExpr, Fits;
    var r := ParseExpr(ts, 0);
    SoundExpr(ts, 0);
    if r.Parsed? && r.errors == [] {
      if StartsWith(r.rest, Comma) {
        ItemsLoopStep(done, ts, closer);
        var more := ItemsLoop(done + [r.v], r.rest[1..], closer);
        hide ItemsLoop;
        SoundItemsLoop(done + [r.v], r.rest[1..], closer);
        if more.Parsed? && more.errors == [] {
          ItemAdded(done, r.v, more.v, ts, r.rest, more.rest, closer);
        }
      } else if StartsWith(r.rest, closer) {
        assert (done + [r.v])[|done|..] == [r.v];
        assert ts == Yield(r.v) + [closer] + r.rest[1..];
      }
    }
  }

  lemma ItemAdded(done: seq<Tree>, t: Tree, all: seq<Tree>, ts: seq<Token>, after: seq<Token>, rest: seq<Token>,
                  closer: Token)
    requires Fits(t) && ts == Yield(t) + after && StartsWith(after, Comma)
    requires |all| > |done| + 1 && all[..|done| + 1] == done + [t]
    requires RightItems(all[|done| + 1..], after[1..], rest, closer)
    ensures all[..|done|] == done && RightItems(all[|done|..], ts, rest, closer)
  {
    hide Yield, Fits;
    var items, tail := all[|done|..], all[|done| + 1..];
    assert all[|done|] == all[..|done| + 1][|done|] == t;
    assert all[..|done|] == all[..|done| + 1][..|done|] == done;
    assert items == [t] + tail && items[1..] == tail;
    assert ts == Yield(t) + ([Comma] + after[1..]);
  }

  lemma {:induction false} SoundPostfix(lhs: Tree, ts: seq<Token>)
    requires Fits(lhs) && IsPostfix(lhs) && (lhs.Field? ==> !StartsWith(ts, LParen))
    ensures var r := PostfixLoop(lhs, ts);
            r.Parsed? && r.errors == [] ==> RightOperand(r.v, Yield(lhs) + ts, r.rest)
    decreases |ts|, 1
  {
    if StartsWith(ts, LParen) {
      SoundCall(lhs, ts);
    } else if StartsWith(ts, LBracket) {
      SoundIndex(lhs, ts);
    } else if StartsWith(ts, Dot) {
      SoundDot(lhs, ts);
    }
  }

  lemma {:induction false} SoundCall(lhs: Tree, ts: seq<Token>)
    requires Fits(lhs) && IsPostfix(lhs) && !lhs.Field? && StartsWith(ts, LParen)
    ensures var r := PostfixLoop(lhs, ts);
            r.Parsed? && r.errors == [] ==> RightOperand(r.v, Yield(lhs) + ts, r.rest)
    decreases |ts|, 0
  {
    var r := ParseItems(ts[1..], RParen);
    SoundItems(ts[1..], RParen);
    CallStep(lhs, ts);
    hide ParseItems, PostfixLoop, Yield, Fits, RightItems;
    if r.Parsed? && r.errors == [] {
      CallRight(lhs, r.v, ts, r.rest);
      SoundPostfix(Call(lhs, r.v), r.rest);
    }
  }

  lemma CallRight(lhs: Tree, items: seq<Tree>, ts: seq<Token>, rest: seq<Token>)
    requires Fits(lhs) && IsPostfix(lhs) && !lhs.Field?
    requires StartsWith(ts, LParen) && RightItems(items, ts[1..], rest, RParen)
    ensures Fits(Call(lhs, items)) && Yield(lhs) + ts == Yield(Call(lhs, items)) + rest
  {
    assert ts == [LParen] + (YieldItems(items, RParen) + rest);
    hide YieldItems;
  }

  lemma CallStep(lhs: Tree, ts: seq<Token>)
    requires StartsWith(ts, LParen)
    ensures var r := ParseItems(ts[1..], RParen);
            PostfixLoop(lhs, ts) ==
              if r.Failed? then Failed(r.why, r.rest, r.errors)
              else Before(r.errors, PostfixLoop(Call(lhs, r.v), r.rest))
  {
    hide ParseItems, Before;
  }

  lemma {:induction false} SoundIndex(lhs: Tree, ts: seq<Token>)
    requires Fits(lhs) && IsPostfix(lhs) && StartsWith(ts, LBracket)
    ensures var r := PostfixLoop(lhs, ts);
            r.Parsed? && r.errors == [] ==> RightOperand(r.v, Yield(lhs) + ts, r.rest)
    decreases |ts|, 0
  {
    var r := ParseExpr(ts[1..], 0);
    SoundExpr(ts[1..], 0);
    IndexStep(lhs, ts);
    hide ParseExpr, PostfixLoop, Yield, Fits, Right;
    if r.Parsed? && r.errors == [] && StartsWith(r.rest, RBracket) {
      IndexRight(lhs, r.v, ts, r.rest);
      SoundPostfix(Index(lhs, r.v), r.rest[1..]);
    }
  }

  lemma IndexRight(lhs: Tree, e: Tree, ts: seq<Token>, rest: seq<Token>)
    requires Fits(lhs) && IsPostfix(lhs) && StartsWith(ts, LBracket)
    requires Right(e, ts[1..], rest, 0) && StartsWith(rest, RBracket)
    ensures Fits(Index(lhs, e)) && Yield(lhs) + ts == Yield(Index(lhs, e)) + rest[1..]
  {
    assert ts == [LBracket] + (Yield(e) + ([RBracket] + rest[1..]));
    assert Yield(Index(lhs, e)) == Yield(lhs) + ([LBracket] + (Yield(e) + [RBracket]));
    hide Yield;
  }

  lemma IndexStep(lhs: Tree, ts: seq<Token>)
    requires StartsWith(ts, LBracket)
    ensures var r := ParseExpr(ts[1..], 0);
            var s := PostfixLoop(lhs, ts);
            if r.Failed? then s == r
            else if StartsWith(r.rest, RBracket) then
              s == Before(r.errors, PostfixLoop(Index(lhs, r.v), r.rest[1..]))
            else s.Parsed? ==> s.errors != []
  {
    hide ParseExpr;
  }

  lemma {:induction false} SoundDot(lhs: Tree, ts: seq<Token>)
    requires Fits(lhs) && IsPostfix(lhs) && StartsWith(ts, Dot)
    ensures var r := PostfixLoop(lhs, ts);
            r.Parsed? && r.errors == [] ==> RightOperand(r.v, Yield(lhs) + ts, r.rest)
    decreases |ts|, 0
  {
    if |ts| >= 2 && IsName(ts[1]) {
      DotStep(lhs, ts);
      if StartsWith(ts[2..], LParen) {
        var r := ParseItems(ts[3..], RParen);
        SoundItems(ts[3..], RParen);
        hide ParseItems, PostfixLoop, Yield, Fits, RightItems;
        if r.Parsed? && r.errors == [] {
          MethodRight(lhs, r.v, ts, r.rest);
          SoundPostfix(Method(lhs, ts[1], r.v), r.rest);
        }
      } else {
        hide PostfixLoop, Yield, Fits;
        FieldRight(lhs, ts);
        SoundPostfix(Field(lhs, ts[1]), ts[2..]);
      }
    }
  }

  lemma MethodRight(lhs: Tree, items: seq<Tree>, ts: seq<Token>, rest: seq<Token>)
    requires Fits(lhs) && IsPostfix(lhs) && |ts| >= 3 && ts[0] == Dot && IsName(ts[1]) && ts[2] == LParen
    requires RightItems(items, ts[3..], rest, RParen)
    ensures Fits(Method(lhs, ts[1], items)) && Yield(lhs) + ts == Yield(Method(lhs, ts[1], items)) + rest
  {
    assert ts == [Dot, ts[1], LParen] + (YieldItems(items, RParen) + rest);
    hide YieldItems;
  }

  lemma FieldRight(lhs: Tree, ts: seq<Token>)
    requires Fits(lhs) && IsPostfix(lhs) && |ts| >= 2 && ts[0] == Dot && IsName(ts[1])
    ensures Fits(Field(lhs, ts[1])) && Yield(lhs) + ts == Yield(Field(lhs, ts[1])) + ts[2..]
  {
    assert ts == [Dot, ts[1]] + ts[2..];
  }

  lemma DotStep(lhs: Tree, ts: seq<Token>)
    requires StartsWith(ts, Dot) && |ts| >= 2 && IsName(ts[1])
    ensures PostfixLoop(lhs, ts) ==
              if StartsWith(ts[2..], LParen) then
                var r := ParseItems(ts[3..], RParen);
                if r.Failed? then Failed(r.why, r.rest, r.errors)
                else Before(r.errors, PostfixLoop(Method(lhs, ts[1], r.v), r.rest))
              else PostfixLoop(Field(lhs, ts[1]), ts[2..])
  {
    hide ParseItems, Before;
  }

  // ----- what every token list parses to -----

  /** A name in parentheses before `=>` is refused, wherever it ends the expression. */
  lemma {:induction false} Traps(t: Tree, rest: seq<Token>, min: nat)
    requires Fits(t) && AtLeast(t, min) && Trapped(t, rest)
    ensures var r := ParseExpr(Yield(t) + rest, min);
            r.Failed? && r.why == ArrowFunction
    decreases t
  {
    hide ParseExpr, InfixLoop, ParsePrefix;
    if t.Infix? {
      var after := Yield(t.r) + rest;
      assert Yield(t) + rest == Yield(t.l) + ([Operator(t.sym)] + after);
      assert ([Operator(t.sym)] + after)[1..] == after;
      Completes(t.l, [Operator(t.sym)] + after, min);
      Traps(t.r, rest, Rbp(t.sym));
      InfixStep(t.l, [Operator(t.sym)] + after, min);
    } else if t.Unary? {
      var after := Yield(t.e) + rest;
      assert Yield(t) + rest == [t.t] + after && ([t.t] + after)[1..] == after;
      Traps(t.e, rest, PREFIX_POWER);
      UnaryTraps(t.t, after, min);
    } else {
      ParenTraps(t, rest, min);
    }
  }

  lemma UnaryTraps(op: Token, ts: seq<Token>, min: nat)
    requires IsPrefix(op)
    requires var r := ParseExpr(ts, PREFIX_POWER); r.Failed? && r.why == ArrowFunction
    ensures var r := ParseExpr([op] + ts, min); r.Failed? && r.why == ArrowFunction
  {
    assert ([op] + ts)[1..] == ts;
    hide InfixLoop;
    assert ParsePrefix([op] + ts).Failed?;
  }

  lemma ParenTraps(t: Tree, rest: seq<Token>, min: nat)
    requires t.Paren? && Fits(t) && Trapped(t, rest)
    ensures var r := ParseExpr(Yield(t) + rest, min); r.Failed? && r.why == ArrowFunction
  {
    ArrowAfter(t.e, rest);
    var ts := Yield(t) + rest;
    assert ts[1..] == Yield(t.e) + [RParen] + rest;
    hide InfixLoop, PostfixLoop, LooksLikeArrowFn, Yield;
    assert ParsePrimary(ts).Failed?;
    assert ParsePrefix(ts).Failed?;
  }

  /**
   Parsing decided: a token list parses at `min`, without an error, to `t` with
   `rest` left over, exactly when `t` is the fitting tree over the tokens
   before `rest`, `rest` does not extend it, and it does not end in a name in
   parentheses with `=>` after it.
   */
  lemma ParsesExactly(ts: seq<Token>, min: nat, t: Tree, rest: seq<Token>)
    ensures ParseExpr(ts, min) == Parsed(t, rest, []) <==> Right(t, ts, rest, min) && !Trapped(t, rest)
  {
    SoundExpr(ts, min);
    hide ParseExpr, InfixLoop, Yield, Fits, Closed;
    if Right(t, ts, rest, min) {
      if Trapped(t, rest) {
        Traps(t, rest, min);
      } else {
        Completes(t, rest, min);
        InfixStops(t, rest, min);
      }
    }
  }

  /** Precedence leaves no choice: a token list is the yield of one fitting tree at most. */
  lemma FittingTreeUnique(a: Tree, b: Tree)
    requires Fits(a) && Fits(b) && Yield(a) == Yield(b)
    ensures a == b
  {
    hide Yield, Fits, ParseExpr;
    assert Yield(a) + [] == Yield(a) && Yield(b) + [] == Yield(b);
    ParsesExactly(Yield(a), 0, a, []);
    ParsesExactly(Yield(a), 0, b, []);
  }
}
