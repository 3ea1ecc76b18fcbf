/**
 On the tokens of operator expressions the whole parser and the parser of
 `Pratt` do the same, errors included, so that what is known of the latter
 decides what the former accepts.
 */
module OperatorAgreement {
  import Pratt
  import PrattLaws
  import PrattSoundness
  import opened Grammar
  import opened GrammarUnfoldings
  import opened GrammarLaws
  import opened ExpressionUnfoldings

  function RestOf(s: Outcome): seq<Token> {
    if s.Ok? then s.d.rest else s.rest
  }

  function ErrorsOf(s: Outcome): seq<Problem> {
    if s.Ok? then s.d.errors else s.errors
  }

  /** Both succeed or both fail, at the same token, with as many errors recorded. */
  predicate Alike<T>(d: Draft, r: Pratt.Outcome<T>, s: Outcome) {
    && r.Parsed? == s.Ok?
    && RestOf(s) == FullAll(r.rest)
    && |ErrorsOf(s)| == |d.errors| + |r.errors|
  }

  lemma NeedAlike<T>(v: T, t: Pratt.Token, ts: seq<Pratt.Token>, errors: seq<Pratt.Problem>, d: Draft, start: Draft)
    requires Closes(t) && d.rest == FullAll(ts) && |d.errors| == |start.errors| + |errors|
    ensures Alike(start, Pratt.Expect(v, t, ts, errors), Ok(Need(d, Full(t))))
  {
    FullStep(ts);
    if ts != [] {
      FullCloser(ts[0], t);
    }
    hide FullAll, Take;
    assert !Full(t).Key?;
  }

  lemma {:induction false} ExprAlike(ts: seq<Pratt.Token>, min: nat, d: Draft)
    requires d.rest == FullAll(ts)
    ensures Alike(d, Pratt.ParseExpr(ts, min), Expr(d, min))
    decreases |ts|, 3
  {
    hide FullAll, Pratt.ParseExpr, Pratt.ParsePrefix, Pratt.InfixLoop, Expr, Prefix, InfixLoop, Join, Text;
    ExprUnfolds(ts, min);
    ExprIs(d, min);
    PrefixAlike(ts, Fresh(d));
    var r, s := Pratt.ParsePrefix(ts), Prefix(Fresh(d));
    if r.Parsed? {
      InfixAlike(r.v, r.rest, min, s.d);
    }
  }

  lemma {:induction false} InfixAlike(lhs: Pratt.Tree, ts: seq<Pratt.Token>, min: nat, d: Draft)
    requires d.rest == FullAll(ts)
    ensures Alike(d, Pratt.InfixLoop(lhs, ts, min), InfixLoop(d, min))
    decreases |ts|, 0
  {
    hide FullAll, Pratt.ParseExpr, Pratt.InfixLoop, Expr, InfixLoop, Take, Wrap, Text;
    InfixUnfolds(lhs, ts, min);
    InfixLoopIs(d, min);
    FullStep(ts);
    if ts != [] {
      FullOperator(ts[0]);
      if ts[0].Operator? && Pratt.Lbp(ts[0].sym) >= min {
        var power := Pratt.Rbp(ts[0].sym);
        ExprAlike(ts[1..], power, Take(d));
        var r, s := Pratt.ParseExpr(ts[1..], power), Expr(Take(d), power);
        if r.Parsed? {
          InfixAlike(Pratt.Infix(ts[0].sym, lhs, r.v), r.rest, min, Wrap(Kind.Infix, s.d));
        }
      }
    }
  }

  lemma {:induction false} PrefixAlike(ts: seq<Pratt.Token>, d: Draft)
    requires d.rest == FullAll(ts)
    ensures Alike(d, Pratt.ParsePrefix(ts), Prefix(d))
    decreases |ts|, 2
  {
    hide FullAll, Pratt.ParseExpr, Pratt.ParsePrefix, Pratt.ParsePrimary, Pratt.PostfixLoop;
    hide Expr, Prefix, Primary, PostfixLoop, Take, Fresh, Whole, Join, AtPrefix, Text;
    PrattPrefixIs(ts);
    PrefixIs(d);
    FullStep(ts);
    AtPrefixIs(d, ts);
    if ts != [] && Pratt.IsPrefix(ts[0]) {
      ExprAlike(ts[1..], Pratt.PREFIX_POWER, Take(Fresh(d)));
      TakenExpr(d, Pratt.PREFIX_POWER);
      WholeAlike(Kind.Unary, d, Expr(Take(Fresh(d)), Pratt.PREFIX_POWER));
    } else {
      PrimaryAlike(ts, Fresh(d));
      var r, s := Pratt.ParsePrimary(ts), Primary(Fresh(d));
      if r.Parsed? {
        PostfixAlike(r.v, r.rest, s.d);
      }
    }
  }

  lemma WholeAlike(kind: Kind, d: Draft, r: Outcome)
    requires Follows(Fresh(d), r)
    ensures var s := Whole(kind, d, r); s.Ok? == r.Ok? && RestOf(s) == RestOf(r) && ErrorsOf(s) == ErrorsOf(r)
  {
    if r.Ok? {
      WholeIs(kind, d, r);
    }
    hide Text, Whole;
  }

  /** A token that begins no expression is refused where it stands. */
  lemma PrimaryFails(ts: seq<Pratt.Token>, d: Draft)
    requires d.rest == FullAll(ts)
    requires ts != [] ==> !Pratt.IsAtom(ts[0]) && ts[0] != Pratt.LParen && ts[0] != Pratt.LBracket
    ensures Primary(d) == Fail(Unexpected, d)
  {
    FullStep(ts);
    hide FullAll, Take, Whole, Items, Parenthesised, Brace, KeywordExpr, LooksLikeArrowFn, Text;
    if ts != [] && d.rest[0].Key? {
      NoSuchExpr(d, d.rest[0].word);
    }
  }

  lemma {:induction false} PrimaryAlike(ts: seq<Pratt.Token>, d: Draft)
    requires d.rest == FullAll(ts)
    ensures Alike(d, Pratt.ParsePrimary(ts), Primary(d))
    decreases |ts|, 1
  {
    hide FullAll, Pratt.ParsePrimary, Pratt.ParseExpr, Pratt.ParseItems, Pratt.LooksLikeArrowFn, Pratt.IsAtom, Full;
    hide Primary, Take, Fresh, Whole, Items, Parenthesised, LooksLikeArrowFn, IsLiteral, Text, Pratt.Expect;
    PrattPrimaryIs(ts);
    FullStep(ts);
    if ts == [] || (!Pratt.IsAtom(ts[0]) && ts[0] != Pratt.LParen && ts[0] != Pratt.LBracket) {
      PrimaryFails(ts, d);
    } else {
      PrimaryIs(d);
      FullOperator(ts[0]);
      if Pratt.IsAtom(ts[0]) {
      } else if ts[0] == Pratt.LParen {
        ParenAlike(ts, d);
      } else {
        RightClosers();
        ItemsAlike(ts[1..], Pratt.RBracket, Take(Fresh(d)));
        TakenItems(d, Token.RBracket);
        WholeAlike(Kind.Vector, d, Items(Take(Fresh(d)), Exprs, Token.RBracket));
      }
    }
  }

  lemma {:induction false} ParenAlike(ts: seq<Pratt.Token>, d: Draft)
    requires d.rest == FullAll(ts) && ts != [] && ts[0] == Pratt.LParen
    ensures Alike(d, Pratt.ParsePrimary(ts), Primary(d))
    decreases |ts|, 0
  {
    hide FullAll, Pratt.ParsePrimary, Pratt.ParseExpr, Pratt.LooksLikeArrowFn, Pratt.IsAtom, Full;
    hide Primary, Expr, Need, Take, Fresh, Whole, Parenthesised, LooksLikeArrowFn, Text, Pratt.Expect;
    PrattPrimaryIs(ts);
    FullStep(ts);
    FullOperator(ts[0]);
    ParenIs(d);
    ArrowsAgree(ts[1..]);
    NotAtom();
    var s := Take(Fresh(d));
    ExprAlike(ts[1..], 0, s);
    ParenthesisedIs(s);
    TakenFollows(d);
    WholeAlike(Kind.Paren, d, Parenthesised(s));
    var r, e := Pratt.ParseExpr(ts[1..], 0), Expr(s, 0);
    if r.Parsed? {
      RightClosers();
      NeedAlike(Pratt.Paren(r.v), Pratt.RParen, r.rest, r.errors, e.d, d);
    }
  }

  lemma NotAtom()
    ensures !Pratt.IsAtom(Pratt.LParen)
  {
  }

  lemma ParenIs(d: Draft)
    requires At(d, Token.LParen)
    ensures Primary(d) ==
              if LooksLikeArrowFn(d.rest[1..]) then Fail(ArrowFunction, Take(d))
              else Whole(Kind.Paren, d, Parenthesised(Take(Fresh(d))))
  {
    hide Take, Whole, Items, Parenthesised, Brace, KeywordExpr, LooksLikeArrowFn;
  }

  lemma {:induction false} ItemsAlike(ts: seq<Pratt.Token>, closer: Pratt.Token, d: Draft)
    requires d.rest == FullAll(ts) && Closes(closer)
    ensures Alike(d, Pratt.ParseItems(ts, closer), Items(d, Exprs, Full(closer)))
    decreases |ts|, 5
  {
    hide FullAll, Full, Pratt.ParseItems, Pratt.ItemsLoop, Items, ItemsLoop, Take, Text;
    ItemsBegin(ts, closer);
    ItemsIs(d, Full(closer));
    FullStep(ts);
    if ts != [] {
      FullCloser(ts[0], closer);
    }
    if !Pratt.StartsWith(ts, closer) {
      ItemsLoopAlike([], ts, closer, d);
    }
  }

  lemma {:induction false} ItemsLoopAlike(done: seq<Pratt.Tree>, ts: seq<Pratt.Token>, closer: Pratt.Token, d: Draft)
    requires d.rest == FullAll(ts) && Closes(closer)
    ensures Alike(d, Pratt.ItemsLoop(done, ts, closer), ItemsLoop(d, Exprs, Full(closer)))
    decreases |ts|, 4
  {
    hide FullAll, Full, Pratt.ParseExpr, Pratt.ItemsLoop, Pratt.Expect, Expr, ItemsLoop, Take, Need, Text;
    ItemsUnfolds(done, ts, closer);
    ExprsLoopIs(d, Full(closer));
    ExprAlike(ts, 0, d);
    var r, s := Pratt.ParseExpr(ts, 0), Expr(d, 0);
    if r.Parsed? {
      FullStep(r.rest);
      if r.rest != [] {
        FullOperator(r.rest[0]);
      }
      if Pratt.StartsWith(r.rest, Pratt.Comma) {
        ItemsLoopAlike(done + [r.v], r.rest[1..], closer, Take(s.d));
      } else {
        NeedAlike(done + [r.v], closer, r.rest, r.errors, s.d, d);
      }
    }
  }

  lemma {:induction false} PostfixAlike(lhs: Pratt.Tree, ts: seq<Pratt.Token>, d: Draft)
    requires d.rest == FullAll(ts)
    ensures Alike(d, Pratt.PostfixLoop(lhs, ts), PostfixLoop(d))
    decreases |ts|, 2
  {
    hide FullAll, Full, Pratt.ParseExpr, Pratt.ParseItems, Pratt.PostfixLoop, Pratt.Expect, Applied;
    hide Expr, Items, PostfixLoop, Selected, Take, Need, Wrap, Text, Follows, Consumes;
    PostfixLoopIs(d);
    FullStep(ts);
    if ts == [] || ts[0] !in {Pratt.LParen, Pratt.LBracket, Pratt.Dot} {
      PostfixUnfolds(lhs, ts);
      if ts != [] {
        FullOperator(ts[0]);
      }
    } else {
      AppliedUnfolds(lhs, ts);
      FullOperator(ts[0]);
      AppliedAlike(lhs, ts, d);
      var o, s := Applied(lhs, ts), OneApplied(d);
      if o.Parsed? {
        PostfixAlike(o.v, o.rest, s.d);
      }
    }
  }

  /** One call, index, field or method. */
  function OneApplied(d: Draft): Outcome
    requires At(d, Token.LParen) || At(d, Token.LBracket) || At(d, Token.Dot)
  {
    if At(d, Token.LParen) then
      var call := Items(Take(d), Exprs, Token.RParen);
      if call.Err? then call else Ok(Wrap(Kind.Call, call.d))
    else if At(d, Token.LBracket) then
      var index := Expr(Take(d), 0);
      if index.Err? then index else Ok(Wrap(Kind.Index, Need(index.d, Token.RBracket)))
    else Selected(d)
  }

  lemma {:induction false} AppliedAlike(lhs: Pratt.Tree, ts: seq<Pratt.Token>, d: Draft)
    requires d.rest == FullAll(ts) && ts != [] && ts[0] in {Pratt.LParen, Pratt.LBracket, Pratt.Dot}
    ensures At(d, Token.LParen) || At(d, Token.LBracket) || At(d, Token.Dot)
    ensures Alike(d, Applied(lhs, ts), OneApplied(d))
    decreases |ts|, 1
  {
    hide FullAll, Full, Pratt.ParseExpr, Pratt.ParseItems, Pratt.Expect, Expr, Items, Selected, Take, Need, Wrap, Text;
    hide Applied, Alike;
    FullStep(ts);
    FullOperator(ts[0]);
    if ts[0] == Pratt.LParen {
      CallAlike(lhs, ts, d);
    } else if ts[0] == Pratt.LBracket {
      IndexAlike(lhs, ts, d);
    } else {
      DotAlike(lhs, ts, d);
    }
  }

  lemma {:induction false} CallAlike(lhs: Pratt.Tree, ts: seq<Pratt.Token>, d: Draft)
    requires d.rest == FullAll(ts) && ts != [] && ts[0] == Pratt.LParen
    ensures At(d, Token.LParen) && Alike(d, Applied(lhs, ts), OneApplied(d))
    decreases |ts|, 0
  {
    hide FullAll, Full, Pratt.ParseItems, Items, Take, Wrap, Text;
    FullStep(ts);
    FullOperator(ts[0]);
    RightClosers();
    ItemsAlike(ts[1..], Pratt.RParen, Take(d));
  }

  lemma {:induction false} IndexAlike(lhs: Pratt.Tree, ts: seq<Pratt.Token>, d: Draft)
    requires d.rest == FullAll(ts) && ts != [] && ts[0] == Pratt.LBracket
    ensures At(d, Token.LBracket) && Alike(d, Applied(lhs, ts), OneApplied(d))
    decreases |ts|, 0
  {
    hide FullAll, Full, Pratt.ParseExpr, Pratt.Expect, Expr, Take, Need, Wrap, Text;
    FullStep(ts);
    FullOperator(ts[0]);
    RightClosers();
    ExprAlike(ts[1..], 0, Take(d));
    var r, s := Pratt.ParseExpr(ts[1..], 0), Expr(Take(d), 0);
    if r.Parsed? {
      NeedAlike(Pratt.Index(lhs, r.v), Pratt.RBracket, r.rest, r.errors, s.d, d);
    }
  }

  lemma {:induction false} DotAlike(lhs: Pratt.Tree, ts: seq<Pratt.Token>, d: Draft)
    requires d.rest == FullAll(ts) && ts != [] && ts[0] == Pratt.Dot
    ensures At(d, Token.Dot) && Alike(d, Applied(lhs, ts), Selected(d))
    decreases |ts|, 0
  {
    hide FullAll, Full, Pratt.ParseExpr, Pratt.ParseItems, Pratt.Expect, Pratt.IsName, Items, Take, Wrap, Text;
    hide AtFieldName, Follows, Consumes, Onward;
    FullStep(ts);
    FullOperator(ts[0]);
    RightClosers();
    var dot := Take(d);
    FullStep(ts[1..]);
    FieldNamesAlike(ts[1..], dot);
    if |ts| >= 2 && Pratt.IsName(ts[1]) {
      assert ts[1..][1..] == ts[2..];
      FullStep(ts[2..]);
      if |ts| > 2 {
        FullOperator(ts[2]);
        if ts[2] == Pratt.LParen {
          assert ts[2..][1..] == ts[3..];
          ItemsAlike(ts[3..], Pratt.RParen, Take(Take(dot)));
        }
      }
    }
  }

  lemma FieldNamesAlike(ts: seq<Pratt.Token>, d: Draft)
    requires d.rest == FullAll(ts)
    ensures AtFieldName(d) <==> ts != [] && Pratt.IsName(ts[0])
  {
    FullStep(ts);
    hide FullAll;
  }

  /**
   The whole parser on operator expressions: it succeeds where the operator
   parser does, stops at the same token, records as many errors, and without
   errors yields the same tree.
   */
  lemma OperatorsAgree(ts: seq<Pratt.Token>, min: nat)
    ensures var r, s := Pratt.ParseExpr(ts, min), Expr(Draft([], FullAll(ts), []), min);
            && r.Parsed? == s.Ok? && RestOf(s) == FullAll(r.rest) && |ErrorsOf(s)| == |r.errors|
            && (r.Parsed? && r.errors == [] ==> s == Ok(Draft([Cst(r.v)], FullAll(r.rest), [])))
  {
    hide Pratt.ParseExpr, Expr, FullAll, Cst;
    var r, d := Pratt.ParseExpr(ts, min), Draft([], FullAll(ts), []);
    ExprAlike(ts, min, d);
    if r.Parsed? && r.errors == [] {
      ExprAgrees(ts, min, d);
      assert [] + [Cst(r.v)] == [Cst(r.v)];
    }
  }

  /**
   What the whole parser accepts without an error among operator expressions,
   and with which tree: exactly the fitting trees that what follows does not
   extend, and that do not end in a name in parentheses before `=>`.
   */
  lemma AcceptsExactly(ts: seq<Pratt.Token>, min: nat)
    ensures var s := Expr(Draft([], FullAll(ts), []), min);
            && (s.Ok? && s.d.errors == [] <==>
                  exists t, rest :: PrattSoundness.Right(t, ts, rest, min) && !PrattLaws.Trapped(t, rest))
            && forall t, rest :: PrattSoundness.Right(t, ts, rest, min) && !PrattLaws.Trapped(t, rest) ==>
                 s == Ok(Draft([Cst(t)], FullAll(rest), []))
  {
    hide *;
    OperatorsAgree(ts, min);
    ErrorsIf(Expr(Draft([], FullAll(ts), []), min));
    var r := Pratt.ParseExpr(ts, min);
    if r.Parsed? && r.errors == [] {
      PrattSoundness.ParsesExactly(ts, min, r.v, r.rest);
    }
    forall t, rest | PrattSoundness.Right(t, ts, rest, min) && !PrattLaws.Trapped(t, rest)
      ensures r == Pratt.Parsed(t, rest, [])
    {
      PrattSoundness.ParsesExactly(ts, min, t, rest);
    }
  }

  lemma ErrorsIf(s: Outcome)
    ensures s.Ok? ==> ErrorsOf(s) == s.d.errors
  {
  }
}
