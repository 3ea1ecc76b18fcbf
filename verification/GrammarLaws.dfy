/**
 What holds of the whole parser: no token is lost while no error is recorded,
 both loops over statements advance in every iteration, and on the tokens of
 operator expressions it is the parser of `Pratt`.
 */
module GrammarLaws {
  import Pratt
  import opened Grammar
  import opened GrammarUnfoldings
  import opened ExpressionUnfoldings

  // ----- every token is accounted for -----

  /** A file that parses without a recorded error is, token by token, what was parsed. */
  lemma NothingLost(ts: seq<Token>)
    requires Parse(ts).errors == []
    ensures TokensOf(Parse(ts).kids) == ts
  {
    hide StmtList;
    var start, end := Draft([], ts, []), Parse(ts);
    assert Onward(start, end);
    assert Text(start) == ts && Text(end) == TokensOf(end.kids);
  }

  /** Every iteration of a statement list consumes a token, also one that ends in an error. */
  lemma ListAdvances(d: Draft, topLevel: bool)
    requires d.rest != [] && (topLevel || d.rest[0] != RBrace)
    ensures var r := Stmt(d);
            |if r.Ok? then r.d.rest else Resynced(d, r, topLevel).rest| < |d.rest|
  {
    hide ExprStmt, Definition, Binding, NamedFunction;
    var r := Stmt(d);
    assert Consumes(d, r);
  }

  /** Where resynchronising stops. */
  predicate StopsHere(t: Token, topLevel: bool) {
    t == Semicolon || StartsStmt(t) || (t == RBrace && !topLevel)
  }

  /** It stops at the first place there is, and takes the semicolon if it is one. */
  lemma {:induction false} ResyncStops(ts: seq<Token>, topLevel: bool) returns (k: nat)
    ensures k <= |ts| && (forall j :: 0 <= j < k ==> !StopsHere(ts[j], topLevel))
    ensures k < |ts| ==> StopsHere(ts[k], topLevel)
    ensures Resync(ts, topLevel) == if k < |ts| && ts[k] == Semicolon then ts[k + 1..] else ts[k..]
    decreases |ts|
  {
    if ts == [] || StopsHere(ts[0], topLevel) {
      k := 0;
    } else {
      var n := ResyncStops(ts[1..], topLevel);
      k := n + 1;
      assert forall j :: 0 < j <= |ts[1..]| ==> ts[1..][j - 1] == ts[j];
    }
  }

  // ----- operator expressions -----

  /** The tokens of the operator language as tokens of the whole one. */
  function Full(t: Pratt.Token): Token {
    match t
    case Ident(name) => Token.Ident(name, false)
    case Literal(text) => Number(text)
    case Constant(text) => Key(if text == "true" then True else if text == "false" then False else NilWord)
    case Word(_) => Key(Else)
    case NotWord => Key(Not)
    case Operator(sym) => Op(sym)
    case LParen => Token.LParen
    case RParen => Token.RParen
    case LBracket => Token.LBracket
    case RBracket => Token.RBracket
    case Dot => Token.Dot
    case Comma => Token.Comma
    case FatArrow => Token.FatArrow
    case Semicolon => Token.Semicolon
    case RBrace => Token.RBrace
    case LetWord => Key(Let)
    case Other(_) => Underscore
  }

  function FullAll(ts: seq<Pratt.Token>): (r: seq<Token>)
    ensures |r| == |ts|
  {
    seq(|ts|, i requires 0 <= i < |ts| => Full(ts[i]))
  }

  lemma FullStep(ts: seq<Pratt.Token>)
    ensures ts != [] ==> FullAll(ts) != [] && FullAll(ts)[0] == Full(ts[0]) && FullAll(ts)[1..] == FullAll(ts[1..])
    ensures ts == [] ==> FullAll(ts) == []
  {
  }

  function Dotted(ts: seq<Pratt.Tree>): seq<Tree>
    decreases ts
  {
    if ts == [] then []
    else [Cst(ts[0])] + (if |ts| == 1 then [] else [Leaf(Token.Comma)] + Dotted(ts[1..]))
  }

  /** The concrete syntax of an operator expression with all its brackets closed. */
  function Cst(t: Pratt.Tree): Tree
    decreases t
  {
    match t
    case Atom(a) => Leaf(Full(a))
    case Paren(e) => Node(Kind.Paren, [Leaf(Token.LParen), Cst(e), Leaf(Token.RParen)])
    case Vector(items) => Node(Kind.Vector, [Leaf(Token.LBracket)] + Dotted(items) + [Leaf(Token.RBracket)])
    case Unary(op, e) => Node(Kind.Unary, [Leaf(Full(op)), Cst(e)])
    case Infix(sym, l, r) => Node(Kind.Infix, [Cst(l), Leaf(Op(sym)), Cst(r)])
    case Call(f, items) => Node(Kind.Call, [Cst(f), Leaf(Token.LParen)] + Dotted(items) + [Leaf(Token.RParen)])
    case Index(a, e) => Node(Kind.Index, [Cst(a), Leaf(Token.LBracket), Cst(e), Leaf(Token.RBracket)])
    case Field(a, name) => Node(Kind.Field, [Cst(a), Leaf(Token.Dot), Leaf(Full(name))])
    case Method(a, name, items) =>
      Node(Kind.Method,
           [Cst(a), Leaf(Token.Dot), Leaf(Full(name)), Leaf(Token.LParen)] + Dotted(items) + [Leaf(Token.RParen)])
  }

  /** The outcome of the operator parser, behind what there was. */
  function Done(d: Draft, t: Tree, rest: seq<Pratt.Token>): Outcome {
    Ok(Draft(d.kids + [t], FullAll(rest), d.errors))
  }

  predicate Clean<T>(r: Pratt.Outcome<T>) {
    r.Parsed? && r.errors == []
  }

  lemma CleanBefore<T>(errors: seq<Pratt.Problem>, r: Pratt.Outcome<T>)
    requires Clean(Pratt.Before(errors, r))
    ensures errors == [] && Clean(r) && Pratt.Before(errors, r) == r
  {
    assert errors + r.errors == [] ==> errors == [] && r.errors == [];
  }

  lemma CleanExpect<T>(v: T, t: Pratt.Token, ts: seq<Pratt.Token>, errors: seq<Pratt.Problem>)
    requires Clean(Pratt.Expect(v, t, ts, errors))
    ensures errors == [] && Pratt.StartsWith(ts, t) && Pratt.Expect(v, t, ts, errors) == Pratt.Parsed(v, ts[1..], [])
  {
    assert |errors + [Pratt.Missing(t)]| > 0;
  }

  lemma {:induction false} ArrowsAgree(ts: seq<Pratt.Token>)
    ensures ParamsThenArrow(FullAll(ts)) == Pratt.ParamsThenArrow(ts)
    ensures LooksLikeArrowFn(FullAll(ts)) == Pratt.LooksLikeArrowFn(ts)
    decreases |ts|
  {
    if |ts| >= 2 {
      assert FullAll(ts)[2..] == FullAll(ts[2..]);
      ArrowsAgree(ts[2..]);
    }
  }

  lemma TakeIs(d: Draft)
    requires d.rest != []
    ensures Take(d) == Draft(d.kids + [Leaf(d.rest[0])], d.rest[1..], d.errors)
  {
  }

  lemma JoinIs(d: Draft, part: Draft)
    requires Onward(Fresh(d), part)
    ensures Join(d, part) == Draft(d.kids + part.kids, part.rest, part.errors)
  {
  }

  lemma WrapIs(kind: Kind, d: Draft)
    ensures Wrap(kind, d) == Draft([Node(kind, d.kids)], d.rest, d.errors)
  {
  }

  lemma WholeIs(kind: Kind, d: Draft, r: Outcome)
    requires Follows(Fresh(d), r) && r.Ok?
    ensures Whole(kind, d, r) == Ok(Draft(d.kids + [Node(kind, r.d.kids)], r.d.rest, r.d.errors))
  {
  }

  lemma NeedHere(d: Draft, t: Token)
    requires At(d, t)
    ensures Need(d, t) == Take(d)
  {
  }

  lemma ExprIs(d: Draft, min: nat)
    ensures var lhs := Prefix(Fresh(d));
            && (lhs.Err? ==> Expr(d, min) == lhs)
            && (lhs.Ok? ==>
                  var all := InfixLoop(lhs.d, min);
                  && (all.Err? ==> Expr(d, min) == all)
                  && (all.Ok? ==> Onward(Fresh(d), all.d) && Expr(d, min) == Ok(Join(d, all.d))))
  {
    hide Prefix, InfixLoop, Join, Text;
  }

  lemma PrefixIs(d: Draft)
    ensures Prefix(d) ==
              if AtPrefix(d) then Whole(Kind.Unary, d, Expr(Take(Fresh(d)), Pratt.PREFIX_POWER))
              else
                var first := Primary(Fresh(d));
                if first.Err? then first
                else
                  var all := PostfixLoop(first.d);
                  if all.Err? then all else Ok(Join(d, all.d))
    ensures !AtPrefix(d) && Primary(Fresh(d)).Ok? && PostfixLoop(Primary(Fresh(d)).d).Ok? ==>
              Onward(Fresh(d), PostfixLoop(Primary(Fresh(d)).d).d)
  {
    hide Expr, Take, Primary, PostfixLoop, Join, Text;
  }

  lemma ExprsLoopIs(d: Draft, closer: Token)
    ensures ItemsLoop(d, Exprs, closer) ==
              var one := Expr(d, 0);
              if one.Err? then one
              else if At(one.d, Token.Comma) then ItemsLoop(Take(one.d), Exprs, closer)
              else Ok(Need(one.d, closer))
  {
    ItemsLoopIs(d, Exprs, closer);
    assert OneItem(d, Exprs) == Expr(d, 0);
    hide Expr, Take, Need, ItemsLoop, Text, OneItem;
  }

  lemma Glue(a: seq<Tree>, b: seq<Tree>, c: seq<Tree>, d: seq<Tree>)
    ensures (a + b) + (c + d) == (a + b) + c + d
    ensures ([] + b) + (c + d) == b + c + d
  {
  }

  lemma Glue2(a: Tree, b: Tree)
    ensures [a] + [b] == [] + [a] + [b] == [a, b]
  {
  }

  lemma Glue3(a: Tree, b: Tree, c: Tree)
    ensures [a] + [b] + [c] == [] + [a] + [b] + [c] == [a, b, c]
  {
  }

  lemma Glue4(a: Tree, b: Tree, c: Tree, d: Tree)
    ensures [a] + [b] + [c] + [d] == [a, b, c] + [d] == [a, b, c, d]
  {
  }

  // ----- the two parsers agree -----

  lemma {:induction false} ExprAgrees(ts: seq<Pratt.Token>, min: nat, d: Draft)
    requires d.rest == FullAll(ts) && Clean(Pratt.ParseExpr(ts, min))
    ensures var r := Pratt.ParseExpr(ts, min);
            Expr(d, min) == Done(d, Cst(r.v), r.rest)
    decreases |ts|, 3
  {
    hide *;
    ExprUnfolds(ts, min);
    ExprIs(d, min);
    var r := Pratt.ParsePrefix(ts);
    CleanMeans(Pratt.ParseExpr(ts, min));
    if r.Parsed? {
      CleanBefore(r.errors, Pratt.InfixLoop(r.v, r.rest, min));
      CleanIs(r);
      FreshIs(d);
      PrefixAgrees(ts, Fresh(d));
      DoneIs(Fresh(d), Cst(r.v), r.rest);
      var lhs := Draft([Cst(r.v)], FullAll(r.rest), d.errors);
      assert [] + [Cst(r.v)] == [Cst(r.v)];
      InfixAgrees(r.v, r.rest, min, lhs);
      var all := Pratt.InfixLoop(r.v, r.rest, min);
      DoneIs(Draft([], FullAll(ts), d.errors), Cst(all.v), all.rest);
      JoinIs(d, Draft([Cst(all.v)], FullAll(all.rest), d.errors));
      DoneIs(d, Cst(all.v), all.rest);
    }
  }

  lemma CleanMeans<T>(r: Pratt.Outcome<T>)
    requires Clean(r)
    ensures r.Parsed? && r.errors == []
  {
  }

  lemma CleanIs<T>(r: Pratt.Outcome<T>)
    requires r.Parsed? && r.errors == []
    ensures Clean(r)
  {
  }

  lemma FreshIs(d: Draft)
    ensures Fresh(d) == Draft([], d.rest, d.errors)
  {
  }

  lemma DoneIs(d: Draft, t: Tree, rest: seq<Pratt.Token>)
    ensures Done(d, t, rest) == Ok(Draft(d.kids + [t], FullAll(rest), d.errors))
  {
  }

  /** `d` holds the left operand. */
  lemma {:induction false} InfixAgrees(lhs: Pratt.Tree, ts: seq<Pratt.Token>, min: nat, d: Draft)
    requires d == Draft([Cst(lhs)], FullAll(ts), d.errors) && Clean(Pratt.InfixLoop(lhs, ts, min))
    ensures var r := Pratt.InfixLoop(lhs, ts, min);
            InfixLoop(d, min) == Ok(Draft([Cst(r.v)], FullAll(r.rest), d.errors))
    decreases |ts|, 0
  {
    hide *;
    InfixUnfolds(lhs, ts, min);
    InfixLoopIs(d, min);
    FullStep(ts);
    if ts != [] {
      FullOperator(ts[0]);
      if ts[0].Operator? && Pratt.Lbp(ts[0].sym) >= min {
        var sym := ts[0].sym;
        var r := Pratt.ParseExpr(ts[1..], Pratt.Rbp(sym));
        CleanMeans(Pratt.InfixLoop(lhs, ts, min));
        var t := Pratt.Infix(sym, lhs, r.v);
        CleanBefore(r.errors, Pratt.InfixLoop(t, r.rest, min));
        CleanIs(r);
        TakeIs(d);
        var d1 := Take(d);
        ExprAgrees(ts[1..], Pratt.Rbp(sym), d1);
        DoneIs(d1, Cst(r.v), r.rest);
        var both := Draft(d1.kids + [Cst(r.v)], FullAll(r.rest), d.errors);
        WrapIs(Kind.Infix, both);
        CstInfix(sym, lhs, r.v);
        Glue3(Cst(lhs), Leaf(Op(sym)), Cst(r.v));
        InfixAgrees(t, r.rest, min, Wrap(Kind.Infix, both));
      }
    }
  }

  lemma FullOperator(t: Pratt.Token)
    ensures Full(t).Op? <==> t.Operator?
    ensures t.Operator? ==> Full(t) == Op(t.sym)
    ensures Full(t) == Token.Comma <==> t == Pratt.Comma
    ensures Full(t) == Token.LParen <==> t == Pratt.LParen
    ensures Full(t) == Token.RParen <==> t == Pratt.RParen
    ensures Full(t) == Token.LBracket <==> t == Pratt.LBracket
    ensures Full(t) == Token.RBracket <==> t == Pratt.RBracket
    ensures Full(t) == Token.Dot <==> t == Pratt.Dot
    ensures Full(t) == Key(Not) <==> t == Pratt.NotWord
    ensures Full(t) == Op(Pratt.Minus) <==> t == Pratt.Operator(Pratt.Minus)
    ensures Pratt.IsName(t) ==> Full(t).Ident? || Full(t).Key? || Full(t) in {Op(Pratt.OrWord), Op(Pratt.AndWord)}
    ensures Pratt.IsAtom(t) ==> IsLiteral(Full(t)) || Full(t).Ident?
  {
  }

  lemma CstInfix(sym: Pratt.Symbol, l: Pratt.Tree, r: Pratt.Tree)
    ensures Cst(Pratt.Infix(sym, l, r)) == Node(Kind.Infix, [Cst(l), Leaf(Op(sym)), Cst(r)])
  {
  }

  lemma {:induction false} PrefixAgrees(ts: seq<Pratt.Token>, d: Draft)
    requires d.rest == FullAll(ts) && Clean(Pratt.ParsePrefix(ts))
    ensures var r := Pratt.ParsePrefix(ts);
            Prefix(d) == Done(d, Cst(r.v), r.rest)
    decreases |ts|, 2
  {
    hide *;
    CleanMeans(Pratt.ParsePrefix(ts));
    PrattPrefixIs(ts);
    PrefixIs(d);
    FullStep(ts);
    AtPrefixIs(d, ts);
    FreshIs(d);
    var all := Pratt.ParsePrefix(ts);
    DoneIs(d, Cst(all.v), all.rest);
    if ts != [] && Pratt.IsPrefix(ts[0]) {
      var r := Pratt.ParseExpr(ts[1..], Pratt.PREFIX_POWER);
      CleanIs(r);
      TakeIs(Fresh(d));
      var s := Take(Fresh(d));
      ExprAgrees(ts[1..], Pratt.PREFIX_POWER, s);
      TakenExpr(d, Pratt.PREFIX_POWER);
      DoneIs(s, Cst(r.v), r.rest);
      WholeIs(Kind.Unary, d, Expr(s, Pratt.PREFIX_POWER));
      CstUnary(ts[0], r.v);
      Glue2(Leaf(Full(ts[0])), Cst(r.v));
    } else {
      var r := Pratt.ParsePrimary(ts);
      CleanBefore(r.errors, Pratt.PostfixLoop(r.v, r.rest));
      CleanIs(r);
      PrimaryAgrees(ts, Fresh(d));
      DoneIs(Fresh(d), Cst(r.v), r.rest);
      assert [] + [Cst(r.v)] == [Cst(r.v)];
      PostfixAgrees(r.v, r.rest, Draft([Cst(r.v)], FullAll(r.rest), d.errors));
      JoinIs(d, Draft([Cst(all.v)], FullAll(all.rest), d.errors));
    }
  }

  lemma PrattPrefixIs(ts: seq<Pratt.Token>)
    ensures Pratt.ParsePrefix(ts) ==
              if ts != [] && Pratt.IsPrefix(ts[0]) then
                var r := Pratt.ParseExpr(ts[1..], Pratt.PREFIX_POWER);
                if r.Failed? then r else Pratt.Parsed(Pratt.Unary(ts[0], r.v), r.rest, r.errors)
              else
                var r := Pratt.ParsePrimary(ts);
                if r.Failed? then r else Pratt.Before(r.errors, Pratt.PostfixLoop(r.v, r.rest))
  {
    hide Pratt.ParseExpr, Pratt.ParsePrimary, Pratt.PostfixLoop, Pratt.Before;
  }

  lemma AtPrefixIs(d: Draft, ts: seq<Pratt.Token>)
    requires d.rest == FullAll(ts)
    ensures AtPrefix(d) <==> ts != [] && Pratt.IsPrefix(ts[0])
  {
    FullStep(ts);
    if ts != [] {
      FullOperator(ts[0]);
    }
    hide FullAll, Full;
  }

  lemma CstUnary(t: Pratt.Token, e: Pratt.Tree)
    ensures Cst(Pratt.Unary(t, e)) == Node(Kind.Unary, [Leaf(Full(t)), Cst(e)])
  {
  }

  /** The end of a list: what was parsed, and the closing token. */
  function ItemsDone(d: Draft, items: seq<Pratt.Tree>, closer: Pratt.Token, rest: seq<Pratt.Token>): Outcome {
    Ok(Draft(d.kids + (Dotted(items) + [Leaf(Full(closer))]), FullAll(rest), d.errors))
  }

  lemma ItemsDoneIs(d: Draft, items: seq<Pratt.Tree>, closer: Pratt.Token, rest: seq<Pratt.Token>)
    ensures ItemsDone(d, items, closer, rest) ==
              Ok(Draft(d.kids + (Dotted(items) + [Leaf(Full(closer))]), FullAll(rest), d.errors))
  {
  }

  predicate Closes(t: Pratt.Token) {
    t == Pratt.RParen || t == Pratt.RBracket
  }

  lemma FullCloser(t: Pratt.Token, c: Pratt.Token)
    requires Closes(c)
    ensures Full(t) == Full(c) <==> t == c
    ensures c != Pratt.Comma
  {
  }

  lemma AtIs(d: Draft, t: Token)
    ensures At(d, t) <==> d.rest != [] && d.rest[0] == t
  {
  }

  lemma PrattStarts(ts: seq<Pratt.Token>, t: Pratt.Token)
    ensures Pratt.StartsWith(ts, t) <==> ts != [] && ts[0] == t
  {
  }

  lemma ItemsIs(d: Draft, closer: Token)
    ensures Items(d, Exprs, closer) == if At(d, closer) then Ok(Take(d)) else ItemsLoop(d, Exprs, closer)
  {
    hide ItemsLoop, Take;
  }

  lemma {:induction false} ItemsAgree(ts: seq<Pratt.Token>, closer: Pratt.Token, d: Draft)
    requires d.rest == FullAll(ts) && Closes(closer) && Clean(Pratt.ParseItems(ts, closer))
    ensures var r := Pratt.ParseItems(ts, closer);
            Items(d, Exprs, Full(closer)) == ItemsDone(d, r.v, closer, r.rest)
    decreases |ts|, 5
  {
    hide *;
    ItemsBegin(ts, closer);
    ItemsIs(d, Full(closer));
    AtIs(d, Full(closer));
    PrattStarts(ts, closer);
    FullStep(ts);
    var r := Pratt.ParseItems(ts, closer);
    CleanMeans(r);
    ItemsDoneIs(d, r.v, closer, r.rest);
    if ts != [] {
      FullCloser(ts[0], closer);
    }
    if Pratt.StartsWith(ts, closer) {
      TakeIs(d);
      NoneDotted();
      assert [] + [Leaf(Full(closer))] == [Leaf(Full(closer))];
    } else {
      CleanBefore([], Pratt.ItemsLoop([], ts, closer));
      ItemsLoopAgrees([], ts, closer, d);
      assert r.v[0..] == r.v;
    }
  }

  lemma NoneDotted()
    ensures Dotted([]) == []
  {
  }

  lemma DottedStep(t: Pratt.Tree, ts: seq<Pratt.Tree>)
    ensures Dotted([t]) == [Cst(t)]
    ensures ts != [] ==> Dotted([t] + ts) == [Cst(t)] + ([Leaf(Token.Comma)] + Dotted(ts))
  {
    assert ([t] + ts)[1..] == ts && [t][1..] == [];
    hide Cst;
  }

  /** `done` was parsed before; the list is `done` and what follows. */
  lemma {:induction false} ItemsLoopAgrees(done: seq<Pratt.Tree>, ts: seq<Pratt.Token>, closer: Pratt.Token, d: Draft)
    requires d.rest == FullAll(ts) && Closes(closer) && Clean(Pratt.ItemsLoop(done, ts, closer))
    ensures var r := Pratt.ItemsLoop(done, ts, closer);
            && |done| < |r.v| && r.v[..|done|] == done
            && ItemsLoop(d, Exprs, Full(closer)) == ItemsDone(d, r.v[|done|..], closer, r.rest)
    decreases |ts|, 4
  {
    hide *;
    ItemsUnfolds(done, ts, closer);
    ExprsLoopIs(d, Full(closer));
    var whole, one := Pratt.ItemsLoop(done, ts, closer), Pratt.ParseExpr(ts, 0);
    CleanMeans(whole);
    var more := done + [one.v];
    PrattStarts(one.rest, Pratt.Comma);
    if Pratt.StartsWith(one.rest, Pratt.Comma) {
      CleanBefore(one.errors, Pratt.ItemsLoop(more, one.rest[1..], closer));
    } else {
      CleanExpect(more, closer, one.rest, one.errors);
    }
    CleanIs(one);
    ExprAgrees(ts, 0, d);
    DoneIs(d, Cst(one.v), one.rest);
    var e := Expr(d, 0).d;
    FullStep(one.rest);
    AtIs(e, Token.Comma);
    FullOperator(one.rest[0]);
    if Pratt.StartsWith(one.rest, Pratt.Comma) {
      TakeIs(e);
      ItemsLoopAgrees(more, one.rest[1..], closer, Take(e));
      ItemAndMore(d, whole.v, done, one.v, Take(e), closer, whole.rest);
    } else {
      PrattStarts(one.rest, closer);
      LastItem(d, one.v, closer, e, one.rest);
      assert more[|done|..] == [one.v] && more[..|done|] == done;
    }
  }

  lemma ItemAndMore(d: Draft, all: seq<Pratt.Tree>, done: seq<Pratt.Tree>, t: Pratt.Tree, e: Draft, closer: Pratt.Token,
                    rest: seq<Pratt.Token>)
    requires |done| + 1 < |all| && all[..|done| + 1] == done + [t]
    requires e.kids == d.kids + [Cst(t)] + [Leaf(Token.Comma)] && e.errors == d.errors
    ensures all[..|done|] == done && ItemsDone(e, all[|done| + 1..], closer, rest) ==
              ItemsDone(d, all[|done|..], closer, rest)
  {
    hide *;
    var tail := all[|done| + 1..];
    ItemsDoneIs(e, tail, closer, rest);
    ItemsDoneIs(d, all[|done|..], closer, rest);
    ListSplit(all, done, t);
    DottedStep(t, tail);
    Reassociate(d.kids, Cst(t), Dotted(tail), Leaf(Full(closer)));
  }

  lemma LastItem(d: Draft, t: Pratt.Tree, closer: Pratt.Token, e: Draft, rest: seq<Pratt.Token>)
    requires e == Draft(d.kids + [Cst(t)], FullAll(rest), d.errors) && rest != [] && rest[0] == closer && Closes(closer)
    ensures !At(e, Token.Comma) && Ok(Need(e, Full(closer))) == ItemsDone(d, [t], closer, rest[1..])
  {
    hide *;
    FullStep(rest);
    AtIs(e, Token.Comma);
    AtIs(e, Full(closer));
    FullOperator(closer);
    FullCloser(closer, closer);
    NeedHere(e, Full(closer));
    TakeIs(e);
    ItemsDoneIs(d, [t], closer, rest[1..]);
    DottedStep(t, []);
    assert d.kids + [Cst(t)] + [Leaf(Full(closer))] == d.kids + ([Cst(t)] + [Leaf(Full(closer))]);
  }

  lemma ListSplit(all: seq<Pratt.Tree>, done: seq<Pratt.Tree>, t: Pratt.Tree)
    requires |done| + 1 < |all| && all[..|done| + 1] == done + [t]
    ensures all[..|done|] == done && all[|done|..] == [t] + all[|done| + 1..] && all[|done| + 1..] != []
  {
    assert all[..|done|] == all[..|done| + 1][..|done|];
    assert all[|done|] == all[..|done| + 1][|done|];
  }

  lemma Reassociate(a: seq<Tree>, one: Tree, tail: seq<Tree>, closer: Tree)
    ensures (a + [one] + [Leaf(Token.Comma)]) + (tail + [closer]) ==
              a + (([one] + ([Leaf(Token.Comma)] + tail)) + [closer])
  {
  }

  // ----- primaries and postfix operators -----

  lemma PrimaryIs(d: Draft)
    requires d.rest != []
    ensures var t := d.rest[0];
            && (IsLiteral(t) || t.Ident? ==> Primary(d) == Ok(Take(d)))
            && (t.LParen? && !LooksLikeArrowFn(d.rest[1..]) ==>
                  Primary(d) == Whole(Kind.Paren, d, Parenthesised(Take(Fresh(d)))))
            && (t.LBracket? ==> Primary(d) == Whole(Kind.Vector, d, Items(Take(Fresh(d)), Exprs, Token.RBracket)))
  {
    hide Take, Whole, Items, Parenthesised, Brace, KeywordExpr, LooksLikeArrowFn;
  }

  lemma ParenthesisedIs(d: Draft)
    ensures Parenthesised(d) == var e := Expr(d, 0); if e.Err? then e else Ok(Need(e.d, Token.RParen))
  {
    hide Expr, Need;
  }

  lemma PrattPrimaryIs(ts: seq<Pratt.Token>)
    ensures Pratt.ParsePrimary(ts) ==
              if ts != [] && Pratt.IsAtom(ts[0]) then Pratt.Parsed(Pratt.Atom(ts[0]), ts[1..], [])
              else if Pratt.StartsWith(ts, Pratt.LParen) then
                if Pratt.LooksLikeArrowFn(ts[1..]) then Pratt.Failed(Pratt.ArrowFunction, ts[1..], [])
                else
                  var r := Pratt.ParseExpr(ts[1..], 0);
                  if r.Failed? then r
                  else Pratt.Expect(Pratt.Paren(r.v), Pratt.RParen, r.rest, r.errors)
              else if Pratt.StartsWith(ts, Pratt.LBracket) then
                var r := Pratt.ParseItems(ts[1..], Pratt.RBracket);
                if r.Failed? then Pratt.Failed(r.why, r.rest, r.errors)
                else Pratt.Parsed(Pratt.Vector(r.v), r.rest, r.errors)
              else Pratt.Failed(Pratt.Unexpected, ts, [])
  {
    hide Pratt.ParseExpr, Pratt.ParseItems, Pratt.Expect, Pratt.LooksLikeArrowFn;
  }

  lemma {:induction false} PrimaryAgrees(ts: seq<Pratt.Token>, d: Draft)
    requires d.rest == FullAll(ts) && Clean(Pratt.ParsePrimary(ts))
    ensures var r := Pratt.ParsePrimary(ts);
            Primary(d) == Done(d, Cst(r.v), r.rest)
    decreases |ts|, 1
  {
    hide *;
    CleanMeans(Pratt.ParsePrimary(ts));
    PrattPrimaryIs(ts);
    FullStep(ts);
    PrattStarts(ts, Pratt.LParen);
    PrattStarts(ts, Pratt.LBracket);
    PrimaryIs(d);
    FullOperator(ts[0]);
    if Pratt.IsAtom(ts[0]) {
      TakeIs(d);
      DoneIs(d, Cst(Pratt.Atom(ts[0])), ts[1..]);
      CstAtom(ts[0]);
    } else if ts[0] == Pratt.LParen {
      ArrowsAgree(ts[1..]);
      ParenAgrees(ts, d);
    } else {
      VectorAgrees(ts, d);
    }
  }

  lemma {:induction false} VectorAgrees(ts: seq<Pratt.Token>, d: Draft)
    requires d.rest == FullAll(ts) && ts != [] && ts[0] == Pratt.LBracket
    requires var items := Pratt.ParseItems(ts[1..], Pratt.RBracket); items.Parsed? && items.errors == []
    ensures var items := Pratt.ParseItems(ts[1..], Pratt.RBracket);
            && Follows(Fresh(d), Items(Take(Fresh(d)), Exprs, Token.RBracket))
            && Whole(Kind.Vector, d, Items(Take(Fresh(d)), Exprs, Token.RBracket)) ==
                 Done(d, Cst(Pratt.Vector(items.v)), items.rest)
    decreases |ts|, 0
  {
    hide *;
    FullStep(ts);
    FullOperator(ts[0]);
    FreshIs(d);
    TakeIs(Fresh(d));
    var s, items := Take(Fresh(d)), Pratt.ParseItems(ts[1..], Pratt.RBracket);
    CleanIs(items);
    RightClosers();
    ItemsAgree(ts[1..], Pratt.RBracket, s);
    ItemsDoneIs(s, items.v, Pratt.RBracket, items.rest);
    TakenItems(d, Token.RBracket);
    WholeIs(Kind.Vector, d, Items(s, Exprs, Token.RBracket));
    CstVector(items.v);
    DoneIs(d, Cst(Pratt.Vector(items.v)), items.rest);
    Glue([], [Leaf(Token.LBracket)], Dotted(items.v), [Leaf(Token.RBracket)]);
  }

  lemma RightClosers()
    ensures Closes(Pratt.RBracket) && Closes(Pratt.RParen)
    ensures Full(Pratt.RBracket) == Token.RBracket && Full(Pratt.RParen) == Token.RParen
  {
  }

  lemma CstAtom(t: Pratt.Token)
    ensures Cst(Pratt.Atom(t)) == Leaf(Full(t))
  {
  }

  lemma CstVector(items: seq<Pratt.Tree>)
    ensures Cst(Pratt.Vector(items)) ==
              Node(Kind.Vector, [Leaf(Token.LBracket)] + Dotted(items) + [Leaf(Token.RBracket)])
  {
  }

  lemma CstParen(e: Pratt.Tree)
    ensures Cst(Pratt.Paren(e)) == Node(Kind.Paren, [Leaf(Token.LParen), Cst(e), Leaf(Token.RParen)])
  {
  }

  lemma {:induction false} ParenAgrees(ts: seq<Pratt.Token>, d: Draft)
    requires d.rest == FullAll(ts) && ts != [] && ts[0] == Pratt.LParen && !Pratt.LooksLikeArrowFn(ts[1..])
    requires var e := Pratt.ParseExpr(ts[1..], 0);
             e.Parsed? && Clean(Pratt.Expect(Pratt.Paren(e.v), Pratt.RParen, e.rest, e.errors))
    ensures var e := Pratt.ParseExpr(ts[1..], 0);
            var r := Pratt.Expect(Pratt.Paren(e.v), Pratt.RParen, e.rest, e.errors);
            && Follows(Fresh(d), Parenthesised(Take(Fresh(d))))
            && Whole(Kind.Paren, d, Parenthesised(Take(Fresh(d)))) == Done(d, Cst(r.v), r.rest)
    decreases |ts|, 0
  {
    hide *;
    FullStep(ts);
    FullOperator(ts[0]);
    FreshIs(d);
    TakeIs(Fresh(d));
    var s, e := Take(Fresh(d)), Pratt.ParseExpr(ts[1..], 0);
    CleanExpect(Pratt.Paren(e.v), Pratt.RParen, e.rest, e.errors);
    CleanIs(e);
    ExprAgrees(ts[1..], 0, s);
    DoneIs(s, Cst(e.v), e.rest);
    ParenthesisedIs(s);
    var inner := Expr(s, 0).d;
    FullStep(e.rest);
    PrattStarts(e.rest, Pratt.RParen);
    RightClosers();
    AtIs(inner, Token.RParen);
    NeedHere(inner, Token.RParen);
    TakeIs(inner);
    TakenFollows(d);
    WholeIs(Kind.Paren, d, Parenthesised(s));
    CstParen(e.v);
    DoneIs(d, Cst(Pratt.Paren(e.v)), e.rest[1..]);
    Glue3(Leaf(Token.LParen), Cst(e.v), Leaf(Token.RParen));
  }

  lemma TakenExpr(d: Draft, min: nat)
    requires d.rest != []
    ensures Follows(Fresh(d), Expr(Take(Fresh(d)), min))
  {
    hide Expr, Text;
  }

  lemma TakenItems(d: Draft, closer: Token)
    requires d.rest != []
    ensures Follows(Fresh(d), Items(Take(Fresh(d)), Exprs, closer))
  {
    hide Items, Text;
  }

  lemma TakenFollows(d: Draft)
    requires d.rest != []
    ensures Follows(Fresh(d), Parenthesised(Take(Fresh(d))))
  {
    hide Parenthesised, Text;
  }

  lemma PostfixCases(d: Draft)
    ensures PostfixLoop(d) ==
              if At(d, Token.LParen) then
                var call := Items(Take(d), Exprs, Token.RParen);
                if call.Err? then call else PostfixLoop(Wrap(Kind.Call, call.d))
              else if At(d, Token.LBracket) then
                var index := Expr(Take(d), 0);
                if index.Err? then index else PostfixLoop(Wrap(Kind.Index, Need(index.d, Token.RBracket)))
              else if At(d, Token.Dot) then
                var dot := Take(d);
                if !AtFieldName(dot) then Fail(NoFieldName, dot)
                else if At(Take(dot), Token.LParen) then
                  var call := Items(Take(Take(dot)), Exprs, Token.RParen);
                  if call.Err? then call else PostfixLoop(Wrap(Kind.Method, call.d))
                else PostfixLoop(Wrap(Kind.Field, Take(dot)))
              else Ok(d)
  {
    PostfixLoopIs(d);
    hide Items, Expr, Need, Take, Wrap, PostfixLoop, Text;
  }

  /** `d` holds what the operators apply to. */
  lemma {:induction false} PostfixAgrees(lhs: Pratt.Tree, ts: seq<Pratt.Token>, d: Draft)
    requires d == Draft([Cst(lhs)], FullAll(ts), d.errors) && Clean(Pratt.PostfixLoop(lhs, ts))
    ensures var r := Pratt.PostfixLoop(lhs, ts);
            PostfixLoop(d) == Ok(Draft([Cst(r.v)], FullAll(r.rest), d.errors))
    decreases |ts|, 1
  {
    hide *;
    PostfixUnfolds(lhs, ts);
    PostfixCases(d);
    FullStep(ts);
    AtIs(d, Token.LParen);
    AtIs(d, Token.LBracket);
    AtIs(d, Token.Dot);
    PrattStarts(ts, Pratt.LParen);
    PrattStarts(ts, Pratt.LBracket);
    PrattStarts(ts, Pratt.Dot);
    if ts != [] {
      FullOperator(ts[0]);
      if ts[0] == Pratt.LParen {
        CallAgrees(lhs, ts, d);
      } else if ts[0] == Pratt.LBracket {
        IndexAgrees(lhs, ts, d);
      } else if ts[0] == Pratt.Dot {
        DotAgrees(lhs, ts, d);
      }
    }
  }

  lemma {:induction false} CallAgrees(lhs: Pratt.Tree, ts: seq<Pratt.Token>, d: Draft)
    requires d == Draft([Cst(lhs)], FullAll(ts), d.errors) && Clean(Pratt.PostfixLoop(lhs, ts))
    requires ts != [] && ts[0] == Pratt.LParen
    ensures var r := Pratt.PostfixLoop(lhs, ts);
            PostfixLoop(d) == Ok(Draft([Cst(r.v)], FullAll(r.rest), d.errors))
    decreases |ts|, 0
  {
    hide *;
    PostfixUnfolds(lhs, ts);
    PostfixCases(d);
    FullStep(ts);
    FullOperator(ts[0]);
    AtIs(d, Token.LParen);
    PrattStarts(ts, Pratt.LParen);
    CleanMeans(Pratt.PostfixLoop(lhs, ts));
    var r := Pratt.ParseItems(ts[1..], Pratt.RParen);
    var t := Pratt.Call(lhs, r.v);
    CleanBefore(r.errors, Pratt.PostfixLoop(t, r.rest));
    CleanIs(r);
    TakeIs(d);
    RightClosers();
    ItemsAgree(ts[1..], Pratt.RParen, Take(d));
    ItemsDoneIs(Take(d), r.v, Pratt.RParen, r.rest);
    var call := Items(Take(d), Exprs, Token.RParen).d;
    WrapIs(Kind.Call, call);
    CstCall(lhs, r.v);
    Glue([Cst(lhs)], [Leaf(Token.LParen)], Dotted(r.v), [Leaf(Token.RParen)]);
    Glue2(Cst(lhs), Leaf(Token.LParen));
    PostfixAgrees(t, r.rest, Wrap(Kind.Call, call));
  }

  lemma CstCall(f: Pratt.Tree, items: seq<Pratt.Tree>)
    ensures Cst(Pratt.Call(f, items)) ==
              Node(Kind.Call, [Cst(f), Leaf(Token.LParen)] + Dotted(items) + [Leaf(Token.RParen)])
  {
  }

  /** An index that is closed. */
  lemma IndexStep(lhs: Pratt.Tree, ts: seq<Pratt.Token>)
    requires ts != [] && ts[0] == Pratt.LBracket && Clean(Pratt.PostfixLoop(lhs, ts))
    ensures var r := Pratt.ParseExpr(ts[1..], 0);
            && Clean(r) && Pratt.StartsWith(r.rest, Pratt.RBracket) && r.rest != []
            && Pratt.PostfixLoop(lhs, ts) == Pratt.PostfixLoop(Pratt.Index(lhs, r.v), r.rest[1..])
            && Clean(Pratt.PostfixLoop(Pratt.Index(lhs, r.v), r.rest[1..]))
  {
    hide *;
    PostfixUnfolds(lhs, ts);
    PrattStarts(ts, Pratt.LParen);
    PrattStarts(ts, Pratt.LBracket);
    CleanMeans(Pratt.PostfixLoop(lhs, ts));
    var r := Pratt.ParseExpr(ts[1..], 0);
    var e := Pratt.Expect(r.v, Pratt.RBracket, r.rest, r.errors);
    ExpectParsed(r.v, Pratt.RBracket, r.rest, r.errors);
    CleanBefore(e.errors, Pratt.PostfixLoop(Pratt.Index(lhs, e.v), e.rest));
    CleanIs(e);
    CleanExpect(r.v, Pratt.RBracket, r.rest, r.errors);
    CleanIs(r);
    PrattStarts(r.rest, Pratt.RBracket);
  }

  lemma {:induction false} IndexAgrees(lhs: Pratt.Tree, ts: seq<Pratt.Token>, d: Draft)
    requires d == Draft([Cst(lhs)], FullAll(ts), d.errors) && Clean(Pratt.PostfixLoop(lhs, ts))
    requires ts != [] && ts[0] == Pratt.LBracket
    ensures var r := Pratt.PostfixLoop(lhs, ts);
            PostfixLoop(d) == Ok(Draft([Cst(r.v)], FullAll(r.rest), d.errors))
    decreases |ts|, 0
  {
    hide *;
    IndexStep(lhs, ts);
    PostfixCases(d);
    FullStep(ts);
    FullOperator(ts[0]);
    AtIs(d, Token.LParen);
    AtIs(d, Token.LBracket);
    var r := Pratt.ParseExpr(ts[1..], 0);
    CleanMeans(r);
    TakeIs(d);
    ExprAgrees(ts[1..], 0, Take(d));
    DoneIs(Take(d), Cst(r.v), r.rest);
    var index := Expr(Take(d), 0).d;
    FullStep(r.rest);
    PrattStarts(r.rest, Pratt.RBracket);
    RightClosers();
    AtIs(index, Token.RBracket);
    NeedHere(index, Token.RBracket);
    TakeIs(index);
    WrapIs(Kind.Index, Take(index));
    CstIndex(lhs, r.v);
    Glue4(Cst(lhs), Leaf(Token.LBracket), Cst(r.v), Leaf(Token.RBracket));
    PostfixAgrees(Pratt.Index(lhs, r.v), r.rest[1..], Wrap(Kind.Index, Take(index)));
  }

  lemma ExpectParsed<T>(v: T, t: Pratt.Token, ts: seq<Pratt.Token>, errors: seq<Pratt.Problem>)
    ensures Pratt.Expect(v, t, ts, errors).Parsed? && Pratt.Expect(v, t, ts, errors).v == v
  {
  }

  lemma CstIndex(a: Pratt.Tree, e: Pratt.Tree)
    ensures Cst(Pratt.Index(a, e)) == Node(Kind.Index, [Cst(a), Leaf(Token.LBracket), Cst(e), Leaf(Token.RBracket)])
  {
  }

  lemma FieldNameIs(d: Draft)
    ensures AtFieldName(d) <==>
              d.rest != [] && (d.rest[0].Ident? || d.rest[0].Key? || d.rest[0] in {Op(Pratt.OrWord), Op(Pratt.AndWord)})
  {
  }

  /** A field or a method call, by what follows the name. */
  lemma DotStep(lhs: Pratt.Tree, ts: seq<Pratt.Token>)
    requires ts != [] && ts[0] == Pratt.Dot && Clean(Pratt.PostfixLoop(lhs, ts))
    ensures |ts| >= 2 && Pratt.IsName(ts[1])
    ensures Pratt.PostfixLoop(lhs, ts) ==
              if Pratt.StartsWith(ts[2..], Pratt.LParen) then
                var r := Pratt.ParseItems(ts[3..], Pratt.RParen);
                if r.Failed? then Pratt.Failed(r.why, r.rest, r.errors)
                else Pratt.Before(r.errors, Pratt.PostfixLoop(Pratt.Method(lhs, ts[1], r.v), r.rest))
              else Pratt.PostfixLoop(Pratt.Field(lhs, ts[1]), ts[2..])
    ensures Pratt.StartsWith(ts[2..], Pratt.LParen) ==>
              |ts| > 2 && ts[2] == Pratt.LParen && Pratt.ParseItems(ts[3..], Pratt.RParen).Parsed?
    ensures !Pratt.StartsWith(ts[2..], Pratt.LParen) ==> |ts| == 2 || ts[2] != Pratt.LParen
  {
    hide *;
    PostfixUnfolds(lhs, ts);
    PrattStarts(ts, Pratt.LParen);
    PrattStarts(ts, Pratt.LBracket);
    PrattStarts(ts, Pratt.Dot);
    CleanMeans(Pratt.PostfixLoop(lhs, ts));
    PrattStarts(ts[2..], Pratt.LParen);
  }

  lemma {:induction false} DotAgrees(lhs: Pratt.Tree, ts: seq<Pratt.Token>, d: Draft)
    requires d == Draft([Cst(lhs)], FullAll(ts), d.errors) && Clean(Pratt.PostfixLoop(lhs, ts))
    requires ts != [] && ts[0] == Pratt.Dot
    ensures var r := Pratt.PostfixLoop(lhs, ts);
            PostfixLoop(d) == Ok(Draft([Cst(r.v)], FullAll(r.rest), d.errors))
    decreases |ts|, 0
  {
    hide *;
    DotStep(lhs, ts);
    PostfixCases(d);
    FullStep(ts);
    FullOperator(ts[0]);
    AtIs(d, Token.LParen);
    AtIs(d, Token.LBracket);
    AtIs(d, Token.Dot);
    TakeIs(d);
    var dot := Take(d);
    FullStep(ts[1..]);
    FullOperator(ts[1]);
    FieldNameIs(dot);
    TakeIs(dot);
    var name := Take(dot);
    assert ts[1..][1..] == ts[2..];
    FullStep(ts[2..]);
    AtIs(name, Token.LParen);
    Glue3(Cst(lhs), Leaf(Token.Dot), Leaf(Full(ts[1])));
    if Pratt.StartsWith(ts[2..], Pratt.LParen) {
      FullOperator(ts[2]);
      MethodAgrees(lhs, ts, name);
    } else {
      if |ts| > 2 {
        FullOperator(ts[2]);
      }
      WrapIs(Kind.Field, name);
      CstField(lhs, ts[1]);
      PostfixAgrees(Pratt.Field(lhs, ts[1]), ts[2..], Wrap(Kind.Field, name));
    }
  }

  lemma CstField(a: Pratt.Tree, name: Pratt.Token)
    ensures Cst(Pratt.Field(a, name)) == Node(Kind.Field, [Cst(a), Leaf(Token.Dot), Leaf(Full(name))])
  {
  }

  lemma {:induction false} MethodAgrees(lhs: Pratt.Tree, ts: seq<Pratt.Token>, name: Draft)
    requires |ts| > 2 && ts[2] == Pratt.LParen
    requires name == Draft([Cst(lhs), Leaf(Token.Dot), Leaf(Full(ts[1]))], FullAll(ts[2..]), name.errors)
    requires var r := Pratt.ParseItems(ts[3..], Pratt.RParen);
             r.Parsed? && Clean(Pratt.Before(r.errors, Pratt.PostfixLoop(Pratt.Method(lhs, ts[1], r.v), r.rest)))
    ensures FullAll(ts[2..]) != []
    ensures var r := Pratt.ParseItems(ts[3..], Pratt.RParen);
            var all := Pratt.Before(r.errors, Pratt.PostfixLoop(Pratt.Method(lhs, ts[1], r.v), r.rest));
            var call := Items(Take(name), Exprs, Token.RParen);
            && call.Ok?
            && PostfixLoop(Wrap(Kind.Method, call.d)) == Ok(Draft([Cst(all.v)], FullAll(all.rest), name.errors))
    decreases |ts|, -1
  {
    hide *;
    var r := Pratt.ParseItems(ts[3..], Pratt.RParen);
    var t := Pratt.Method(lhs, ts[1], r.v);
    CleanBefore(r.errors, Pratt.PostfixLoop(t, r.rest));
    CleanIs(r);
    FullStep(ts[2..]);
    FullOperator(ts[2]);
    assert ts[2..][1..] == ts[3..];
    TakeIs(name);
    RightClosers();
    ItemsAgree(ts[3..], Pratt.RParen, Take(name));
    ItemsDoneIs(Take(name), r.v, Pratt.RParen, r.rest);
    var call := Items(Take(name), Exprs, Token.RParen).d;
    WrapIs(Kind.Method, call);
    CstMethod(lhs, ts[1], r.v);
    Glue([Cst(lhs), Leaf(Token.Dot), Leaf(Full(ts[1]))], [Leaf(Token.LParen)], Dotted(r.v), [Leaf(Token.RParen)]);
    Glue4(Cst(lhs), Leaf(Token.Dot), Leaf(Full(ts[1])), Leaf(Token.LParen));
    PostfixAgrees(t, r.rest, Wrap(Kind.Method, call));
  }

  lemma CstMethod(a: Pratt.Tree, name: Pratt.Token, items: seq<Pratt.Tree>)
    ensures Cst(Pratt.Method(a, name, items)) ==
              Node(Kind.Method,
                   [Cst(a), Leaf(Token.Dot), Leaf(Full(name)),
                    Leaf(Token.LParen)] + Dotted(items) + [Leaf(Token.RParen)])
  {
  }
}
