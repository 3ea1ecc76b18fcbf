/**
 What the constructs of the grammar are made of, and how their tokens begin.
 */
module GrammarParts {
  import Pratt
  import opened Grammar
  import opened GrammarUnfoldings
  import opened LanguageGrammar

  lemma TokensSplit(kids: seq<Tree>)
    ensures kids != [] ==> TokensOf(kids) == Tokens(kids[0]) + TokensOf(kids[1..])
    ensures kids == [] ==> TokensOf(kids) == []
  {
  }

  lemma NodeTokens(t: Tree)
    ensures t.Node? ==> Tokens(t) == TokensOf(t.kids)
    ensures t.Leaf? ==> Tokens(t) == [t.t]
  {
    hide TokensOf;
  }

  predicate IsOpening(t: Token) {
    || IsConstant(t) || t.Ident? || t.Str? || t in {LParen, LBracket, HashBrace, LBrace}
    || (t.Key? && StartsExpr(t.word))
  }

  /** How the tokens of an expression begin. */
  predicate Sprout(ts: seq<Token>) {
    && ts != [] && (IsOpening(ts[0]) || ts[0] in {Op(Pratt.Minus), Key(Not)})
    && (ts[0].Ident? && |ts| > 1 ==> ts[1].Op? || ts[1] in {LParen, LBracket, Dot})
    && (ts[0] == Key(Fn) ==> |ts| > 1 && ts[1] == LParen)
  }

  lemma SproutOn(ts: seq<Token>, more: seq<Token>)
    requires Sprout(ts) && more != [] && (more[0].Op? || more[0] in {LParen, LBracket, Dot})
    ensures Sprout(ts + more) && (ts + more)[0] == ts[0]
  {
    hide IsOpening;
    assert |ts| > 1 ==> (ts + more)[1] == ts[1];
  }

  /** A construct that begins with the token `t`, which is no name. */
  lemma SproutLeaf(kids: seq<Tree>, t: Token)
    requires Is(kids, 0, t) && (IsOpening(t) || t in {Op(Pratt.Minus), Key(Not)}) && !t.Ident?
    requires t == Key(Fn) ==> Is(kids, 1, LParen)
    ensures Sprout(TokensOf(kids)) && TokensOf(kids)[0] == t
  {
    hide IsOpening;
    TokensSplit(kids);
    TokensSplit(kids[1..]);
  }

  lemma {:induction false} OperandBegins(t: Tree, rest: seq<Token>)
    requires Operand(t, rest)
    ensures Sprout(Tokens(t)) && IsOpening(Tokens(t)[0]) && (|Tokens(t)| == 1 && Tokens(t)[0].Ident? ==> t.Leaf?)
  {
    NodeTokens(t);
    hide Expression, Listed, Tokens, TokensOf, From, TypeForm, ArmsForm, RescuesForm, ElseForm, BodyForm, Statement;
    hide Entries;
    if t.Node? {
      SproutLeaf(t.kids, t.kids[0].t);
    }
  }

  /** A construct whose first part begins like an expression. */
  lemma SproutNode(t: Tree, rest: seq<Token>)
    requires t.Node? && |t.kids| > 1 && Sprout(Tokens(t.kids[0])) && t.kids[1].Leaf?
    requires t.kids[1].t.Op? || t.kids[1].t in {LParen, LBracket, Dot}
    ensures Sprout(Tokens(t)) && Tokens(t)[0] == Tokens(t.kids[0])[0] && |Tokens(t)| > 1
  {
    hide Sprout, TokensOf;
    NodeTokens(t);
    NodeTokens(t.kids[1]);
    TokensSplit(t.kids);
    TokensSplit(t.kids[1..]);
    SproutOn(Tokens(t.kids[0]), TokensOf(t.kids[1..]));
    SproutSome(Tokens(t.kids[0]));
  }

  lemma SproutSome(ts: seq<Token>)
    requires Sprout(ts)
    ensures ts != []
  {
  }

  lemma {:induction false} AppliedBegins(t: Tree, rest: seq<Token>)
    requires Applied(t, rest)
    ensures Sprout(Tokens(t)) && IsOpening(Tokens(t)[0]) && (|Tokens(t)| == 1 && Tokens(t)[0].Ident? ==> t.Leaf?)
    decreases t
  {
    hide Expression, Listed, Tokens, TokensOf, From, Operand, Sprout, IsOpening;
    if t.Node? && t.kind in {Call, Index, Field, Method} {
      AppliedBegins(t.kids[0], From(t.kids, 1, rest));
      SproutNode(t, rest);
    } else {
      OperandBegins(t, rest);
    }
  }

  lemma PrefixedBegins(t: Tree, rest: seq<Token>)
    requires Prefixed(t, rest)
    ensures Sprout(Tokens(t)) && (|Tokens(t)| == 1 && Tokens(t)[0].Ident? ==> t.Leaf?)
  {
    hide Expression, Tokens, TokensOf, From, Applied, Sprout, IsOpening;
    if t.Node? && t.kind.Unary? {
      SproutLeaf(t.kids, t.kids[0].t);
      NodeTokens(t);
    } else {
      AppliedBegins(t, rest);
    }
  }

  lemma {:induction false} ChainBegins(t: Tree, min: nat, rest: seq<Token>)
    requires Chain(t, min, rest)
    ensures Sprout(Tokens(t)) && (|Tokens(t)| == 1 && Tokens(t)[0].Ident? ==> t.Leaf?)
    decreases t
  {
    hide Expression, Tokens, TokensOf, From, Prefixed, Sprout;
    if t.Node? && t.kind.Infix? {
      ChainBegins(t.kids[0], min, From(t.kids, 1, rest));
      SproutNode(t, rest);
    } else {
      PrefixedBegins(t, rest);
    }
  }

  lemma ExprBegins(t: Tree, min: nat, rest: seq<Token>)
    requires Expression(t, min, rest)
    ensures Sprout(Tokens(t)) && (|Tokens(t)| == 1 && Tokens(t)[0].Ident? ==> t.Leaf?)
  {
    hide Chain, Tokens, Sprout;
    ChainBegins(t, min, rest);
  }

  lemma TypeBegins(t: Tree, rest: seq<Token>)
    requires TypeForm(t, rest)
    ensures Tokens(t) != [] && (Tokens(t)[0].Ident? || Tokens(t)[0] == Key(Fn))
    ensures t.Node? && (Tokens(t)[0] == Key(Fn) <==> t.kind.FnType?)
  {
    hide Listed, Tokens, TokensOf, From, UnionForm, ParamsForm;
    NodeTokens(t);
    TokensSplit(t.kids);
    NodeTokens(t.kids[0]);
    if t.kind.TypeUnion? {
      TokensSplit(t.kids[0].kids);
      NodeTokens(t.kids[0].kids[0]);
    }
  }

  /** How a pattern begins. */
  predicate PatternSprout(ts: seq<Token>) {
    && ts != []
    && (ts[0] in {Underscore, Op(Pratt.Minus), LBracket, LBrace} || IsConstant(ts[0]) || ts[0].Ident? || ts[0].Str?)
  }

  lemma AtomBegins(t: Tree, rest: seq<Token>)
    requires AtomForm(t, rest)
    ensures PatternSprout(Tokens(t))
  {
    hide Listed, Tokens, TokensOf, From, UpperForm;
    NodeTokens(t);
    if t.Node? {
      TokensSplit(t.kids);
      NodeTokens(t.kids[0]);
    }
  }

  lemma PatternBegins(t: Tree, rest: seq<Token>)
    requires PatternForm(t, rest)
    ensures PatternSprout(Tokens(t))
  {
    hide AtomForm, Tokens, TokensOf, From, AlternativesForm;
    if t.Node? && t.kind.PatternOr? {
      AtomBegins(t.kids[0], From(t.kids, 1, rest));
      NodeTokens(t);
      TokensSplit(t.kids);
    } else {
      AtomBegins(t, rest);
    }
  }

  predicate Shuts(t: Token) {
    t in {RParen, RBracket, RBrace, Op(Pratt.Gt)}
  }

  /** What begins an item: no closing token and no separator. */
  predicate Inner(t: Token) {
    t !in {RParen, RBracket, RBrace, Op(Pratt.Gt), Comma, DotDot, Colon, Semicolon, Arrow, FatArrow, Bar}
  }

  lemma SproutInner(ts: seq<Token>)
    ensures Sprout(ts) ==> Inner(ts[0]) && ts[0] != Key(Else) && ts[0] != Key(As) && !AndOr(ts[0])
    ensures PatternSprout(ts) ==> Inner(ts[0])
  {
  }

  predicate AndOr(t: Token) {
    t in {Op(Pratt.AndWord), Op(Pratt.OrWord)}
  }

  lemma ItemBegins(ks: seq<Tree>, kind: ItemKind, rest: seq<Token>)
    requires ItemForm(ks, kind, rest)
    ensures ks != [] && TokensOf(ks) != [] && Inner(TokensOf(ks)[0])
  {
    hide Expression, TypeForm, PatternForm, Listed, Tokens, TokensOf, Sprout, PatternSprout;
    TokensSplit(ks);
    NodeTokens(ks[0]);
    if kind.Exprs? {
      ExprBegins(ks[0], 0, rest);
      SproutInner(Tokens(ks[0]));
      SproutSome(Tokens(ks[0]));
    } else if kind.Types? {
      TypeBegins(ks[0], rest);
    } else if kind in {Patterns, ElementPatterns} {
      PatternBegins(ks[0], rest);
      SproutInner(Tokens(ks[0]));
      PatternSome(Tokens(ks[0]));
    }
  }

  lemma PatternSome(ts: seq<Token>)
    requires PatternSprout(ts)
    ensures ts != []
  {
  }

  lemma ManyBegins(ks: seq<Tree>, kind: ItemKind, closer: Token, rest: seq<Token>)
    requires Many(ks, kind, closer, rest) && Shuts(closer)
    ensures TokensOf(ks) != [] && TokensOf(ks)[0] != closer
  {
    hide ItemForm, Tokens, TokensOf, From;
    if Remainder(ks, kind, closer) {
      TokensSplit(ks);
      NodeTokens(ks[0]);
    } else {
      var n :| 0 < n < |ks| && ItemForm(ks[..n], kind, From(ks, n, rest));
      ItemBegins(ks[..n], kind, From(ks, n, rest));
      TokensJoin(ks[..n], ks[n..]);
      assert ks[..n] + ks[n..] == ks;
    }
  }

  lemma IsMeans(kids: seq<Tree>, i: nat)
    ensures forall t :: Is(kids, i, t) <==> i < |kids| && kids[i] == Leaf(t)
  {
  }

  lemma InnerMeans(t: Token)
    ensures Inner(t) ==> t != DotDot && t != Comma
  {
  }

  lemma CloserMeans(t: Token)
    ensures Shuts(t) ==> t != DotDot && t != Comma && !t.Key?
  {
  }

  lemma ToTheEnd(ks: seq<Tree>, i: nat, rest: seq<Token>)
    requires i <= |ks|
    ensures ks[i..|ks|] == ks[i..] && From(ks, |ks|, rest) == rest
  {
    TokensSplit([]);
  }

  lemma StartsIs(ts: seq<Token>, t: Token)
    ensures Starts(ts, t) <==> ts != [] && ts[0] == t
  {
  }

  lemma FunctionTypeParts(kids: seq<Tree>, rest: seq<Token>) returns (n: nat)
    requires TypeForm(Node(FnType, kids), rest)
    ensures n >= 3 && n + 2 == |kids| && kids[0] == Leaf(Key(Fn)) && kids[1] == Leaf(LParen)
    ensures Listed(kids[2..n], Types, RParen, From(kids, n, rest)) && Shuts(RParen)
    ensures kids[n] == Leaf(Arrow) && TypeForm(kids[n + 1], From(kids, n + 2, rest))
  {
    hide Listed, NamedForm, UnionForm, Starts;
    n := |kids| - 2;
    ToTheEnd(kids, |kids|, rest);
  }

  lemma UnionBar(kids: seq<Tree>, rest: seq<Token>)
    requires TypeForm(Node(TypeUnion, kids), rest)
    ensures |kids| > 1 && kids[1] == Leaf(Bar)
  {
    hide NamedForm, From, Starts, Listed;
    assert UnionForm(kids[1..], rest);
  }

  lemma UnionPart(kids: seq<Tree>, i: nat, rest: seq<Token>)
    requires i <= |kids| && UnionForm(kids[i..], rest)
    ensures i == |kids| ==> !Starts(rest, Bar)
    ensures i < |kids| ==>
              && i + 1 < |kids| && kids[i] == Leaf(Bar) && NamedForm(kids[i + 1], From(kids, i + 2, rest))
              && UnionForm(kids[i + 2..], rest)
  {
    hide NamedForm, Starts, TokensOf;
    if i < |kids| {
      FromLater(kids, i, 2, rest);
      assert kids[i..][2..] == kids[i + 2..];
    }
  }

  /** The tokens behind a part of the tail. */
  lemma FromLater(kids: seq<Tree>, i: nat, j: nat, rest: seq<Token>)
    requires i <= |kids|
    ensures i + j <= |kids| ==> From(kids[i..], j, rest) == From(kids, i + j, rest)
  {
    if i + j <= |kids| {
      assert kids[i..][j..] == kids[i + j..];
    }
  }

  lemma AlternativePart(kids: seq<Tree>, i: nat, rest: seq<Token>)
    requires i <= |kids| && AlternativesForm(kids[i..], rest)
    ensures i == |kids| ==> !Starts(rest, Bar)
    ensures i < |kids| ==>
              && i + 1 < |kids| && kids[i] == Leaf(Bar) && AtomForm(kids[i + 1], From(kids, i + 2, rest))
              && AlternativesForm(kids[i + 2..], rest)
  {
    hide AtomForm, Starts, TokensOf;
    if i < |kids| {
      FromLater(kids, i, 2, rest);
      assert kids[i..][2..] == kids[i + 2..];
    }
  }

  /** `rest` goes on with an operator that is taken. */
  predicate GoesOn(rest: seq<Token>, min: nat) {
    rest != [] && rest[0].Op? && Pratt.Lbp(rest[0].sym) >= min
  }

  lemma ExpressionIs(t: Tree, min: nat, rest: seq<Token>)
    ensures Expression(t, min, rest) <==> Chain(t, min, rest) && !GoesOn(rest, min)
  {
    hide Chain;
  }

  lemma ChainIs(t: Tree, min: nat, rest: seq<Token>)
    requires Chain(t, min, rest)
    ensures !(t.Node? && t.kind.Infix?) ==> Prefixed(t, rest)
    ensures t.Node? && t.kind.Infix? ==>
              var kids := t.kids;
              && |kids| == 3 && kids[1].Leaf? && kids[1].t.Op? && Pratt.Lbp(kids[1].t.sym) >= min
              && Chain(kids[0], min, From(kids, 1, rest)) && Expression(kids[2], Pratt.Rbp(kids[1].t.sym), rest)
  {
    hide Prefixed, Expression;
  }

  lemma PrefixedIs(t: Tree, rest: seq<Token>)
    requires Prefixed(t, rest)
    ensures !(t.Node? && t.kind.Unary?) ==>
              Applied(t, rest) && !Starts(rest, LParen) && !Starts(rest, LBracket) && !Starts(rest, Dot)
    ensures t.Node? && t.kind.Unary? ==>
              var kids := t.kids;
              && |kids| == 2 && kids[0].Leaf? && kids[0].t in {Op(Pratt.Minus), Key(Not)}
              && Expression(kids[1], Pratt.PREFIX_POWER, rest)
  {
    hide Applied, Expression, Starts;
  }

  lemma OpeningMeans(ts: seq<Token>)
    requires Sprout(ts)
    ensures ts != []
    ensures IsOpening(ts[0]) ==> ts[0] !in {Op(Pratt.Minus), Key(Not)}
  {
  }

  lemma AppliedIs(t: Tree, rest: seq<Token>)
    requires Applied(t, rest)
    ensures if t.Node? && t.kind in {Call, Index, Field, Method} then
              && |t.kids| > 2 && Applied(t.kids[0], From(t.kids, 1, rest)) && t.kids[1].Leaf?
              && t.kids[1].t == if t.kind.Call? then LParen else if t.kind.Index? then LBracket else Dot
            else Operand(t, rest)
    ensures t.Node? && t.kind.Call? ==> Listed(t.kids[2..], Exprs, RParen, rest)
    ensures t.Node? && t.kind.Index? ==>
              |t.kids| == 4 && Expression(t.kids[2], 0, From(t.kids, 3, rest)) && t.kids[3] == Leaf(RBracket)
    ensures t.Node? && t.kind in {Field, Method} ==> IsField(t.kids, 2)
    ensures t.Node? && t.kind.Field? ==> |t.kids| == 3 && !Starts(rest, LParen)
    ensures t.Node? && t.kind.Method? ==>
              |t.kids| > 4 && t.kids[3] == Leaf(LParen) && Listed(t.kids[4..], Exprs, RParen, rest)
  {
    hide Operand, Expression, Listed, IsField, Starts;
  }

  lemma RightShuts()
    ensures Shuts(RParen) && Shuts(RBracket) && Shuts(RBrace) && Shuts(Op(Pratt.Gt))
  {
  }

  /** What the operand `t` is made of, by its kind. */
  lemma OperandIs(t: Tree, rest: seq<Token>)
    requires Operand(t, rest)
    ensures t.Leaf? ==> IsLiteral(t.t) || t.t.Ident? || (t.t.Str? && t.t.sound)
    ensures t.Node? ==> t.kids != [] && t.kids[0].Leaf?
    ensures t.Node? && t.kind in {Vector, Set} ==>
              && |t.kids| > 1 && t.kids[0].t == (if t.kind.Set? then HashBrace else LBracket)
              && Listed(t.kids[1..], Exprs, if t.kind.Set? then RBrace else RBracket, rest)
    ensures t.Node? && t.kind.Paren? ==> ParenForm(t.kids, rest) && t.kids[0].t == LParen
    ensures t.Node? && t.kind in {MapLit, Block} ==> t.kids[0].t == LBrace
    ensures t.Node? && t.kind.MapLit? ==> MapForm(t.kids, rest)
    ensures t.Node? && t.kind.Block? ==> BlockForm(t.kids, rest)
    ensures t.Node? && t.kind !in {Vector, Set, Paren, MapLit, Block} ==>
              t.kids[0].t.Key? && t.kids[0].t.word !in {True, False, NilWord}
  {
    hide Expression, Listed, From, TypeForm, ArmsForm, RescuesForm, ElseForm, BodyForm, Statement, Entries, Tokens;
  }

  lemma NoLiteral(t: Token)
    ensures t in {LParen, LBracket, HashBrace, LBrace} ==> !IsLiteral(t)
    ensures t.Key? && t.word !in {True, False, NilWord} ==> !IsLiteral(t)
  {
  }

  lemma ParenIs(kids: seq<Tree>, rest: seq<Token>)
    requires ParenForm(kids, rest)
    ensures |kids| == 3 && kids[0] == Leaf(LParen) && kids[2] == Leaf(RParen)
    ensures Expression(kids[1], 0, From(kids, 2, rest)) && From(kids, 2, rest) == [RParen] + rest
    ensures !(kids[1].Leaf? && kids[1].t.Ident? && Starts(rest, FatArrow))
  {
    hide Expression, Starts;
    TokensSplit(kids[2..]);
    TokensSplit([]);
    NodeTokens(kids[2]);
    hide TokensOf, Tokens;
    assert [RParen] + [] == [RParen] && kids[2..][1..] == [];
  }

  /** What such an operand is made of, by its keyword. */
  lemma KeywordIs(t: Tree, rest: seq<Token>)
    requires Operand(t, rest) && t.Node? && t.kids != [] && t.kids[0].Leaf? && t.kids[0].t.Key?
    ensures match t.kind
            case Marked => MarkedForm(t.kids, rest)
            case Jump => JumpForm(t.kids, rest)
            case LambdaExpr => IsWord(t.kids, 0, Fn) && FunctionForm(t.kids[1..], rest)
            case IfExpr => IsWord(t.kids, 0, If) && IfForm(t.kids, rest)
            case MatchExpr => IsWord(t.kids, 0, Match) && MatchForm(t.kids, rest)
            case WhileExpr => IsWord(t.kids, 0, While) && WhileForm(t.kids, rest)
            case ForExpr => IsWord(t.kids, 0, For) && ForForm(t.kids, rest)
            case TryExpr => IsWord(t.kids, 0, Try) && TryForm(t.kids, rest)
            case SpawnExpr => IsWord(t.kids, 0, Spawn) && SpawnForm(t.kids, rest)
            case _ => false
  {
    hide Expression, Listed, From, TypeForm, ArmsForm, RescuesForm, ElseForm, BodyForm, Statement, Entries, Tokens;
  }

  lemma WordIs(kids: seq<Tree>, word: Keyword)
    ensures IsWord(kids, 0, word) <==> kids != [] && kids[0] == Leaf(Key(word))
  {
  }

  lemma JumpIs(kids: seq<Tree>, rest: seq<Token>)
    requires JumpForm(kids, rest)
    ensures (|kids| == 1 || |kids| == 2) && kids[0].Leaf? && kids[0].t.Key?
    ensures kids[0].t.word in {Return, Break, Yield, Retry, Continue}
    ensures |kids| == 2 ==> kids[0].t.word in {Return, Break} && Expression(kids[1], 0, rest)
    ensures |kids| == 1 && kids[0].t.word in {Return, Break} ==>
              rest == [] || rest[0] in {Semicolon, RBrace, Comma}
  {
    hide Expression;
  }

  lemma JumpWords(word: Keyword)
    ensures word in {Return, Break, Yield, Retry, Continue} ==>
              word !in {Raise, Reply, Await, Shared, Transact, Loop} && !word.Fn?
  {
  }

  lemma InnerNoEnd(t: Token)
    ensures Inner(t) ==> t !in {Semicolon, RBrace, Comma}
  {
  }

  /** The parts of a function, of which `n` is the first behind the parameters. */
  lemma FunctionIs(kids: seq<Tree>, i: nat, rest: seq<Token>) returns (n: nat)
    requires i <= |kids| && FunctionForm(kids[i..], rest)
    ensures i + 1 < n < |kids| && kids[i] == Leaf(LParen)
    ensures Listed(kids[i + 1..n], Params, RParen, From(kids, n, rest))
    ensures n + 1 == |kids| || n + 3 == |kids|
    ensures Expression(kids[|kids| - 1], 0, rest)
    ensures n + 3 == |kids| ==> kids[n] == Leaf(Arrow) && TypeForm(kids[n + 1], From(kids, n + 2, rest))
  {
    hide Expression, Listed, TypeForm, TokensOf;
    var ks := kids[i..];
    var j := |ks| - 1;
    if Listed(ks[1..j], Params, RParen, From(ks, j, rest)) {
      n := i + j;
    } else {
      j := |ks| - 3;
      n := i + j;
      FromLater(kids, i, j + 2, rest);
    }
    FromLater(kids, i, j, rest);
    assert ks[1..j] == kids[i + 1..n];
    ListedSome(ks[1..j], Params, RParen, From(ks, j, rest));
  }

  lemma ListedSome(ks: seq<Tree>, kind: ItemKind, closer: Token, rest: seq<Token>)
    requires Listed(ks, kind, closer, rest)
    ensures ks != []
  {
    hide ItemForm, From;
  }

  lemma InnerNoArrow(t: Token)
    ensures Inner(t) ==> t != Arrow && t != RBrace && t != Comma && t != Colon
  {
  }

  lemma WhileIs(kids: seq<Tree>, rest: seq<Token>)
    requires WhileForm(kids, rest)
    ensures |kids| == 3 && Expression(kids[1], 0, From(kids, 2, rest)) && Expression(kids[2], 0, rest)
  {
    hide Expression;
  }

  lemma ForIs(kids: seq<Tree>, rest: seq<Token>)
    requires ForForm(kids, rest)
    ensures |kids| == 5 && IsName(kids, 1) && kids[2] == Leaf(Key(In))
    ensures Expression(kids[3], 0, From(kids, 4, rest)) && Expression(kids[4], 0, rest)
  {
    hide Expression, IsName;
  }

  lemma SpawnIs(kids: seq<Tree>, rest: seq<Token>)
    requires SpawnForm(kids, rest)
    ensures |kids| > 3 && IsName(kids, 1) && kids[2] == Leaf(LParen) && Listed(kids[3..], Exprs, RParen, rest)
  {
    hide Listed, IsName;
  }

  lemma IfIs(kids: seq<Tree>, rest: seq<Token>)
    requires IfForm(kids, rest)
    ensures (|kids| == 3 || |kids| == 5) && kids[0] == Leaf(Key(If))
    ensures Expression(kids[1], 0, From(kids, 2, rest)) && Expression(kids[2], 0, From(kids, 3, rest))
    ensures |kids| == 3 ==> !Starts(rest, Key(Else))
    ensures |kids| == 5 ==> kids[3] == Leaf(Key(Else)) && ElseForm(kids[4], rest)
  {
    hide Expression, ElseForm, Starts;
  }

  lemma ElseIs(t: Tree, rest: seq<Token>)
    requires ElseForm(t, rest)
    ensures if Starts(Tokens(t), Key(If)) then t.Node? && t.kind.IfExpr? && IfForm(t.kids, rest)
            else Expression(t, 0, rest)
  {
    hide Expression, IfForm, Starts, Tokens;
  }

  lemma MatchIs(kids: seq<Tree>, rest: seq<Token>) returns (n: nat)
    requires MatchForm(kids, rest)
    ensures n >= 3 && n + 1 == |kids| && Expression(kids[1], 0, From(kids, 2, rest)) && kids[2] == Leaf(LBrace)
    ensures ArmsForm(kids[3..n], From(kids, n, rest)) && kids[n] == Leaf(RBrace)
  {
    hide Expression, ArmsForm;
    n := |kids| - 1;
  }

  lemma ArmsPart(kids: seq<Tree>, i: nat, n: nat, rest: seq<Token>)
    requires i < n <= |kids| && ArmsForm(kids[i..n], From(kids, n, rest))
    ensures kids[i].Node? && kids[i].kind.ArmOf? && ArmForm(kids[i].kids, From(kids, i + 1, rest))
    ensures var comma := i + 1 < n && kids[i + 1] == Leaf(Comma);
            ArmsForm(if comma then kids[i + 2..n] else kids[i + 1..n], From(kids, n, rest))
  {
    hide ArmForm;
    var ks := kids[i..n];
    assert ks[1..] == kids[i + 1..n];
    assert i + 1 < n ==> ks[2..] == kids[i + 2..n];
    FromSome(kids, i, n, 1, rest);
  }

  /** The tokens behind a part of a slice. */
  lemma FromSome(kids: seq<Tree>, i: nat, n: nat, j: nat, rest: seq<Token>)
    requires i + j <= n <= |kids|
    ensures From(kids[i..n], j, From(kids, n, rest)) == From(kids, i + j, rest)
  {
    hide TokensOf;
    assert kids[i..n][j..] + kids[n..] == kids[i + j..];
    TokensJoin(kids[i..n][j..], kids[n..]);
    var a, b := TokensOf(kids[i..n][j..]), TokensOf(kids[n..]);
    assert (a + b) + rest == a + (b + rest);
  }

  lemma ArmBegins(t: Tree, rest: seq<Token>)
    requires t.Node? && ArmForm(t.kids, rest)
    ensures Tokens(t) != [] && Tokens(t)[0] != Comma && Tokens(t)[0] != RBrace
  {
    ArmIs(t.kids, rest);
    hide *;
    NodeTokens(t);
    TokensSplit(t.kids);
    PatternBegins(t.kids[0], From(t.kids, 1, rest));
    PatternSome(Tokens(t.kids[0]));
    SproutInner(Tokens(t.kids[0]));
    InnerNoArrow(Tokens(t.kids[0])[0]);
  }

  lemma ArmIs(kids: seq<Tree>, rest: seq<Token>)
    requires ArmForm(kids, rest)
    ensures |kids| == 3 || |kids| == 5
    ensures PatternForm(kids[0], From(kids, 1, rest))
    ensures |kids| == 5 ==> kids[1] == Leaf(Key(If)) && Expression(kids[2], 0, From(kids, 3, rest))
    ensures kids[|kids| - 2] == Leaf(FatArrow) && Expression(kids[|kids| - 1], 0, rest)
  {
    hide PatternForm, Expression;
  }

  lemma TryIs(kids: seq<Tree>, rest: seq<Token>)
    requires TryForm(kids, rest)
    ensures |kids| >= 2 && Expression(kids[1], 0, From(kids, 2, rest)) && RescuesForm(kids[2..], rest)
  {
    hide Expression, RescuesForm;
  }

  lemma RescuesPart(kids: seq<Tree>, i: nat, rest: seq<Token>)
    requires i <= |kids| && RescuesForm(kids[i..], rest)
    ensures i == |kids| ==> !Starts(rest, Key(Rescue)) && !Starts(rest, Key(Ensure))
    ensures i < |kids| && kids[i] == Leaf(Key(Ensure)) ==> i + 2 == |kids| && Expression(kids[i + 1], 0, rest)
    ensures i < |kids| && kids[i] != Leaf(Key(Ensure)) ==>
              && kids[i].Node? && kids[i].kind.RescueOf? && RescueForm(kids[i].kids, From(kids, i + 1, rest))
              && RescuesForm(kids[i + 1..], rest)
  {
    hide RescueForm, Expression, Starts;
    if i < |kids| {
      FromLater(kids, i, 1, rest);
      assert kids[i..][1..] == kids[i + 1..];
    }
  }

  lemma RescueIs(kids: seq<Tree>, rest: seq<Token>)
    requires RescueForm(kids, rest)
    ensures var n := |kids| - 1;
            && 1 <= n <= 4 && kids[0] == Leaf(Key(Rescue)) && Expression(kids[n], 0, rest)
            && (n == 1 ==> !StartsName(Tokens(kids[1])))
            && (n == 2 || n == 4 ==> IsName(kids, 1))
            && (n == 3 || n == 4 ==> kids[n - 2] == Leaf(Key(As)) && IsName(kids, n - 1))
  {
    hide Expression, Tokens, StartsName, IsName;
  }

  lemma StartsNameOn(ts: seq<Token>, more: seq<Token>)
    ensures ts != [] ==> (StartsName(ts + more) <==> StartsName(ts))
  {
  }

  lemma StartsAre(t: Token)
    ensures StartsStmt(t) <==> Declares(t)
  {
  }

  lemma DeclaredIs(ts: seq<Token>)
    ensures Declared(ts) <==> ts != [] && Declares(ts[0])
  {
  }

  lemma BracesAre(t: Tree, rest: seq<Token>)
    requires Operand(t, rest) && t.Node? && t.kind in {MapLit, Block}
    ensures t.kids != [] && t.kids[0] == Leaf(LBrace)
    ensures if t.kind.MapLit? then MapForm(t.kids, rest) else BlockForm(t.kids, rest)
  {
    hide Expression, Listed, From, TypeForm, ArmsForm, RescuesForm, ElseForm, BodyForm, Statement, Entries, Tokens;
  }

  lemma MapIs(kids: seq<Tree>, rest: seq<Token>)
    requires MapForm(kids, rest)
    ensures |kids| > 1 && kids[0] == Leaf(LBrace)
    ensures if kids[1] == Leaf(RBrace) && |kids| == 2 then true
            else !Declared(Tokens(kids[1])) && Entries(kids[1..], rest)
  {
    hide Entries, Tokens;
  }

  lemma EntriesPart(kids: seq<Tree>, i: nat, rest: seq<Token>)
    requires i <= |kids| && Entries(kids[i..], rest)
    ensures i + 3 < |kids| && kids[i + 1] == Leaf(Colon)
    ensures Expression(kids[i], 0, From(kids, i + 1, rest)) && Expression(kids[i + 2], 0, From(kids, i + 3, rest))
    ensures EntriesEnd(kids[i + 3..], rest)
  {
    hide Expression, EntriesEnd;
    FromLater(kids, i, 1, rest);
    FromLater(kids, i, 3, rest);
    assert kids[i..][3..] == kids[i + 3..];
  }

  lemma EndPart(kids: seq<Tree>, i: nat, rest: seq<Token>)
    requires i <= |kids| && EntriesEnd(kids[i..], rest)
    ensures i < |kids|
    ensures if kids[i] == Leaf(RBrace) then i + 1 == |kids|
            else
              && kids[i] == Leaf(Comma) && i + 1 < |kids|
              && (if kids[i + 1] == Leaf(RBrace) then i + 2 == |kids| else Entries(kids[i + 1..], rest))
  {
    hide Expression;
    if |kids| > i + 1 {
      assert kids[i..][1..] == kids[i + 1..];
      NoBraceEntry(kids[i + 1..], rest);
    }
  }

  /** No entry begins with a brace by itself. */
  lemma NoBraceEntry(kids: seq<Tree>, rest: seq<Token>)
    ensures Entries(kids, rest) ==> kids != [] && kids[0] != Leaf(RBrace)
  {
    hide Expression, EntriesEnd;
    if Entries(kids, rest) {
      NoBrace(kids[0], From(kids, 1, rest));
    }
  }

  lemma NoBrace(t: Tree, rest: seq<Token>)
    ensures Expression(t, 0, rest) ==> t != Leaf(RBrace)
  {
    hide *;
    if Expression(t, 0, rest) {
      ExprBegins(t, 0, rest);
      SproutInner(Tokens(t));
      SproutSome(Tokens(t));
      InnerNoArrow(Tokens(t)[0]);
      NodeTokens(t);
    }
  }

  lemma BlockIs(kids: seq<Tree>, rest: seq<Token>) returns (n: nat)
    requires BlockForm(kids, rest)
    ensures n >= 2 && n + 1 == |kids| && kids[0] == Leaf(LBrace) && kids[n] == Leaf(RBrace)
    ensures Declared(Tokens(kids[1])) ==> BodyForm(kids[1..n], From(kids, n, rest))
    ensures !Declared(Tokens(kids[1])) ==>
              || (n == 2 && Expression(kids[1], 0, From(kids, n, rest)))
              || (&& kids[1].Node? && kids[1].kind.Semi? && Statement(kids[1], From(kids, 2, rest))
                  && BodyForm(kids[2..n], From(kids, n, rest)))
  {
    hide Expression, BodyForm, Statement, Tokens, Declared;
    n := |kids| - 1;
  }

  lemma SemiIs(t: Tree, rest: seq<Token>)
    requires t.Node? && t.kind.Semi? && Statement(t, rest)
    ensures |t.kids| == 2 && t.kids[1] == Leaf(Semicolon) && Expression(t.kids[0], 0, [Semicolon] + rest)
    ensures Tokens(t) == Tokens(t.kids[0]) + [Semicolon] && !Declaration(Tokens(t) + rest)
  {
    hide Expression, TokensOf, Declaration, Tokens;
    var kids := t.kids;
    NodeTokens(t);
    TokensSplit(kids);
    TokensSplit(kids[1..]);
    TokensSplit([]);
    NodeTokens(kids[1]);
    assert kids[1..][1..] == [] && [Semicolon] + [] == [Semicolon] && kids[0..] == kids;
  }

  lemma NoBraceDeclares(t: Token)
    ensures Declares(t) ==> t != RBrace && t != Semicolon && t.Key?
  {
  }

  lemma BodyPart(kids: seq<Tree>, i: nat, n: nat, rest: seq<Token>)
    requires i < n <= |kids| && BodyForm(kids[i..n], From(kids, n, rest))
    ensures Statement(kids[i], From(kids, i + 1, rest))
    ensures IsBare(kids[i]) ==> i + 1 == n
    ensures !IsBare(kids[i]) ==>
              if Starts(From(kids, i + 1, rest), Semicolon) then
                i + 1 < n && kids[i + 1] == Leaf(Semicolon) && BodyForm(kids[i + 2..n], From(kids, n, rest))
              else BodyForm(kids[i + 1..n], From(kids, n, rest))
  {
    hide Statement, Starts, TokensOf, IsBare;
    var ks := kids[i..n];
    assert ks[1..] == kids[i + 1..n];
    assert i + 1 < n ==> ks[2..] == kids[i + 2..n];
    FromSome(kids, i, n, 1, rest);
  }

  lemma StmtBegins(t: Tree, rest: seq<Token>)
    requires Statement(t, rest)
    ensures t.Node? && Tokens(t) != [] && Tokens(t)[0] != RBrace && Tokens(t)[0] != Semicolon
  {
    StatementIs(t, rest);
    hide *;
    NodeTokens(t);
    TokensSplit(t.kids);
    if t.kind in {Semi, Bare} {
      var more := if t.kind.Semi? then [Semicolon] + rest else rest;
      ExprBegins(t.kids[0], 0, more);
      SproutSome(Tokens(t.kids[0]));
      SproutInner(Tokens(t.kids[0]));
      InnerNoEnd(Tokens(t.kids[0])[0]);
    } else {
      NodeTokens(t.kids[0]);
    }
  }

  /** What a statement is made of, by its kind. */
  lemma StatementIs(t: Tree, rest: seq<Token>)
    requires Statement(t, rest)
    ensures t.Node? && t.kids != []
    ensures t.kind !in {Semi, Bare} ==> t.kids[0].Leaf? && t.kids[0].t.Key?
    ensures match t.kind
            case LetStmt => t.kids[0].t.word in {Let, State, Shared} && LetForm(t.kids, rest)
            case FnStmt => t.kids[0].t.word.Fn? && IsName(t.kids, 1) && FunctionForm(t.kids[2..], rest)
            case OnStmt => t.kids[0].t.word.On? && IsName(t.kids, 1) && FunctionForm(t.kids[2..], rest)
            case TypeStmt => t.kids[0].t.word.Type? && TypeDefForm(t.kids, rest)
            case EnumStmt => t.kids[0].t.word.Enum? && EnumForm(t.kids, rest)
            case ActorStmt => t.kids[0].t.word.Actor? && ActorForm(t.kids, rest)
            case ImportStmt => t.kids[0].t.word in {Import, Lazy} && ImportForm(t.kids, rest)
            case Semi => Expression(t.kids[0], 0, [Semicolon] + rest)
            case Bare => Expression(t.kids[0], 0, rest)
            case _ => false
  {
    hide Expression, FunctionForm, Listed, ParamsForm, ListForm, PathForm, TypeForm, Declaration, Tokens, IsName;
    if t.kind.Semi? {
      SemiIs(t, rest);
    }
  }

  lemma WordsStart(word: Keyword)
    ensures word in {Let, State, Shared, Fn, On, Type, Enum, Actor, Import, Lazy} ==> StartsStmt(Key(word))
  {
  }

  lemma LetIs(kids: seq<Tree>, rest: seq<Token>) returns (n: nat)
    requires LetForm(kids, rest)
    ensures (n == 2 || n == 4) && n + 2 == |kids| && kids[0].Leaf? && IsName(kids, 1)
    ensures n == 4 ==> kids[2] == Leaf(Colon) && TypeForm(kids[3], From(kids, 4, rest))
    ensures kids[n] == Leaf(Op(Pratt.Set)) && Expression(kids[n + 1], 0, rest)
  {
    hide TypeForm, Expression, IsName;
    n := |kids| - 2;
  }

  lemma NameLeads(kids: seq<Tree>)
    ensures IsName(kids, 1) ==> |kids| > 1 && kids[1].Leaf? && kids[1].t.Ident?
  {
  }

  lemma TypeDefParts(kids: seq<Tree>, rest: seq<Token>) returns (n: nat)
    requires TypeDefForm(kids, rest)
    ensures 2 <= n < |kids| - 2 && IsName(kids, 1) && ParamsForm(kids[2..n], Names, From(kids, n, rest))
    ensures kids[n] == Leaf(Op(Pratt.Set)) && kids[n + 1] == Leaf(LBrace)
    ensures Listed(kids[n + 2..], FieldDecls, RBrace, rest)
  {
    hide ParamsForm, Listed, IsName;
    n :| 2 <= n < |kids| - 2 && ParamsForm(kids[2..n], Names, From(kids, n, rest))
         && Is(kids, n, Op(Pratt.Set)) && Is(kids, n + 1, LBrace) && Listed(kids[n + 2..], FieldDecls, RBrace, rest);
  }

  lemma EnumParts(kids: seq<Tree>, rest: seq<Token>) returns (n: nat)
    requires EnumForm(kids, rest)
    ensures 2 <= n < |kids| - 1 && IsName(kids, 1) && ParamsForm(kids[2..n], Names, From(kids, n, rest))
    ensures kids[n] == Leaf(LBrace) && Listed(kids[n + 1..], Variants, RBrace, rest)
  {
    hide ParamsForm, Listed, IsName;
    n :| 2 <= n < |kids| - 1 && ParamsForm(kids[2..n], Names, From(kids, n, rest))
         && Is(kids, n, LBrace) && Listed(kids[n + 1..], Variants, RBrace, rest);
  }

  lemma ActorParts(kids: seq<Tree>, rest: seq<Token>) returns (n: nat)
    requires ActorForm(kids, rest)
    ensures n >= 3 && n + 1 == |kids| && IsName(kids, 1) && kids[2] == Leaf(LBrace) && kids[n] == Leaf(RBrace)
    ensures ListForm(kids[3..n], false, From(kids, n, rest))
  {
    hide ListForm, IsName;
    n := |kids| - 1;
  }

  lemma ImportIs(kids: seq<Tree>, rest: seq<Token>)
    requires ImportForm(kids, rest)
    ensures kids != [] && kids[0].Leaf? && kids[0].t in {Key(Import), Key(Lazy)}
    ensures if kids[0].t == Key(Import) then PathForm(kids[1..], rest)
            else |kids| > 2 && kids[1].Leaf? && IsKeyword(kids[1].t) && PathForm(kids[2..], rest)
  {
    hide PathForm;
  }

  lemma PathSome(kids: seq<Tree>, rest: seq<Token>)
    requires PathForm(kids, rest)
    ensures kids != []
  {
  }

  lemma PathPart(kids: seq<Tree>, i: nat, rest: seq<Token>)
    requires i <= |kids| && PathForm(kids[i..], rest)
    ensures IsName(kids, i)
    ensures i + 1 == |kids| ==> !Starts(rest, Dot) && !Starts(rest, Key(As))
    ensures i + 1 < |kids| ==>
              || (kids[i + 1] == Leaf(Dot) && PathForm(kids[i + 2..], rest))
              || (i + 3 == |kids| && kids[i + 1] == Leaf(Key(As)) && IsName(kids, i + 2))
  {
    hide Starts;
    assert kids[i..][0] == kids[i];
    if i + 1 < |kids| && kids[i + 1] == Leaf(Dot) {
      assert kids[i..][2..] == kids[i + 2..];
    }
  }

  lemma NameInside(kids: seq<Tree>, i: nat)
    ensures IsName(kids, i) ==> i < |kids|
  {
  }

  lemma SecondIs(inner: seq<Token>, ts: seq<Token>)
    requires Sprout(inner) && inner <= ts
    ensures ts != [] && (ts[0] == Key(Fn) ==> |ts| > 1 && ts[1] == LParen)
  {
    hide IsOpening;
  }

  lemma NameSecond(ts: seq<Token>)
    requires ts != []
    ensures StartsName(ts[1..]) <==> |ts| > 1 && ts[1].Ident?
  {
  }

  lemma DeclarationIs(ts: seq<Token>)
    ensures Declaration(ts) <==> |ts| >= 3 && ts[0] == Key(Shared) && ts[1].Ident? && ts[2] in {Op(Pratt.Set), Colon}
  {
  }

  /** Of the words that begin declarations, two begin expressions. */
  lemma SproutStarts(ts: seq<Token>)
    requires Sprout(ts) && StartsStmt(ts[0])
    ensures ts[0] == Key(Shared) || ts[0] == Key(Fn)
  {
  }

  lemma LeadsNo(t: Tree, rest: seq<Token>)
    requires Statement(t, rest) && t.Node? && t.kind in {Semi, Bare}
    ensures !Declaration(Tokens(t) + rest)
    ensures t.kind.Bare? ==> |t.kids| == 1 && !Starts(rest, Semicolon)
  {
    hide Expression, Declaration, TokensOf, Starts;
    NodeTokens(t);
    assert t.kids[0..] == t.kids;
  }

  lemma Assoc(a: seq<Token>, b: seq<Token>, c: seq<Token>)
    ensures (a + b) + c == a + (b + c)
  {
  }

  lemma ListPart(kids: seq<Tree>, i: nat, n: nat, topLevel: bool, rest: seq<Token>)
    requires i <= n <= |kids| && ListForm(kids[i..n], topLevel, From(kids, n, rest))
    ensures i == n ==> From(kids, n, rest) == [] || (!topLevel && Starts(From(kids, n, rest), RBrace))
    ensures i < n ==> kids[i] == Leaf(Semicolon) || Statement(kids[i], From(kids, i + 1, rest))
    ensures i < n ==> ListForm(kids[i + 1..n], topLevel, From(kids, n, rest))
  {
    hide Statement, Starts, TokensOf;
    var ks := kids[i..n];
    if i < n {
      assert ks[1..] == kids[i + 1..n];
      FromSome(kids, i, n, 1, rest);
    }
  }
}
