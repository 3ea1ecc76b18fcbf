/**
 One unfolding of the parsing functions that are loops in the source, for the
 proofs that follow those loops.
 */
module GrammarUnfoldings {
  import Pratt
  import opened Grammar

  lemma ItemsLoopIs(d: Draft, kind: ItemKind, closer: Token)
    ensures ItemsLoop(d, kind, closer) ==
              if At(d, DotDot) && kind.FieldPatterns? then Ok(Need(Take(d), closer))
              else if At(d, DotDot) && kind.ElementPatterns? then
                var rest := Take(d);
                Ok(Need(if AtName(rest) then Take(rest) else rest, closer))
              else
                var one := OneItem(d, kind);
                if one.Err? then one
                else if At(one.d, Comma) then ItemsLoop(Take(one.d), kind, closer)
                else Ok(Need(one.d, closer))
  {
    hide OneItem, Take, Need, TokensOf;
  }

  lemma UnionLoopIs(d: Draft)
    ensures UnionLoop(d) ==
              if !At(d, Bar) then Ok(d)
              else
                var next := NamedType(Take(d));
                if next.Err? then next else UnionLoop(next.d)
  {
    hide NamedType, Take;
  }

  lemma PatternLoopIs(d: Draft)
    ensures PatternLoop(d) ==
              if !At(d, Bar) then Ok(d)
              else
                var next := AtomicPattern(Take(d));
                if next.Err? then next else PatternLoop(next.d)
  {
    hide AtomicPattern, Take;
  }

  lemma InfixLoopIs(d: Draft, min: nat)
    ensures InfixLoop(d, min) ==
              if d.rest == [] || !d.rest[0].Op? || Pratt.Lbp(d.rest[0].sym) < min then Ok(d)
              else
                var both := Expr(Take(d), Pratt.Rbp(d.rest[0].sym));
                if both.Err? then both else InfixLoop(Wrap(Infix, both.d), min)
  {
    hide Expr, Take, Wrap;
  }

  /** What follows a dot. */
  function Selected(d: Draft): Outcome
    requires At(d, Dot)
  {
    var dot := Take(d);
    if !AtFieldName(dot) then Fail(NoFieldName, dot)
    else if At(Take(dot), LParen) then
      var call := Items(Take(Take(dot)), Exprs, RParen);
      if call.Err? then call else Ok(Wrap(Method, call.d))
    else Ok(Wrap(Field, Take(dot)))
  }

  lemma PostfixLoopIs(d: Draft)
    ensures PostfixLoop(d) ==
              if At(d, LParen) then
                var call := Items(Take(d), Exprs, RParen);
                if call.Err? then call else PostfixLoop(Wrap(Call, call.d))
              else if At(d, LBracket) then
                var index := Expr(Take(d), 0);
                if index.Err? then index else PostfixLoop(Wrap(Index, Need(index.d, RBracket)))
              else if At(d, Dot) then
                var s := Selected(d);
                if s.Err? then s else PostfixLoop(s.d)
              else Ok(d)
  {
    hide Items, Expr, Need, Take, Wrap;
  }

  lemma IfBodyIs(d: Draft)
    ensures IfBody(d) ==
              var both := TwoExprs(d);
              if both.Err? then both
              else if !AtKey(both.d, Else) then both
              else
                var els := Take(both.d);
                if AtKey(els, If) then Whole(IfExpr, els, IfBody(Take(Fresh(els)))) else Expr(els, 0)
  {
    hide TwoExprs, Expr, Take, Whole;
  }

  lemma ArmsLoopIs(d: Draft)
    ensures ArmsLoop(d) ==
              if AtEnd(d) then Ok(d)
              else
                var arm := Arm(Fresh(d));
                if arm.Err? then arm
                else
                  var arms := Draft(d.kids + [Node(ArmOf, arm.d.kids)], arm.d.rest, arm.d.errors);
                  ArmsLoop(if At(arms, Comma) then Take(arms) else arms)
  {
    hide Arm, Take;
  }

  lemma RescueLoopIs(d: Draft)
    ensures RescueLoop(d) ==
              if !AtKey(d, Rescue) then Ok(d)
              else
                var one := RescueClause(Take(Fresh(d)));
                if one.Err? then one
                else RescueLoop(Draft(d.kids + [Node(RescueOf, one.d.kids)], one.d.rest, one.d.errors))
  {
    hide RescueClause, Take;
  }

  /** A block behind its first expression. */
  function FirstDecides(s: seq<Tree>, first: Draft): Draft {
    if At(first, Semicolon) then
      var semi := Take(first);
      BlockLoop(Draft(s + [Node(Semi, semi.kids)], semi.rest, semi.errors))
    else if At(first, RBrace) then Draft(s + first.kids, first.rest, first.errors)
    else Draft(s + first.kids, first.rest, first.errors + [NoSeparator])
  }

  /** What a brace begins, behind its first expression. */
  function BraceDecides(kids: seq<Tree>, s: seq<Tree>, first: Draft): Outcome {
    if At(first, Colon) then
      var m := MapBody(Take(Draft(s + first.kids, first.rest, first.errors)));
      if m.Err? then m else Ok(Draft(kids + [Node(MapLit, m.d.kids)], m.d.rest, m.d.errors))
    else
      var closed := Need(FirstDecides(s, first), RBrace);
      Ok(Draft(kids + [Node(Block, closed.kids)], closed.rest, closed.errors))
  }

  lemma BraceIs(d: Draft)
    requires At(d, LBrace)
    ensures var s := Take(Fresh(d));
            Brace(d) ==
              if At(s, RBrace) then
                var empty := Take(s);
                Ok(Draft(d.kids + [Node(MapLit, empty.kids)], empty.rest, empty.errors))
              else if s.rest != [] && StartsStmt(s.rest[0]) then
                var closed := Need(BlockLoop(s), RBrace);
                Ok(Draft(d.kids + [Node(Block, closed.kids)], closed.rest, closed.errors))
              else
                var first := Expr(Fresh(s), 0);
                if first.Err? then first else BraceDecides(d.kids, s.kids, first.d)
  {
    hide Take, Need, BlockLoop, Expr, MapBody, Text, StartsStmt;
  }

  lemma NoSuchExpr(d: Draft, word: Keyword)
    requires AtKey(d, word)
    ensures !StartsExpr(word) ==> KeywordExpr(d, word) == Fail(Unexpected, d)
  {
    hide Take, Text, Expr, FunctionBody;
  }

  lemma MapLoopIs(d: Draft)
    ensures MapLoop(d) ==
              if !At(d, Comma) then Ok(d)
              else if At(Take(d), RBrace) then Ok(Take(d))
              else
                var key := Expr(Take(d), 0);
                if key.Err? then key
                else
                  var entry := Expr(Need(key.d, Colon), 0);
                  if entry.Err? then entry else MapLoop(entry.d)
  {
    hide Expr, Need, Take;
  }

  lemma BlockLoopIs(d: Draft)
    ensures BlockLoop(d) ==
              if AtEnd(d) then d
              else
                var r := Stmt(d);
                if r.Err? then BlockLoop(Resynced(d, r, false))
                else if EndsBare(r.d.kids) then r.d
                else BlockLoop(if At(r.d, Semicolon) then Take(r.d) else r.d)
  {
    hide Stmt, Resynced, Take;
  }

  /** A path of which a segment was read. */
  function PathThen(d: Draft): Outcome {
    if At(d, Dot) then ImportPath(Take(d)) else if AtKey(d, As) then Name(Take(d)) else Ok(d)
  }

  lemma ImportPathIs(d: Draft)
    ensures ImportPath(d) == var name := Name(d); if name.Err? then name else PathThen(name.d)
  {
    hide Name, Take;
  }

  lemma StmtListIs(d: Draft, topLevel: bool)
    ensures StmtList(d, topLevel) ==
              var s := SkipSemicolons(d);
              if s.rest == [] || (!topLevel && At(s, RBrace)) then s
              else
                var r := Stmt(s);
                StmtList(if r.Ok? then r.d else Resynced(s, r, topLevel), topLevel)
  {
    hide SkipSemicolons, Stmt, Resynced;
  }

  predicate StartsExpr(word: Keyword) {
    word in {If, Match, Fn, Raise, Return, Reply, Yield, Await, Shared, Transact, Retry, Try,
             While, For, Loop, Break, Continue, Spawn}
  }

  lemma FunctionTypeIs(d: Draft)
    requires d.rest != []
    ensures FunctionType(d) ==
              var params := Items(Need(Take(d), LParen), Types, RParen);
              if params.Err? then params else TypeOf(Need(params.d, Arrow))
  {
    hide Items, TypeOf, Need, Take, Text;
  }

  /** One unfolding of the choice behind a dot. */
  lemma SelectedIs(d: Draft)
    requires At(d, Dot)
    ensures var dot := Take(d);
            Selected(d) ==
              if !AtFieldName(dot) then Fail(NoFieldName, dot)
              else if At(Take(dot), LParen) then
                var call := Items(Take(Take(dot)), Exprs, RParen);
                if call.Err? then call else Ok(Wrap(Method, call.d))
              else Ok(Wrap(Field, Take(dot)))
  {
    hide Take, Fail, Items, Wrap, Text;
  }

  lemma PrimaryUnfolds(d: Draft)
    requires d.rest != []
    ensures var t := d.rest[0];
            Primary(d) ==
              if IsLiteral(t) || t.Ident? then Ok(Take(d))
              else if t.Str? then if t.sound then Ok(Take(d)) else Fail(BadInterpolation, Take(d))
              else if t.LParen? then
                if LooksLikeArrowFn(d.rest[1..]) then Fail(ArrowFunction, Take(d))
                else Whole(Paren, d, Parenthesised(Take(Fresh(d))))
              else if t.LBracket? then Whole(Vector, d, Items(Take(Fresh(d)), Exprs, RBracket))
              else if t.HashBrace? then Whole(Set, d, Items(Take(Fresh(d)), Exprs, RBrace))
              else if t.LBrace? then Brace(d)
              else if t.Key? then KeywordExpr(d, t.word)
              else Fail(Unexpected, d)
  {
    hide Take, Whole, Items, Parenthesised, Brace, KeywordExpr, LooksLikeArrowFn, IsLiteral, Text;
  }

  lemma KeywordUnfolds(d: Draft, word: Keyword)
    requires AtKey(d, word)
    ensures var s := Take(Fresh(d));
            KeywordExpr(d, word) ==
              if word in {Raise, Reply, Await, Shared, Transact, Loop} then Whole(Marked, d, Expr(s, 0))
              else if word in {Return, Break} && !NoValueHere(s) then Whole(Jump, d, Expr(s, 0))
              else if word in {Return, Break, Yield, Retry, Continue} then Ok(Join(d, Wrap(Jump, s)))
              else if word.Fn? then Whole(LambdaExpr, d, FunctionBody(s))
              else ControlExpr(d, s, word)
    ensures word in {Return, Break, Yield, Retry, Continue} ==> Onward(Fresh(d), Wrap(Jump, Take(Fresh(d))))
  {
    hide Take, Whole, Expr, NoValueHere, Join, Wrap, FunctionBody, ControlExpr, Text;
  }

  lemma ControlUnfolds(d: Draft, word: Keyword)
    requires d.rest != []
    ensures var s := Take(Fresh(d));
            ControlExpr(d, s, word) ==
              if word.If? then Whole(IfExpr, d, IfBody(s))
              else if word.Match? then Whole(MatchExpr, d, MatchBody(s))
              else if word.While? then Whole(WhileExpr, d, TwoExprs(s))
              else if word.For? then Whole(ForExpr, d, ForBody(s))
              else if word.Try? then Whole(TryExpr, d, TryBody(s))
              else if word.Spawn? then Whole(SpawnExpr, d, SpawnBody(s))
              else Fail(Unexpected, d)
  {
    hide Take, Whole, IfBody, MatchBody, TwoExprs, ForBody, TryBody, SpawnBody, Text;
  }

  lemma AtKeyIs(d: Draft, k: Keyword)
    ensures AtKey(d, k) <==> At(d, Key(k))
  {
  }

  lemma FunctionBodyIs(d: Draft)
    ensures FunctionBody(d) ==
              var params := Items(Need(d, LParen), Params, RParen);
              if params.Err? then params
              else
                var result := MaybeResult(params.d);
                if result.Err? then result else Expr(result.d, 0)
  {
    hide Items, Need, MaybeResult, Expr, Text;
  }

  lemma MaybeResultIs(d: Draft)
    ensures MaybeResult(d) == if At(d, Arrow) then TypeOf(Take(d)) else Ok(d)
  {
    hide TypeOf, Take;
  }

  lemma TwoExprsIs(d: Draft)
    ensures TwoExprs(d) == var first := Expr(d, 0); if first.Err? then first else Expr(first.d, 0)
  {
    hide Expr;
  }

  lemma ForBodyIs(d: Draft)
    ensures ForBody(d) == var name := Name(d); if name.Err? then name else TwoExprs(NeedKey(name.d, In))
  {
    hide Name, TwoExprs, NeedKey;
  }

  lemma NeedKeyHere(d: Draft, k: Keyword)
    requires At(d, Key(k))
    ensures NeedKey(d, k) == Take(d)
  {
  }

  lemma SpawnBodyIs(d: Draft)
    ensures SpawnBody(d) == var name := Name(d); if name.Err? then name else Items(Need(name.d, LParen), Exprs, RParen)
  {
    hide Name, Items, Need;
  }

  lemma MatchBodyIs(d: Draft)
    ensures MatchBody(d) ==
              var scrutinee := Expr(d, 0);
              if scrutinee.Err? then scrutinee
              else
                var arms := ArmsLoop(Need(scrutinee.d, LBrace));
                if arms.Err? then arms else Ok(Need(arms.d, RBrace))
  {
    hide Expr, ArmsLoop, Need;
  }

  lemma ArmUnfolds(d: Draft)
    ensures Arm(d) ==
              var pattern := Pattern(d);
              if pattern.Err? then pattern
              else
                var guarded := if AtKey(pattern.d, If) then Expr(Take(pattern.d), 0) else Ok(pattern.d);
                if guarded.Err? then guarded else Expr(Need(guarded.d, FatArrow), 0)
  {
    hide Pattern, Expr, Take, Need;
  }

  lemma TryBodyIs(d: Draft)
    ensures TryBody(d) ==
              var body := Expr(d, 0);
              if body.Err? then body
              else
                var rescued := RescueLoop(body.d);
                if rescued.Err? then rescued
                else if AtKey(rescued.d, Ensure) then Expr(Take(rescued.d), 0) else rescued
  {
    hide Expr, RescueLoop, Take;
  }

  lemma RescueUnfolds(d: Draft)
    ensures RescueClause(d) ==
              var named := if AtName(d) then Take(d) else d;
              var bound := if AtKey(named, As) then Name(Take(named)) else Ok(named);
              if bound.Err? then bound else Expr(bound.d, 0)
  {
    hide Expr, Take, Name;
  }

  lemma BraceMap(kids: seq<Tree>, s: seq<Tree>, first: Draft)
    requires At(first, Colon)
    ensures var m := MapBody(Take(Draft(s + first.kids, first.rest, first.errors)));
            BraceDecides(kids, s, first) ==
              if m.Err? then m else Ok(Draft(kids + [Node(MapLit, m.d.kids)], m.d.rest, m.d.errors))
  {
    hide MapBody, Take;
  }

  lemma MapBodyIs(d: Draft)
    ensures MapBody(d) ==
              var first := Expr(d, 0);
              if first.Err? then first
              else
                var entries := MapLoop(first.d);
                if entries.Err? then entries else Ok(Need(entries.d, RBrace))
  {
    hide Expr, MapLoop, Need;
  }

  lemma BlockDecides(kids: seq<Tree>, s: seq<Tree>, first: Draft)
    requires At(first, RBrace)
    ensures var closed := Need(Draft(s + first.kids, first.rest, first.errors), RBrace);
            BraceDecides(kids, s, first) == Ok(Draft(kids + [Node(Block, closed.kids)], closed.rest, closed.errors))
  {
    hide Need, MapBody;
  }

  lemma SemiDecides(kids: seq<Tree>, s: seq<Tree>, first: Draft)
    requires At(first, Semicolon)
    ensures var semi := Take(first);
            var closed := Need(BlockLoop(Draft(s + [Node(Semi, semi.kids)], semi.rest, semi.errors)), RBrace);
            BraceDecides(kids, s, first) == Ok(Draft(kids + [Node(Block, closed.kids)], closed.rest, closed.errors))
  {
    hide Need, MapBody, Take, BlockLoop;
  }

  lemma StmtUnfolds(d: Draft)
    requires d.rest != []
    ensures if !StartsStmt(d.rest[0]) then Stmt(d) == ExprStmt(d)
            else
              && d.rest[0].Key?
              && var s, word := Take(Fresh(d)), d.rest[0].word;
                 Stmt(d) ==
                   if word.Let? || word.State? then Whole(LetStmt, d, Binding(s))
                   else if word.Shared? then
                     if DeclaresShared(d.rest) then Whole(LetStmt, d, Binding(s)) else ExprStmt(d)
                   else if word.Fn? then if AtName(s) then Whole(FnStmt, d, NamedFunction(s)) else ExprStmt(d)
                   else if word.On? then Whole(OnStmt, d, NamedFunction(s))
                   else if word.Type? then Whole(TypeStmt, d, TypeDef(s))
                   else if word.Enum? then Whole(EnumStmt, d, EnumDef(s))
                   else if word.Actor? then Whole(ActorStmt, d, ActorDef(s))
                   else Whole(ImportStmt, d, ImportPath(if word.Lazy? then Need(s, Key(Import)) else s))
  {
    hide ExprStmt, Take, Whole, Binding, NamedFunction, TypeDef, EnumDef, ActorDef, ImportPath, Need, Text;
    hide DeclaresShared, AtName;
  }

  lemma BindingIs(d: Draft)
    ensures Binding(d) ==
              var name := Name(d);
              if name.Err? then name
              else
                var typed := MaybeType(name.d);
                if typed.Err? then typed else Expr(Need(typed.d, Op(Pratt.Set)), 0)
  {
    hide Name, MaybeType, Expr, Need;
  }

  lemma MaybeTypeIs(d: Draft)
    ensures MaybeType(d) == if At(d, Colon) then TypeOf(Take(d)) else Ok(d)
  {
    hide TypeOf, Take;
  }

  lemma NamedFunctionIs(d: Draft)
    ensures NamedFunction(d) == var name := Name(d); if name.Err? then name else FunctionBody(name.d)
  {
    hide Name, FunctionBody;
  }

  lemma TypeDefIs(d: Draft)
    ensures TypeDef(d) ==
              var name := Name(d);
              if name.Err? then name
              else
                var params := TypeParams(name.d, Names);
                if params.Err? then params
                else Items(Need(Need(params.d, Op(Pratt.Set)), LBrace), FieldDecls, RBrace)
  {
    hide Name, TypeParams, Items, Need;
  }

  lemma EnumDefIs(d: Draft)
    ensures EnumDef(d) ==
              var name := Name(d);
              if name.Err? then name
              else
                var params := TypeParams(name.d, Names);
                if params.Err? then params else Items(Need(params.d, LBrace), Variants, RBrace)
  {
    hide Name, TypeParams, Items, Need;
  }

  lemma ActorDefIs(d: Draft)
    ensures ActorDef(d) ==
              var name := Name(d);
              if name.Err? then name else Ok(Need(StmtList(Need(name.d, LBrace), false), RBrace))
  {
    hide Name, StmtList, Need;
  }

  lemma PathThenIs(d: Draft)
    ensures PathThen(d) == if At(d, Dot) then ImportPath(Take(d)) else if At(d, Key(As)) then Name(Take(d)) else Ok(d)
  {
    hide ImportPath, Take, Name;
  }

  lemma ExprStmtIs(d: Draft)
    requires d.rest != []
    ensures var e := Expr(Fresh(d), 0);
            ExprStmt(d) ==
              if e.Err? then e
              else if At(e.d, Semicolon) then
                var semi := Take(e.d);
                Ok(Draft(d.kids + [Node(Semi, semi.kids)], semi.rest, semi.errors))
              else Ok(Draft(d.kids + [Node(Bare, e.d.kids)], e.d.rest, e.d.errors))
  {
    hide Expr, Take, Text;
  }
}
