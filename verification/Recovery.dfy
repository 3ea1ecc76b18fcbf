/**
 Errors are local: what follows a semicolon is parsed as on its own, unless an
 actor without its brace or an opened brace takes it in. Printed statements
 parse back, and survive any garbage before them.
 */
module Recovery {
  import Pratt
  import PrattLaws
  import opened Grammar
  import opened GrammarUnfoldings
  import opened GrammarLaws
  import opened GrammarLocality

  // ----- where locality fails -----

  /** Semicolons are skipped before a list as they are within it. */
  lemma ListSkips(d: Draft, topLevel: bool)
    requires At(d, Semicolon)
    ensures StmtList(d, topLevel) == StmtList(Take(d), topLevel)
  {
    hide StmtList, Take, Stmt, Resynced, Text;
    StmtListIs(d, topLevel);
    StmtListIs(Take(d), topLevel);
    assert SkipSemicolons(d) == SkipSemicolons(Take(d));
  }

  /** The tree of an actor without braces, whose body is `q`. */
  function Swallowed(name: Token, q: Draft): Tree {
    Node(ActorStmt, [Leaf(Key(Actor)), Leaf(name), Leaf(Semicolon)] + q.kids)
  }

  /**
   `actor A;` lacks its braces, which is recorded, and yet everything behind the
   semicolon becomes the body of the actor, up to a closing brace if there is one.
   */
  lemma ActorSwallows(name: Token, b: seq<Token>)
    requires name.Ident? && StmtList(Draft([], b, []), false).rest == []
    ensures var q := StmtList(Draft([], b, []), false);
            Parse([Key(Actor), name, Semicolon] + b) ==
              Draft([Swallowed(name, q)], [], [Missing(LBrace)] + q.errors + [Missing(RBrace)])
    ensures Parse(b).kids != [] ==>
              Parse([Key(Actor), name, Semicolon] + b) != Then(Parse([Key(Actor), name, Semicolon]), Parse(b))
  {
    ActorAlone(name, b);
    ActorAlone(name, []);
    NoStatements(false);
    hide StmtList;
    assert [Key(Actor), name, Semicolon] + [] == [Key(Actor), name, Semicolon];
  }

  lemma NoStatements(topLevel: bool)
    ensures StmtList(Draft([], [], []), topLevel) == Draft([], [], [])
  {
  }

  lemma ActorAlone(name: Token, b: seq<Token>)
    requires name.Ident? && StmtList(Draft([], b, []), false).rest == []
    ensures var q := StmtList(Draft([], b, []), false);
            Parse([Key(Actor), name, Semicolon] + b) ==
              Draft([Swallowed(name, q)], [], [Missing(LBrace)] + q.errors + [Missing(RBrace)])
  {
    var ts := [Key(Actor), name, Semicolon] + b;
    var d := Draft([], ts, []);
    hide StmtList, Text;
    var r := ActorBody(d, name, b);
    StmtListIs(d, true);
    StmtListIs(r, true);
  }

  /** The statement, whose body starts at the semicolon. */
  lemma ActorBody(d: Draft, name: Token, b: seq<Token>) returns (r: Draft)
    requires d == Draft([], [Key(Actor), name, Semicolon] + b, [])
    requires name.Ident? && StmtList(Draft([], b, []), false).rest == []
    ensures var q := StmtList(Draft([], b, []), false);
            r == Draft([Swallowed(name, q)], [], [Missing(LBrace)] + q.errors + [Missing(RBrace)]) && Stmt(d) == Ok(r)
  {
    hide StmtList, ActorDef, Text, Take, Need, Whole;
    var q := StmtList(Draft([], b, []), false);
    TakeIs(d);
    var s := Take(d);
    assert s == Draft([Leaf(Key(Actor))], [name, Semicolon] + b, []);
    BodyAlone(s, name, b);
    WholeIs(ActorStmt, d, ActorDef(s));
    r := Draft([Swallowed(name, q)], [], [Missing(LBrace)] + q.errors + [Missing(RBrace)]);
    assert Fresh(d) == d;
  }

  lemma BodyAlone(s: Draft, name: Token, b: seq<Token>)
    requires s == Draft([Leaf(Key(Actor))], [name, Semicolon] + b, [])
    requires name.Ident? && StmtList(Draft([], b, []), false).rest == []
    ensures var q := StmtList(Draft([], b, []), false);
            ActorDef(s) == Ok(Draft([Leaf(Key(Actor)), Leaf(name), Leaf(Semicolon)] + q.kids, [],
                                    [Missing(LBrace)] + q.errors + [Missing(RBrace)]))
  {
    hide StmtList, Text, Take, Need;
    TakeIs(s);
    var named := Take(s);
    assert named.rest == [Semicolon] + b;
    NeedMissing(named, LBrace);
    var open := Need(named, LBrace);
    ListSkips(open, false);
    TakeIs(open);
    var kids := [Leaf(Key(Actor)), Leaf(name), Leaf(Semicolon)];
    assert open.rest[1..] == b && Take(open) == Draft(kids, b, [Missing(LBrace)]);
    ListAnew(Draft(kids, [], [Missing(LBrace)]), b, false);
    NeedMissing(StmtList(open, false), RBrace);
  }

  lemma NeedMissing(d: Draft, t: Token)
    requires !AtKind(d, t)
    ensures Need(d, t) == d.(errors := d.errors + [Missing(t)])
  {
  }

  // ----- statements printed and parsed back -----

  datatype Sentence = Let(name: Token, value: Pratt.Tree) | Do(e: Pratt.Tree)

  predicate Printable(s: Sentence) {
    match s
    case Let(name, value) => name.Ident? && PrattLaws.Fits(value)
    case Do(e) => PrattLaws.Fits(e)
  }

  function Words(e: Pratt.Tree): seq<Token> {
    FullAll(PrattLaws.Yield(e))
  }

  function PrintOne(s: Sentence): seq<Token> {
    match s
    case Let(name, value) => [Key(Keyword.Let), name, Op(Pratt.Set)] + Words(value) + [Semicolon]
    case Do(e) => Words(e) + [Semicolon]
  }

  function Print(stmts: seq<Sentence>): seq<Token> {
    if stmts == [] then [] else PrintOne(stmts[0]) + Print(stmts[1..])
  }

  function TreesOne(s: Sentence): seq<Tree> {
    match s
    case Let(name, value) =>
      [Node(LetStmt, [Leaf(Key(Keyword.Let)), Leaf(name), Leaf(Op(Pratt.Set)), Cst(value)]), Leaf(Semicolon)]
    case Do(e) => [Node(Semi, [Cst(e), Leaf(Semicolon)])]
  }

  function Trees(stmts: seq<Sentence>): seq<Tree> {
    if stmts == [] then [] else TreesOne(stmts[0]) + Trees(stmts[1..])
  }

  /** The tokens of an expression open no braces. */
  lemma WordsShut(ts: seq<Pratt.Token>)
    ensures FullAll(ts + [Pratt.Semicolon]) == FullAll(ts) + [Semicolon] && Shut(FullAll(ts) + [Semicolon])
  {
  }

  lemma ExprThenSemicolon(e: Pratt.Tree, d: Draft, more: seq<Token>)
    requires PrattLaws.Fits(e) && d.rest == Words(e) + ([Semicolon] + more)
    ensures Expr(d, 0) == Ok(Draft(d.kids + [Cst(e)], [Semicolon] + more, d.errors))
  {
    hide *;
    var ts := PrattLaws.Yield(e) + [Pratt.Semicolon];
    var d0, c := Draft(d.kids, FullAll(ts), d.errors), Context([], more);
    PrattThenSemicolon(e);
    ExprAgrees(ts, 0, d0);
    DoneIs(d0, Cst(e), [Pratt.Semicolon]);
    WordsShut(PrattLaws.Yield(e));
    FullSemicolon();
    WordsIs(e);
    FitsIf(FullAll(ts), c);
    ExprSame(d0, 0, c);
    assert Words(e) + ([Semicolon] + more) == Words(e) + [Semicolon] + more;
    AmidHere(d0, d, more);
    SameOk(Expr(d0, 0), Expr(Amid(d0, c), 0), c);
    AmidHere(Expr(d0, 0).d, Draft(d.kids + [Cst(e)], [Semicolon] + more, d.errors), more);
  }

  lemma WordsIs(e: Pratt.Tree)
    ensures Words(e) == FullAll(PrattLaws.Yield(e))
  {
  }

  lemma FitsIf(ts: seq<Token>, c: Context)
    requires Shut(ts)
    ensures GrammarLocality.Fits(ts, c)
  {
  }

  lemma FullSemicolon()
    ensures FullAll([Pratt.Semicolon]) == [Semicolon]
  {
  }

  lemma SameOk(r: Outcome, s: Outcome, c: Context)
    requires Same(r, s, c) && r.Ok?
    ensures s == Ok(Amid(r.d, c))
  {
  }

  lemma AmidHere(d: Draft, all: Draft, more: seq<Token>)
    requires all.kids == d.kids && all.errors == d.errors
    requires all.rest == d.rest + more
    ensures Amid(d, Context([], more)) == all
  {
  }

  lemma PrattThenSemicolon(e: Pratt.Tree)
    requires PrattLaws.Fits(e)
    ensures var ts := PrattLaws.Yield(e) + [Pratt.Semicolon];
            && Pratt.ParseExpr(ts, 0) == Pratt.Parsed(e, [Pratt.Semicolon], [])
            && Clean(Pratt.ParseExpr(ts, 0))
  {
    PrattLaws.Completes(e, [Pratt.Semicolon], 0);
    PrattLaws.InfixStops(e, [Pratt.Semicolon], 0);
    hide Pratt.ParseExpr, PrattLaws.Yield, PrattLaws.Fits, Pratt.InfixLoop;
  }

  /** A statement and its tree; a declaration leaves its semicolon to the list. */
  lemma PrintedStmt(s: Sentence, more: seq<Token>)
    requires Printable(s)
    ensures var d := Draft([], PrintOne(s) + more, []);
            && d.rest != [] && d.rest[0] != Semicolon
            && Stmt(d) == Ok(Draft([TreesOne(s)[0]], if s.Let? then [Semicolon] + more else more, []))
  {
    hide Words, Cst, PrattLaws.Fits, Stmt, PrintOne;
    if s.Let? {
      PrintedLet(s, more);
    } else {
      assert TreesOne(s) == [TreesOne(s)[0]];
      PrintedDo(s, more);
    }
  }

  lemma PrintedLet(s: Sentence, more: seq<Token>)
    requires Printable(s) && s.Let?
    ensures var d := Draft([], PrintOne(s) + more, []);
            && d.rest != [] && d.rest[0] != Semicolon
            && Stmt(d) == Ok(Draft([TreesOne(s)[0]], [Semicolon] + more, []))
  {
    hide Words, Cst, PrattLaws.Fits, Take, Whole, Text, Expr, Binding, Definition, ExprStmt, NamedFunction;
    var d, tail := Draft([], PrintOne(s) + more, []), Words(s.value) + ([Semicolon] + more);
    assert d.rest == [Key(Keyword.Let), s.name, Op(Pratt.Set)] + tail;
    TakeIs(d);
    var s1 := Take(d);
    assert s1 == Draft([Leaf(Key(Keyword.Let))], [s.name, Op(Pratt.Set)] + tail, []);
    BindingParses(s.name, s.value, s1, more);
    assert Fresh(d) == d;
    WholeIs(LetStmt, d, Binding(s1));
  }

  /** The name, the equals sign and the value of a declaration. */
  lemma BindingParses(name: Token, value: Pratt.Tree, d: Draft, more: seq<Token>)
    requires name.Ident? && PrattLaws.Fits(value)
    requires d.rest == [name, Op(Pratt.Set)] + (Words(value) + ([Semicolon] + more))
    requires d.kids == [Leaf(Key(Keyword.Let))]
    ensures Binding(d) ==
              Ok(Draft([Leaf(Key(Keyword.Let)), Leaf(name), Leaf(Op(Pratt.Set)), Cst(value)], [Semicolon] + more,
                       d.errors))
  {
    hide Words, Cst, PrattLaws.Fits, Take, Need, Text, Expr;
    var tail := Words(value) + ([Semicolon] + more);
    TakeIs(d);
    var d1 := Take(d);
    assert d1.rest == [Op(Pratt.Set)] + tail;
    NeedHere(d1, Op(Pratt.Set));
    TakeIs(d1);
    var d2 := Take(d1);
    assert d2.rest == tail;
    ExprThenSemicolon(value, d2, more);
    assert d2.kids + [Cst(value)] == [Leaf(Key(Keyword.Let)), Leaf(name), Leaf(Op(Pratt.Set)), Cst(value)];
  }

  lemma PrintedDo(s: Sentence, more: seq<Token>)
    requires Printable(s) && s.Do?
    ensures var d := Draft([], PrintOne(s) + more, []);
            && d.rest != [] && d.rest[0] != Semicolon
            && Stmt(d) == Ok(Draft(TreesOne(s), more, []))
  {
    var d := Draft([], PrintOne(s) + more, []);
    WordsBegin(s.e);
    assert d.rest == Words(s.e) + ([Semicolon] + more);
    hide Words, Cst, PrattLaws.Fits, PrintOne, ExprStmt, Definition, NamedFunction, Binding, Text;
    ExprThenSemicolon(s.e, d, more);
    assert d.kids + [Cst(s.e)] == [Cst(s.e)];
    DoneWhole(d, Cst(s.e), more);
  }

  /** An expression and its semicolon are a statement. */
  lemma DoneWhole(d: Draft, t: Tree, more: seq<Token>)
    requires d.rest != [] && d.kids == [] && Expr(d, 0) == Ok(Draft([t], [Semicolon] + more, d.errors))
    ensures ExprStmt(d) == Ok(Draft([Node(Semi, [t, Leaf(Semicolon)])], more, d.errors))
  {
    hide Expr, Take, Join, Wrap, Text;
    var e := Draft([t], [Semicolon] + more, d.errors);
    assert Fresh(d) == d;
    TakeIs(e);
    assert e.rest[1..] == more && [t] + [Leaf(Semicolon)] == [t, Leaf(Semicolon)];
    WrapIs(Semi, Take(e));
    assert Consumes(d, Expr(d, 0));
    assert Onward(e, Take(e));
    JoinIs(d, Wrap(Semi, Take(e)));
  }

  /** An expression does not begin like a statement. */
  lemma WordsBegin(e: Pratt.Tree)
    requires PrattLaws.Fits(e)
    ensures Words(e) != [] && Words(e)[0] != Semicolon && !StartsStmt(Words(e)[0])
  {
    PrattLaws.FirstTokens(e);
    hide PrattLaws.Yield, PrattLaws.Fits;
  }

  /** The first statement, and then the others as on their own. */
  lemma PrintedFirst(s: Sentence, more: seq<Token>)
    requires Printable(s)
    ensures Parse(PrintOne(s) + more) == Then(Draft(TreesOne(s), [], []), Parse(more))
  {
    hide StmtList, Stmt, Words, Cst, Printable, PrintOne, Take, Text;
    var d := Draft([], PrintOne(s) + more, []);
    PrintedStmt(s, more);
    StmtListIs(d, true);
    assert SkipSemicolons(d) == d;
    if s.Let? {
      var next := Draft([TreesOne(s)[0]], [Semicolon] + more, []);
      ListSkips(next, true);
      TakeIs(next);
      assert next.rest[1..] == more && next.kids + [Leaf(Semicolon)] == TreesOne(s);
    } else {
      assert TreesOne(s) == [TreesOne(s)[0]];
    }
    ListAnew(Draft(TreesOne(s), [], []), more, true);
  }

  /** Printed statements parse back, without an error. */
  lemma {:induction false} PrintParse(stmts: seq<Sentence>)
    requires forall k :: 0 <= k < |stmts| ==> Printable(stmts[k])
    ensures Parse(Print(stmts)) == Draft(Trees(stmts), [], [])
    decreases |stmts|
  {
    hide Parse, PrintOne, TreesOne, Printable;
    if stmts == [] {
      NothingToParse();
    } else {
      PrintedFirst(stmts[0], Print(stmts[1..]));
      PrintParse(stmts[1..]);
    }
  }

  /** Sound statements after a semicolon all survive, whatever garbage without opening braces precedes it. */
  lemma StatementsSurvive(garbage: seq<Token>, stmts: seq<Sentence>)
    requires forall i :: 0 <= i < |garbage| ==> !Opens(garbage[i])
    requires forall k :: 0 <= k < |stmts| ==> Printable(stmts[k])
    ensures var p := Parse(garbage + [Semicolon]);
            Parse(garbage + [Semicolon] + Print(stmts)) == Draft(p.kids + Trees(stmts), [], p.errors)
  {
    SemicolonSeparates(garbage, Print(stmts));
    PrintParse(stmts);
    hide Parse, Print, Trees, Printable;
    var p := Parse(garbage + [Semicolon]);
    assert p.errors + [] == p.errors;
  }
}
