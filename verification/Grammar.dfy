/**
 The whole parser of `src/parser/mod.rs` as functions on the tokens not yet
 consumed: expressions with blocks, maps and all control flow, patterns, types,
 declarations, and the two loops over statements that recover from errors. The
 empty sequence is the end of the file.

 What is parsed is kept as a concrete syntax tree, with every consumed token as
 a leaf, so that nothing the parser does with its input goes unseen.
 */
module Grammar {
  import Pratt

  // ----- tokens and trees -----

  datatype Keyword =
    | Let | Shared | Fn | Type | Enum | Actor | Import | Lazy | State | On
    | If | Else | Match | While | For | In | Break | Continue | Loop | Struct
    | Spawn | Reply | Yield | Await | Transact | Retry | As
    | Raise | Try | Rescue | Ensure | Return | True | False | NilWord | Not

  /**
   `upper` tells whether a name starts with an upper-case letter, `sound` whether the interpolations of a string parse.
   `and` and `or` are the operators `AndWord` and `OrWord`.
   */
  datatype Token =
    | Ident(name: string, upper: bool) | Number(text: string) | Str(text: string, sound: bool)
    | Key(word: Keyword) | Op(sym: Pratt.Symbol)
    | LParen | RParen | LBracket | RBracket | LBrace | RBrace | HashBrace
    | Dot | DotDot | Comma | Colon | DoubleColon | Semicolon | Arrow | FatArrow | Bar | Underscore

  datatype Kind =
    | Unary | Infix | Paren | Call | Index | Field | Method | Vector | Set | MapLit | Block
    | IfExpr | MatchExpr | ArmOf | LambdaExpr | TryExpr | RescueOf | WhileExpr | ForExpr | SpawnExpr | Jump | Marked
    | TypeName | TypeUnion | FnType | PatternOr | PatternAtom
    | LetStmt | FnStmt | OnStmt | TypeStmt | EnumStmt | ActorStmt | ImportStmt | Semi | Bare

  datatype Tree = Leaf(t: Token) | Node(kind: Kind, kids: seq<Tree>)

  /** The tokens of a tree, left to right. */
  function Tokens(t: Tree): seq<Token>
    decreases t
  {
    match t
    case Leaf(token) => [token]
    case Node(_, kids) => TokensOf(kids)
  }

  function TokensOf(ts: seq<Tree>): seq<Token>
    decreases ts
  {
    if ts == [] then [] else Tokens(ts[0]) + TokensOf(ts[1..])
  }

  lemma {:induction false} TokensJoin(a: seq<Tree>, b: seq<Tree>)
    ensures TokensOf(a + b) == TokensOf(a) + TokensOf(b)
    decreases a
  {
    if a == [] {
      assert a + b == b;
    } else {
      assert (a + b)[1..] == a[1..] + b && (a + b)[0] == a[0];
      TokensJoin(a[1..], b);
    }
  }

  lemma TokensOfOne(t: Tree)
    ensures TokensOf([t]) == Tokens(t)
  {
    assert [t][1..] == [];
  }

  // ----- what a parse has come to -----

  datatype Problem =
    | ArrowFunction | Unexpected | UnexpectedInPattern | NoName | NoFieldName | BadInterpolation | NoSeparator
    | Missing(t: Token)

  /** What was parsed so far of the construct at hand, what is left, and what was recorded. */
  datatype Draft = Draft(kids: seq<Tree>, rest: seq<Token>, errors: seq<Problem>)

  /** An error that ends the construct at hand; errors recorded on the way do not. */
  datatype Outcome = Ok(d: Draft) | Err(why: Problem, rest: seq<Token>, errors: seq<Problem>)
  {
    predicate IsFailure() { Err? }

    function PropagateFailure(): Outcome
      requires Err?
    {
      this
    }

    function Extract(): Draft
      requires Ok?
    {
      d
    }
  }

  /** The tokens that were parsed, and those that are left. */
  function Text(d: Draft): seq<Token> {
    TokensOf(d.kids) + d.rest
  }

  /** Parsing goes forward; while nothing is recorded, no token is lost, added or moved. */
  predicate Onward(a: Draft, b: Draft) {
    && |b.rest| <= |a.rest| && (|b.rest| == |a.rest| ==> b.rest == a.rest)
    && |a.errors| <= |b.errors| && (|a.errors| == |b.errors| ==> Text(b) == Text(a))
  }

  predicate Follows(a: Draft, r: Outcome) {
    match r
    case Ok(b) => Onward(a, b)
    case Err(_, rest, errors) =>
      |rest| <= |a.rest| && (|rest| == |a.rest| ==> rest == a.rest) && |a.errors| <= |errors|
  }

  /** A result consumed a token. */
  predicate Consumes(a: Draft, r: Outcome) {
    Follows(a, r) && (r.Ok? ==> |r.d.rest| < |a.rest|)
  }

  // ----- steps -----

  function Fresh(d: Draft): (r: Draft)
    ensures r.rest == d.rest && r.errors == d.errors
  {
    Draft([], d.rest, d.errors)
  }

  /** What `part` came to, behind what there was. */
  function Join(d: Draft, part: Draft): (r: Draft)
    requires Onward(Fresh(d), part)
    ensures Onward(d, r) && r.rest == part.rest && r.errors == part.errors
  {
    TokensJoin(d.kids, part.kids);
    assert (TokensOf(d.kids) + TokensOf(part.kids)) + part.rest == TokensOf(d.kids) + (TokensOf(part.kids) + part.rest);
    Draft(d.kids + part.kids, part.rest, part.errors)
  }

  /** Everything parsed so far becomes one tree. */
  function Wrap(kind: Kind, d: Draft): (r: Draft)
    ensures Text(r) == Text(d) && r.rest == d.rest && r.errors == d.errors
  {
    TokensOfOne(Node(kind, d.kids));
    Draft([Node(kind, d.kids)], d.rest, d.errors)
  }

  /** A construct of its own, parsed where `d` stands. */
  function Whole(kind: Kind, d: Draft, r: Outcome): (s: Outcome)
    requires Follows(Fresh(d), r)
    ensures Follows(d, s) && s.Ok? == r.Ok?
    ensures s.Ok? ==> s.d.rest == r.d.rest
    ensures s.Err? ==> s == r
  {
    if r.Err? then r else Ok(Join(d, Wrap(kind, r.d)))
  }

  function Take(d: Draft): (r: Draft)
    requires d.rest != []
    ensures Onward(d, r) && r.rest == d.rest[1..] && r.errors == d.errors
  {
    TokensJoin(d.kids, [Leaf(d.rest[0])]);
    TokensOfOne(Leaf(d.rest[0]));
    assert (TokensOf(d.kids) + [d.rest[0]]) + d.rest[1..] == TokensOf(d.kids) + d.rest;
    Draft(d.kids + [Leaf(d.rest[0])], d.rest[1..], d.errors)
  }

  predicate At(d: Draft, t: Token) {
    d.rest != [] && d.rest[0] == t
  }

  predicate AtKey(d: Draft, k: Keyword) {
    At(d, Key(k))
  }

  /** The keywords, `and` and `or` among them. */
  predicate IsKeyword(t: Token) {
    t.Key? || t == Op(Pratt.AndWord) || t == Op(Pratt.OrWord)
  }

  /** `expect` compares tokens by their kind, so for one keyword any other will do. */
  predicate AtKind(d: Draft, t: Token) {
    d.rest != [] && (d.rest[0] == t || (t.Key? && IsKeyword(d.rest[0])))
  }

  function Record(d: Draft, why: Problem): (r: Draft)
    ensures Onward(d, r) && r.rest == d.rest
  {
    d.(errors := d.errors + [why])
  }

  /** Consume `t`, or record that it is missing and go on as if it were there. */
  function Need(d: Draft, t: Token): (r: Draft)
    ensures Onward(d, r)
  {
    if AtKind(d, t) then Take(d) else Record(d, Missing(t))
  }

  function NeedKey(d: Draft, k: Keyword): (r: Draft)
    ensures Onward(d, r)
  {
    if AtKey(d, k) then Take(d) else Record(d, Missing(Key(k)))
  }

  function Fail(why: Problem, d: Draft): (r: Outcome)
    ensures Follows(d, r) && r.Err?
  {
    Err(why, d.rest, d.errors)
  }

  predicate AtName(d: Draft) {
    d.rest != [] && d.rest[0].Ident?
  }

  function Name(d: Draft): (r: Outcome)
    ensures Consumes(d, r)
  {
    if AtName(d) then Ok(Take(d)) else Fail(NoName, d)
  }

  // ----- arrow functions -----

  /** `name, name, ... ) =>`, with at least one name. */
  predicate ParamsThenArrow(ts: seq<Token>) {
    && |ts| >= 2 && ts[0].Ident?
    && (if ts[1].Comma? then ParamsThenArrow(ts[2..]) else ts[1].RParen? && |ts| >= 3 && ts[2].FatArrow?)
  }

  /** Asked just after an opening parenthesis. */
  predicate LooksLikeArrowFn(ts: seq<Token>) {
    if ts != [] && ts[0].RParen? then |ts| >= 2 && ts[1].FatArrow? else ParamsThenArrow(ts)
  }

  // ----- lists with commas -----

  datatype ItemKind =
    | Exprs | Types | Names | Params | FieldDecls | Variants | Patterns | FieldPatterns | ElementPatterns

  /** Items separated by commas, and the closing token; nothing if it comes at once. */
  function Items(d: Draft, kind: ItemKind, closer: Token): (r: Outcome)
    ensures Follows(d, r)
    decreases |d.rest|, 10
  {
    if At(d, closer) then Ok(Take(d)) else ItemsLoop(d, kind, closer)
  }

  function ItemsLoop(d: Draft, kind: ItemKind, closer: Token): (r: Outcome)
    ensures Follows(d, r)
    decreases |d.rest|, 9
  {
    if At(d, DotDot) && kind.FieldPatterns? then Ok(Need(Take(d), closer))
    else if At(d, DotDot) && kind.ElementPatterns? then
      var rest := Take(d);
      Ok(Need(if AtName(rest) then Take(rest) else rest, closer))
    else
      var one :- OneItem(d, kind);
      if At(one, Comma) then ItemsLoop(Take(one), kind, closer) else Ok(Need(one, closer))
  }

  function OneItem(d: Draft, kind: ItemKind): (r: Outcome)
    ensures Consumes(d, r)
    decreases |d.rest|, 8
  {
    match kind
    case Exprs => Expr(d, 0)
    case Types => TypeOf(d)
    case Names => Name(d)
    case Params => var name :- Name(d); MaybeType(name)
    case FieldDecls => var name :- Name(d); TypeOf(Need(name, Colon))
    case Variants =>
      var name :- Name(d);
      if At(name, LParen) then Items(Take(name), Types, RParen) else Ok(name)
    case Patterns => Pattern(d)
    case FieldPatterns =>
      var name :- Name(d);
      if At(name, Colon) then Pattern(Take(name)) else Ok(name)
    case ElementPatterns => Pattern(d)
  }

  // ----- types -----

  /** `: T`, if it is there. */
  function MaybeType(d: Draft): (r: Outcome)
    ensures Follows(d, r)
    decreases |d.rest|, 8
  {
    if At(d, Colon) then TypeOf(Take(d)) else Ok(d)
  }

  /** `-> T`, if it is there. */
  function MaybeResult(d: Draft): (r: Outcome)
    ensures Follows(d, r)
    decreases |d.rest|, 8
  {
    if At(d, Arrow) then TypeOf(Take(d)) else Ok(d)
  }

  function TypeOf(d: Draft): (r: Outcome)
    ensures Consumes(d, r)
    decreases |d.rest|, 7
  {
    if AtKey(d, Fn) then Whole(FnType, d, FunctionType(Fresh(d)))
    else
      var first :- NamedType(Fresh(d));
      if At(first, Bar) then Whole(TypeUnion, d, UnionLoop(first)) else Ok(Join(d, first))
  }

  function FunctionType(d: Draft): (r: Outcome)
    requires d.rest != []
    ensures Consumes(d, r)
    decreases |d.rest|, 6
  {
    var params :- Items(Need(Take(d), LParen), Types, RParen);
    TypeOf(Need(params, Arrow))
  }

  function NamedType(d: Draft): (r: Outcome)
    ensures Consumes(d, r)
    decreases |d.rest|, 6
  {
    var name :- Name(Fresh(d));
    Whole(TypeName, d, TypeParams(name, Types))
  }

  /** `< ... >`, if it is there. */
  function TypeParams(d: Draft, kind: ItemKind): (r: Outcome)
    ensures Follows(d, r)
    decreases |d.rest|, 11
  {
    if At(d, Op(Pratt.Lt)) then Items(Take(d), kind, Op(Pratt.Gt)) else Ok(d)
  }

  function UnionLoop(d: Draft): (r: Outcome)
    ensures Follows(d, r)
    decreases |d.rest|, 0
  {
    if !At(d, Bar) then Ok(d)
    else
      var next :- NamedType(Take(d));
      UnionLoop(next)
  }

  // ----- patterns -----

  function Pattern(d: Draft): (r: Outcome)
    ensures Consumes(d, r)
    decreases |d.rest|, 7
  {
    var first :- AtomicPattern(Fresh(d));
    if At(first, Bar) then Whole(PatternOr, d, PatternLoop(first)) else Ok(Join(d, first))
  }

  function PatternLoop(d: Draft): (r: Outcome)
    ensures Follows(d, r)
    decreases |d.rest|, 0
  {
    if !At(d, Bar) then Ok(d)
    else
      var next :- AtomicPattern(Take(d));
      PatternLoop(next)
  }

  predicate IsLiteral(t: Token) {
    t.Number? || (t.Key? && t.word in {True, False, NilWord})
  }

  function AtomicPattern(d: Draft): (r: Outcome)
    ensures Consumes(d, r)
    decreases |d.rest|, 6
  {
    if d.rest == [] then Fail(UnexpectedInPattern, d)
    else
      var t := d.rest[0];
      if t.Underscore? || IsLiteral(t) then Ok(Take(d))
      else if t.Str? then if t.sound then Ok(Take(d)) else Fail(BadInterpolation, Take(d))
      else if t == Op(Pratt.Minus) && |d.rest| >= 2 && d.rest[1].Number? then
        Ok(Join(d, Wrap(PatternAtom, Take(Take(Fresh(d))))))
      else if t.Ident? then
        if !t.upper then Ok(Take(d)) else Whole(PatternAtom, d, UpperPattern(Take(Fresh(d))))
      else if t.LBracket? then Whole(PatternAtom, d, Items(Take(Fresh(d)), ElementPatterns, RBracket))
      else if t.LBrace? then Whole(PatternAtom, d, Items(Take(Fresh(d)), FieldPatterns, RBrace))
      else Fail(UnexpectedInPattern, d)
  }

  /** What may follow an upper-case name: fields or arguments. */
  function UpperPattern(d: Draft): (r: Outcome)
    ensures Follows(d, r)
    decreases |d.rest|, 11
  {
    if At(d, LBrace) then Items(Take(d), FieldPatterns, RBrace)
    else if At(d, LParen) then Items(Take(d), Patterns, RParen)
    else Ok(d)
  }

  // ----- expressions -----

  /** Keywords that begin a statement or an expression. */
  predicate AtEither(d: Draft) {
    AtKey(d, Shared) || AtKey(d, Fn)
  }

  /** An expression of operators that bind at least as tightly as `min`. */
  function Expr(d: Draft, min: nat): (r: Outcome)
    ensures Consumes(d, r)
    ensures r.Err? && AtEither(d) ==> |r.rest| < |d.rest|
    decreases |d.rest|, 7
  {
    var lhs :- Prefix(Fresh(d));
    var whole :- InfixLoop(lhs, min);
    Ok(Join(d, whole))
  }

  /** `d` holds the left operand. */
  function InfixLoop(d: Draft, min: nat): (r: Outcome)
    ensures Follows(d, r)
    decreases |d.rest|, 0
  {
    if d.rest == [] || !d.rest[0].Op? || Pratt.Lbp(d.rest[0].sym) < min then Ok(d)
    else
      var both :- Expr(Take(d), Pratt.Rbp(d.rest[0].sym));
      InfixLoop(Wrap(Infix, both), min)
  }

  predicate AtPrefix(d: Draft) {
    At(d, Op(Pratt.Minus)) || AtKey(d, Not)
  }

  function Prefix(d: Draft): (r: Outcome)
    ensures Consumes(d, r)
    ensures r.Err? && AtEither(d) ==> |r.rest| < |d.rest|
    decreases |d.rest|, 6
  {
    if AtPrefix(d) then Whole(Unary, d, Expr(Take(Fresh(d)), Pratt.PREFIX_POWER))
    else
      var first :- Primary(Fresh(d));
      var whole :- PostfixLoop(first);
      Ok(Join(d, whole))
  }

  /** Keywords may name fields and methods. */
  predicate AtFieldName(d: Draft) {
    d.rest != [] && (d.rest[0].Ident? || IsKeyword(d.rest[0]))
  }

  /** `d` holds what is called, indexed or asked for a field. */
  function PostfixLoop(d: Draft): (r: Outcome)
    ensures Follows(d, r)
    decreases |d.rest|, 0
  {
    if At(d, LParen) then
      var call :- Items(Take(d), Exprs, RParen);
      PostfixLoop(Wrap(Call, call))
    else if At(d, LBracket) then
      var index :- Expr(Take(d), 0);
      PostfixLoop(Wrap(Index, Need(index, RBracket)))
    else if At(d, Dot) then
      var dot := Take(d);
      if !AtFieldName(dot) then Fail(NoFieldName, dot)
      else if At(Take(dot), LParen) then
        var call :- Items(Take(Take(dot)), Exprs, RParen);
        PostfixLoop(Wrap(Method, call))
      else PostfixLoop(Wrap(Field, Take(dot)))
    else Ok(d)
  }

  /** `return` and `break` take no value before one of these. */
  predicate NoValueHere(d: Draft) {
    d.rest == [] || d.rest[0] in {Semicolon, RBrace, Comma}
  }

  function Primary(d: Draft): (r: Outcome)
    ensures Consumes(d, r)
    ensures r.Err? && AtEither(d) ==> |r.rest| < |d.rest|
    decreases |d.rest|, 5
  {
    if d.rest == [] then Fail(Unexpected, d)
    else
      var t := d.rest[0];
      if IsLiteral(t) || t.Ident? then Ok(Take(d))
      else if t.Str? then if t.sound then Ok(Take(d)) else Fail(BadInterpolation, Take(d))
      else if t.LParen? then
        if LooksLikeArrowFn(d.rest[1..]) then Fail(ArrowFunction, Take(d))
        else Whole(Paren, d, Parenthesised(Take(Fresh(d))))
      else if t.LBracket? then Whole(Vector, d, Items(Take(Fresh(d)), Exprs, RBracket))
      else if t.HashBrace? then Whole(Set, d, Items(Take(Fresh(d)), Exprs, RBrace))
      else if t.LBrace? then Brace(d)
      else if t.Key? then KeywordExpr(d, t.word)
      else Fail(Unexpected, d)
  }

  function Parenthesised(d: Draft): (r: Outcome)
    ensures Follows(d, r)
    decreases |d.rest|, 8
  {
    var inner :- Expr(d, 0);
    Ok(Need(inner, RParen))
  }

  function KeywordExpr(d: Draft, word: Keyword): (r: Outcome)
    requires AtKey(d, word)
    ensures Consumes(d, r)
    ensures r.Err? && word in {Shared, Fn} ==> |r.rest| < |d.rest|
    decreases |d.rest|, 4
  {
    var s := Take(Fresh(d));
    if word in {Raise, Reply, Await, Shared, Transact, Loop} then Whole(Marked, d, Expr(s, 0))
    else if word in {Return, Break} && !NoValueHere(s) then Whole(Jump, d, Expr(s, 0))
    else if word in {Return, Break, Yield, Retry, Continue} then Ok(Join(d, Wrap(Jump, s)))
    else if word.Fn? then Whole(LambdaExpr, d, FunctionBody(s))
    else ControlExpr(d, s, word)
  }

  /** Expressions with several parts; `s` stands behind the keyword. */
  function ControlExpr(d: Draft, s: Draft, word: Keyword): (r: Outcome)
    requires d.rest != [] && s == Take(Fresh(d))
    ensures Consumes(d, r)
    decreases |d.rest|, 3
  {
    if word.If? then Whole(IfExpr, d, IfBody(s))
    else if word.Match? then Whole(MatchExpr, d, MatchBody(s))
    else if word.While? then Whole(WhileExpr, d, TwoExprs(s))
    else if word.For? then Whole(ForExpr, d, ForBody(s))
    else if word.Try? then Whole(TryExpr, d, TryBody(s))
    else if word.Spawn? then Whole(SpawnExpr, d, SpawnBody(s))
    else Fail(Unexpected, d)
  }

  function TwoExprs(d: Draft): (r: Outcome)
    ensures Follows(d, r)
    decreases |d.rest|, 8
  {
    var first :- Expr(d, 0);
    Expr(first, 0)
  }

  function IfBody(d: Draft): (r: Outcome)
    ensures Follows(d, r)
    decreases |d.rest|, 9
  {
    var both :- TwoExprs(d);
    if !AtKey(both, Else) then Ok(both)
    else
      var els := Take(both);
      if AtKey(els, If) then Whole(IfExpr, els, IfBody(Take(Fresh(els)))) else Expr(els, 0)
  }

  function ForBody(d: Draft): (r: Outcome)
    ensures Follows(d, r)
    decreases |d.rest|, 9
  {
    var name :- Name(d);
    TwoExprs(NeedKey(name, In))
  }

  function SpawnBody(d: Draft): (r: Outcome)
    ensures Follows(d, r)
    decreases |d.rest|, 11
  {
    var name :- Name(d);
    Items(Need(name, LParen), Exprs, RParen)
  }

  /** Parameters, result type and body of a function or a handler. */
  function FunctionBody(d: Draft): (r: Outcome)
    ensures Follows(d, r)
    decreases |d.rest|, 11
  {
    var params :- Items(Need(d, LParen), Params, RParen);
    var result :- MaybeResult(params);
    Expr(result, 0)
  }

  function MatchBody(d: Draft): (r: Outcome)
    ensures Follows(d, r)
    decreases |d.rest|, 9
  {
    var scrutinee :- Expr(d, 0);
    var arms :- ArmsLoop(Need(scrutinee, LBrace));
    Ok(Need(arms, RBrace))
  }

  predicate AtEnd(d: Draft) {
    d.rest == [] || d.rest[0] == RBrace
  }

  /** An arm may do without its comma. */
  function ArmsLoop(d: Draft): (r: Outcome)
    ensures Follows(d, r)
    decreases |d.rest|, 9
  {
    if AtEnd(d) then Ok(d)
    else
      var arm :- Arm(Fresh(d));
      var arms := Join(d, Wrap(ArmOf, arm));
      ArmsLoop(if At(arms, Comma) then Take(arms) else arms)
  }

  function Arm(d: Draft): (r: Outcome)
    ensures Consumes(d, r)
    decreases |d.rest|, 8
  {
    var pattern :- Pattern(d);
    var guarded :- if AtKey(pattern, If) then Expr(Take(pattern), 0) else Ok(pattern);
    Expr(Need(guarded, FatArrow), 0)
  }

  function TryBody(d: Draft): (r: Outcome)
    ensures Follows(d, r)
    decreases |d.rest|, 9
  {
    var body :- Expr(d, 0);
    var rescued :- RescueLoop(body);
    if AtKey(rescued, Ensure) then Expr(Take(rescued), 0) else Ok(rescued)
  }

  function RescueLoop(d: Draft): (r: Outcome)
    ensures Follows(d, r)
    decreases |d.rest|, 0
  {
    if !AtKey(d, Rescue) then Ok(d)
    else
      var one :- RescueClause(Take(Fresh(d)));
      RescueLoop(Join(d, Wrap(RescueOf, one)))
  }

  function RescueClause(d: Draft): (r: Outcome)
    ensures Follows(d, r)
    decreases |d.rest|, 8
  {
    var named := if AtName(d) then Take(d) else d;
    var bound :- if AtKey(named, As) then Name(Take(named)) else Ok(named);
    Expr(bound, 0)
  }

  // ----- blocks and maps -----

  predicate StartsStmt(t: Token) {
    t.Key? && t.word in {Let, Shared, Fn, Type, Enum, Actor, Import, Lazy, State, On}
  }

  /** `{ ... }`: an empty map, a block that begins with a declaration, or what its first expression decides. */
  function Brace(d: Draft): (r: Outcome)
    requires At(d, LBrace)
    ensures Consumes(d, r)
    decreases |d.rest|, 4
  {
    var s := Take(Fresh(d));
    if At(s, RBrace) then Ok(Join(d, Wrap(MapLit, Take(s))))
    else if s.rest != [] && StartsStmt(s.rest[0]) then Ok(Join(d, Wrap(Block, Need(BlockLoop(s), RBrace))))
    else
      var first :- Expr(Fresh(s), 0);
      if At(first, Colon) then Whole(MapLit, d, MapBody(Take(Join(s, first))))
      else
        var inside :=
          if At(first, Semicolon) then BlockLoop(Join(s, Wrap(Semi, Take(first))))
          else if At(first, RBrace) then Join(s, first)
          else Record(Join(s, first), NoSeparator);
        Ok(Join(d, Wrap(Block, Need(inside, RBrace))))
  }

  function MapBody(d: Draft): (r: Outcome)
    ensures Follows(d, r)
    decreases |d.rest|, 8
  {
    var first :- Expr(d, 0);
    var entries :- MapLoop(first);
    Ok(Need(entries, RBrace))
  }

  function MapLoop(d: Draft): (r: Outcome)
    ensures Follows(d, r)
    decreases |d.rest|, 0
  {
    if !At(d, Comma) then Ok(d)
    else if At(Take(d), RBrace) then Ok(Take(d))
    else
      var key :- Expr(Take(d), 0);
      var entry :- Expr(Need(key, Colon), 0);
      MapLoop(entry)
  }

  /** The statement parsed last is an expression without a semicolon. */
  predicate EndsBare(kids: seq<Tree>) {
    kids != [] && kids[|kids| - 1].Node? && kids[|kids| - 1].kind.Bare?
  }

  /** Statements up to the closing brace or a tail; after an error, on from where the next statement may start. */
  function BlockLoop(d: Draft): (r: Draft)
    ensures Onward(d, r)
    decreases |d.rest|, 13
  {
    if AtEnd(d) then d
    else
      var r := Stmt(d);
      if r.Err? then BlockLoop(Resynced(d, r, false))
      else if EndsBare(r.d.kids) then r.d
      else BlockLoop(if At(r.d, Semicolon) then Take(r.d) else r.d)
  }

  /** Skip past a semicolon, or up to a closing brace or the start of a statement. */
  function Resync(ts: seq<Token>, topLevel: bool): (r: seq<Token>)
    ensures |r| <= |ts| && (|r| == |ts| ==> r == ts)
    ensures ts != [] && !StartsStmt(ts[0]) && (topLevel || ts[0] != RBrace) ==> |r| < |ts|
    decreases |ts|
  {
    if ts == [] then []
    else if ts[0] == Semicolon then ts[1..]
    else if ts[0] == RBrace then if topLevel then Resync(ts[1..], topLevel) else ts
    else if StartsStmt(ts[0]) then ts
    else Resync(ts[1..], topLevel)
  }

  /** The failed statement is dropped and its error recorded. */
  function Resynced(d: Draft, r: Outcome, topLevel: bool): (s: Draft)
    requires r.Err? && Follows(d, r)
    ensures Onward(d, s) && |s.errors| > |d.errors|
    ensures |s.rest| <= |r.rest| && s.rest == Resync(r.rest, topLevel)
  {
    Draft(d.kids, Resync(r.rest, topLevel), r.errors + [r.why])
  }

  // ----- statements -----

  /** `shared name =` or `shared name :` declares; anything else after `shared` is an expression. */
  predicate DeclaresShared(ts: seq<Token>) {
    |ts| >= 3 && ts[1].Ident? && (ts[2] == Op(Pratt.Set) || ts[2] == Colon)
  }

  function Stmt(d: Draft): (r: Outcome)
    requires d.rest != []
    ensures Consumes(d, r)
    ensures r.Err? && StartsStmt(d.rest[0]) ==> |r.rest| < |d.rest|
    decreases |d.rest|, 12
  {
    if !StartsStmt(d.rest[0]) then ExprStmt(d)
    else
      var s, word := Take(Fresh(d)), d.rest[0].word;
      if word.Let? || word.State? then Whole(LetStmt, d, Binding(s))
      else if word.Shared? then if DeclaresShared(d.rest) then Whole(LetStmt, d, Binding(s)) else ExprStmt(d)
      else if word.Fn? then if AtName(s) then Whole(FnStmt, d, NamedFunction(s)) else ExprStmt(d)
      else if word.On? then Whole(OnStmt, d, NamedFunction(s))
      else Definition(d, s, word)
  }

  /** Definitions and imports; `s` stands behind the keyword. */
  function Definition(d: Draft, s: Draft, word: Keyword): (r: Outcome)
    requires d.rest != [] && s == Take(Fresh(d))
    ensures Consumes(d, r)
    ensures r.Err? ==> |r.rest| < |d.rest|
    decreases |d.rest|, 11
  {
    if word.Type? then Whole(TypeStmt, d, TypeDef(s))
    else if word.Enum? then Whole(EnumStmt, d, EnumDef(s))
    else if word.Actor? then Whole(ActorStmt, d, ActorDef(s))
    else Whole(ImportStmt, d, ImportPath(if word.Lazy? then Need(s, Key(Import)) else s))
  }

  function ExprStmt(d: Draft): (r: Outcome)
    requires d.rest != []
    ensures Consumes(d, r)
    ensures r.Err? && AtEither(d) ==> |r.rest| < |d.rest|
    decreases |d.rest|, 8
  {
    var e := Expr(Fresh(d), 0);
    if e.Err? then e
    else if At(e.d, Semicolon) then Ok(Join(d, Wrap(Semi, Take(e.d))))
    else Ok(Join(d, Wrap(Bare, e.d)))
  }

  /** `name [: T] = value` */
  function Binding(d: Draft): (r: Outcome)
    ensures Follows(d, r)
    decreases |d.rest|, 9
  {
    var name :- Name(d);
    var typed :- MaybeType(name);
    Expr(Need(typed, Op(Pratt.Set)), 0)
  }

  function NamedFunction(d: Draft): (r: Outcome)
    ensures Follows(d, r)
    decreases |d.rest|, 12
  {
    var name :- Name(d);
    FunctionBody(name)
  }

  function TypeDef(d: Draft): (r: Outcome)
    ensures Follows(d, r)
    decreases |d.rest|, 12
  {
    var name :- Name(d);
    var params :- TypeParams(name, Names);
    Items(Need(Need(params, Op(Pratt.Set)), LBrace), FieldDecls, RBrace)
  }

  function EnumDef(d: Draft): (r: Outcome)
    ensures Follows(d, r)
    decreases |d.rest|, 12
  {
    var name :- Name(d);
    var params :- TypeParams(name, Names);
    Items(Need(params, LBrace), Variants, RBrace)
  }

  function ActorDef(d: Draft): (r: Outcome)
    ensures Follows(d, r)
    decreases |d.rest|, 12
  {
    var name :- Name(d);
    Ok(Need(StmtList(Need(name, LBrace), false), RBrace))
  }

  function ImportPath(d: Draft): (r: Outcome)
    ensures Follows(d, r)
    decreases |d.rest|
  {
    var name :- Name(d);
    if At(name, Dot) then ImportPath(Take(name))
    else if AtKey(name, As) then Name(Take(name))
    else Ok(name)
  }

  function SkipSemicolons(d: Draft): (r: Draft)
    ensures Onward(d, r) && !At(r, Semicolon)
    decreases |d.rest|
  {
    if At(d, Semicolon) then SkipSemicolons(Take(d)) else d
  }

  /** Statements to the end of the file, or of the enclosing braces. */
  function StmtList(d: Draft, topLevel: bool): (r: Draft)
    ensures Onward(d, r)
    ensures r.rest == [] || (!topLevel && At(r, RBrace))
    decreases |d.rest|, 14
  {
    var s := SkipSemicolons(d);
    if s.rest == [] || (!topLevel && At(s, RBrace)) then s
    else
      var r := Stmt(s);
      StmtList(if r.Ok? then r.d else Resynced(s, r, topLevel), topLevel)
  }

  /** A whole file. */
  function Parse(ts: seq<Token>): (r: Draft)
    ensures r.rest == []
  {
    StmtList(Draft([], ts, []), true)
  }
}
