/**
 The expression parser of `src/parser/mod.rs` as functions on the tokens not yet
 consumed: binding powers, prefix and postfix operators, and the parser's own
 ways of failing. The empty sequence is the end of the file.
 */
module Pratt {
  import opened Values

  /** Infix operator tokens; `Set` and `SetOp` are `=` and `+=` and the like. */
  datatype Symbol =
    | Pipe | Bang | Question
    | OrWord | OrSign | AndWord | AndSign
    | Eq | Neq | Lt | Gt | Lte | Gte
    | Plus | Minus | Star | Slash | Percent
    | Set | SetOp(op: BinOp)

  /**
   `Constant` is `true`, `false` or `nil`, `Word` a keyword that begins neither an
   expression nor a statement, and `Other` a token with no part in either.
   */
  datatype Token =
    | Ident(name: string) | Literal(text: string) | Constant(text: string) | Word(text: string) | NotWord
    | Operator(sym: Symbol)
    | LParen | RParen | LBracket | RBracket | Dot | Comma | FatArrow
    | Semicolon | RBrace | LetWord
    | Other(text: string)

  datatype Tree =
    | Atom(t: Token)
    | Paren(e: Tree)
    | Vector(items: seq<Tree>)
    | Unary(t: Token, e: Tree)
    | Infix(sym: Symbol, l: Tree, r: Tree)
    | Call(target: Tree, items: seq<Tree>)
    | Index(target: Tree, e: Tree)
    | Field(target: Tree, name: Token)
    | Method(target: Tree, name: Token, items: seq<Tree>)

  /** Errors end the expression, or are recorded and parsing goes on as if the token were there. */
  datatype Problem = ArrowFunction | Unexpected | NoFieldName | Missing(t: Token)

  datatype Outcome<+T> =
    | Parsed(v: T, rest: seq<Token>, errors: seq<Problem>)
    | Failed(why: Problem, rest: seq<Token>, errors: seq<Problem>)

  // ----- binding powers -----

  /** Left binding power. Assignments bind least, and only where anything may follow. */
  function Lbp(s: Symbol): nat {
    match s
    case Set | SetOp(_) => 0
    case Pipe => 1
    case Bang | Question => 3
    case OrWord | OrSign => 5
    case AndWord | AndSign => 7
    case Eq | Neq | Lt | Gt | Lte | Gte => 9
    case Plus | Minus => 11
    case Star | Slash | Percent => 13
  }

  /** Right binding power: assignments nest to the right, all others to the left. */
  function Rbp(s: Symbol): nat {
    if s.Set? || s.SetOp? then 0 else Lbp(s) + 1
  }

  const PREFIX_POWER: nat := 15

  predicate IsPrefix(t: Token) {
    t == Operator(Minus) || t == NotWord
  }

  /** Keywords may name fields and methods. */
  predicate IsName(t: Token) {
    t.Ident? || t.Constant? || t.Word? || t.NotWord? || t.LetWord? || t == Operator(OrWord) || t == Operator(AndWord)
  }

  predicate IsAtom(t: Token) {
    t.Ident? || t.Literal? || t.Constant?
  }

  predicate StartsWith(ts: seq<Token>, t: Token) {
    ts != [] && ts[0] == t
  }

  // ----- arrow functions -----

  /** `name, name, ... ) =>`, with at least one name. */
  predicate ParamsThenArrow(ts: seq<Token>) {
    && |ts| >= 2 && ts[0].Ident?
    && (if ts[1].Comma? then ParamsThenArrow(ts[2..]) else ts[1].RParen? && StartsWith(ts[2..], FatArrow))
  }

  /** Asked just after an opening parenthesis. */
  predicate LooksLikeArrowFn(ts: seq<Token>) {
    if StartsWith(ts, RParen) then StartsWith(ts[1..], FatArrow) else ParamsThenArrow(ts)
  }

  // ----- the parser -----

  /** Consume `t`, or record that it is missing. */
  function Expect<T>(v: T, t: Token, ts: seq<Token>, errors: seq<Problem>): (r: Outcome<T>)
    ensures |r.rest| <= |ts|
  {
    if StartsWith(ts, t) then Parsed(v, ts[1..], errors) else Parsed(v, ts, errors + [Missing(t)])
  }

  /** The outcome with the errors recorded before it. */
  function Before<T>(errors: seq<Problem>, r: Outcome<T>): (s: Outcome<T>)
    ensures s.rest == r.rest && s.Parsed? == r.Parsed?
  {
    match r
    case Parsed(v, rest, more) => Parsed(v, rest, errors + more)
    case Failed(why, rest, more) => Failed(why, rest, errors + more)
  }

  function ParseExpr(ts: seq<Token>, min: nat): (r: Outcome<Tree>)
    ensures |r.rest| <= |ts| && (r.Parsed? ==> |r.rest| < |ts|)
    decreases |ts|, 3
  {
    var r := ParsePrefix(ts);
    if r.Failed? then r else Before(r.errors, InfixLoop(r.v, r.rest, min))
  }

  /** Infix operators after `lhs` that bind at least as tightly as `min`. */
  function InfixLoop(lhs: Tree, ts: seq<Token>, min: nat): (r: Outcome<Tree>)
    ensures |r.rest| <= |ts|
    decreases |ts|, 0
  {
    if ts == [] || !ts[0].Operator? || Lbp(ts[0].sym) < min then Parsed(lhs, ts, [])
    else
      var r := ParseExpr(ts[1..], Rbp(ts[0].sym));
      if r.Failed? then r
      else Before(r.errors, InfixLoop(Infix(ts[0].sym, lhs, r.v), r.rest, min))
  }

  function ParsePrefix(ts: seq<Token>): (r: Outcome<Tree>)
    ensures |r.rest| <= |ts| && (r.Parsed? ==> |r.rest| < |ts|)
    decreases |ts|, 2
  {
    if ts != [] && IsPrefix(ts[0]) then
      var r := ParseExpr(ts[1..], PREFIX_POWER);
      if r.Failed? then r else Parsed(Unary(ts[0], r.v), r.rest, r.errors)
    else
      var r := ParsePrimary(ts);
      if r.Failed? then r else Before(r.errors, PostfixLoop(r.v, r.rest))
  }

  /** Calls, indexing, fields and method calls after `lhs`. */
  function PostfixLoop(lhs: Tree, ts: seq<Token>): (r: Outcome<Tree>)
    ensures |r.rest| <= |ts|
    decreases |ts|, 0
  {
    if StartsWith(ts, LParen) then
      var r := ParseItems(ts[1..], RParen);
      if r.Failed? then Failed(r.why, r.rest, r.errors) else Before(r.errors, PostfixLoop(Call(lhs, r.v), r.rest))
    else if StartsWith(ts, LBracket) then
      var r := ParseExpr(ts[1..], 0);
      if r.Failed? then r
      else
        var e := Expect(r.v, RBracket, r.rest, r.errors);
        Before(e.errors, PostfixLoop(Index(lhs, e.v), e.rest))
    else if StartsWith(ts, Dot) then
      if |ts| < 2 || !IsName(ts[1]) then Failed(NoFieldName, ts[1..], [])
      else if StartsWith(ts[2..], LParen) then
        var r := ParseItems(ts[3..], RParen);
        if r.Failed? then Failed(r.why, r.rest, r.errors)
        else Before(r.errors, PostfixLoop(Method(lhs, ts[1], r.v), r.rest))
      else PostfixLoop(Field(lhs, ts[1]), ts[2..])
    else Parsed(lhs, ts, [])
  }

  function ParsePrimary(ts: seq<Token>): (r: Outcome<Tree>)
    ensures |r.rest| <= |ts| && (r.Parsed? ==> |r.rest| < |ts|)
    decreases |ts|, 1
  {
    if ts != [] && IsAtom(ts[0]) then Parsed(Atom(ts[0]), ts[1..], [])
    else if StartsWith(ts, LParen) then
      if LooksLikeArrowFn(ts[1..]) then Failed(ArrowFunction, ts[1..], [])
      else
        var r := ParseExpr(ts[1..], 0);
        if r.Failed? then r
        else Expect(Paren(r.v), RParen, r.rest, r.errors)
    else if StartsWith(ts, LBracket) then
      var r := ParseItems(ts[1..], RBracket);
      if r.Failed? then Failed(r.why, r.rest, r.errors) else Parsed(Vector(r.v), r.rest, r.errors)
    else Failed(Unexpected, ts, [])
  }

  /** Expressions separated by commas, up to `closer`. */
  function ParseItems(ts: seq<Token>, closer: Token): (r: Outcome<seq<Tree>>)
    ensures |r.rest| <= |ts|
    decreases |ts|, 5
  {
    if StartsWith(ts, closer) then Parsed([], ts[1..], [])
    else ItemsLoop([], ts, closer)
  }

  function ItemsLoop(done: seq<Tree>, ts: seq<Token>, closer: Token): (r: Outcome<seq<Tree>>)
    ensures |r.rest| <= |ts|
    decreases |ts|, 4
  {
    var r := ParseExpr(ts, 0);
    if r.Failed? then Failed(r.why, r.rest, r.errors)
    else if StartsWith(r.rest, Comma) then Before(r.errors, ItemsLoop(done + [r.v], r.rest[1..], closer))
    else Expect(done + [r.v], closer, r.rest, r.errors)
  }
}
