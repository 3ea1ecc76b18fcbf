/**
 The grammar of the language, apart from the functions that parse it: which
 trees stand for the constructs of `src/parser/mod.rs`, and which tokens may
 follow each of them. Every token of a construct is a leaf of its tree, and
 `rest` is what follows the tree. A construct that could go on is followed by
 nothing that goes on with it.
 */
module LanguageGrammar {
  import Pratt
  import opened Grammar

  /** The tokens from the part `i` on. */
  function From(kids: seq<Tree>, i: nat, rest: seq<Token>): seq<Token>
    requires i <= |kids|
  {
    TokensOf(kids[i..]) + rest
  }

  predicate Starts(ts: seq<Token>, t: Token) {
    ts != [] && ts[0] == t
  }

  predicate StartsName(ts: seq<Token>) {
    ts != [] && ts[0].Ident?
  }

  predicate Is(kids: seq<Tree>, i: nat, t: Token) {
    i < |kids| && kids[i] == Leaf(t)
  }

  predicate IsWord(kids: seq<Tree>, i: nat, word: Keyword) {
    Is(kids, i, Key(word))
  }

  predicate IsName(kids: seq<Tree>, i: nat) {
    i < |kids| && kids[i].Leaf? && kids[i].t.Ident?
  }

  predicate IsConstant(t: Token) {
    t.Number? || t in {Key(True), Key(False), Key(NilWord)}
  }

  /** The words that begin a declaration. */
  predicate Declares(t: Token) {
    t in {Key(Let), Key(Shared), Key(Fn), Key(Type), Key(Enum), Key(Actor), Key(Import), Key(Lazy), Key(State), Key(On)}
  }

  // ----- lists -----

  /** Items with commas between them, and the closing token. */
  predicate Listed(kids: seq<Tree>, kind: ItemKind, closer: Token, rest: seq<Token>)
    decreases kids, 1
  {
    kids == [Leaf(closer)] || Many(kids, kind, closer, rest)
  }

  predicate Many(kids: seq<Tree>, kind: ItemKind, closer: Token, rest: seq<Token>)
    decreases kids, 0
  {
    || Remainder(kids, kind, closer)
    || exists n | 0 < n < |kids| ::
         && ItemForm(kids[..n], kind, From(kids, n, rest))
         && (|| (n + 1 == |kids| && Is(kids, n, closer))
             || (Is(kids, n, Comma) && Many(kids[n + 1..], kind, closer, rest)))
  }

  /** `..` ends the patterns of fields and of elements, with a name perhaps for the elements left. */
  predicate Remainder(kids: seq<Tree>, kind: ItemKind, closer: Token) {
    || (kids == [Leaf(DotDot), Leaf(closer)] && (kind.FieldPatterns? || kind.ElementPatterns?))
    || (kind.ElementPatterns? && |kids| == 3 && Is(kids, 0, DotDot) && IsName(kids, 1) && Is(kids, 2, closer))
  }

  predicate ItemForm(kids: seq<Tree>, kind: ItemKind, rest: seq<Token>)
    decreases kids, 0
  {
    match kind
    case Exprs => |kids| == 1 && Expression(kids[0], 0, rest)
    case Types => |kids| == 1 && TypeForm(kids[0], rest)
    case Names => |kids| == 1 && IsName(kids, 0)
    case Params => (|kids| == 1 && IsName(kids, 0) && !Starts(rest, Colon)) || Typed(kids, rest)
    case FieldDecls => Typed(kids, rest)
    case Variants =>
      || (|kids| == 1 && IsName(kids, 0) && !Starts(rest, LParen))
      || (|kids| > 2 && IsName(kids, 0) && Is(kids, 1, LParen) && Listed(kids[2..], Types, RParen, rest))
    case FieldPatterns =>
      || (|kids| == 1 && IsName(kids, 0) && !Starts(rest, Colon))
      || (|kids| == 3 && IsName(kids, 0) && Is(kids, 1, Colon) && PatternForm(kids[2], rest))
    case _ => |kids| == 1 && PatternForm(kids[0], rest)
  }

  predicate Typed(kids: seq<Tree>, rest: seq<Token>)
    decreases kids, -1
  {
    |kids| == 3 && IsName(kids, 0) && Is(kids, 1, Colon) && TypeForm(kids[2], rest)
  }

  // ----- types -----

  predicate TypeForm(t: Tree, rest: seq<Token>)
    decreases t, 1
  {
    match t
    case Node(FnType, kids) =>
      var n := |kids| - 2;
      && n >= 3 && IsWord(kids, 0, Fn) && Is(kids, 1, LParen) && Listed(kids[2..n], Types, RParen, From(kids, n, rest))
      && Is(kids, n, Arrow) && TypeForm(kids[n + 1], rest)
    case Node(TypeUnion, kids) =>
      |kids| >= 3 && NamedForm(kids[0], From(kids, 1, rest)) && UnionForm(kids[1..], rest)
    case _ => NamedForm(t, rest) && !Starts(rest, Bar)
  }

  predicate UnionForm(kids: seq<Tree>, rest: seq<Token>)
    decreases kids, 0
  {
    if kids == [] then !Starts(rest, Bar)
    else |kids| >= 2 && Is(kids, 0, Bar) && NamedForm(kids[1], From(kids, 2, rest)) && UnionForm(kids[2..], rest)
  }

  predicate NamedForm(t: Tree, rest: seq<Token>)
    decreases t, 0
  {
    t.Node? && t.kind.TypeName? && IsName(t.kids, 0) && ParamsForm(t.kids[1..], Types, rest)
  }

  /** `< ... >`, or nothing. */
  predicate ParamsForm(kids: seq<Tree>, kind: ItemKind, rest: seq<Token>)
    decreases kids, 0
  {
    if kids == [] then !Starts(rest, Op(Pratt.Lt))
    else Is(kids, 0, Op(Pratt.Lt)) && Listed(kids[1..], kind, Op(Pratt.Gt), rest)
  }

  // ----- patterns -----

  predicate PatternForm(t: Tree, rest: seq<Token>)
    decreases t, 1
  {
    match t
    case Node(PatternOr, kids) =>
      |kids| >= 3 && AtomForm(kids[0], From(kids, 1, rest)) && AlternativesForm(kids[1..], rest)
    case _ => AtomForm(t, rest) && !Starts(rest, Bar)
  }

  predicate AlternativesForm(kids: seq<Tree>, rest: seq<Token>)
    decreases kids, 0
  {
    if kids == [] then !Starts(rest, Bar)
    else |kids| >= 2 && Is(kids, 0, Bar) && AtomForm(kids[1], From(kids, 2, rest)) && AlternativesForm(kids[2..], rest)
  }

  /** A name with an upper-case letter takes fields or arguments where they follow. */
  predicate AtomForm(t: Tree, rest: seq<Token>)
    decreases t, 0
  {
    match t
    case Leaf(token) =>
      token.Underscore? || IsConstant(token) || (token.Str? && token.sound) || (token.Ident? && !token.upper)
    case Node(PatternAtom, kids) =>
      || (|kids| == 2 && Is(kids, 0, Op(Pratt.Minus)) && kids[1].Leaf? && kids[1].t.Number?)
      || (|kids| > 1 && Is(kids, 0, LBracket) && Listed(kids[1..], ElementPatterns, RBracket, rest))
      || (|kids| > 1 && Is(kids, 0, LBrace) && Listed(kids[1..], FieldPatterns, RBrace, rest))
      || (IsName(kids, 0) && kids[0].t.upper && UpperForm(kids, rest))
    case _ => false
  }

  predicate UpperForm(kids: seq<Tree>, rest: seq<Token>)
    decreases kids, 0
  {
    || (|kids| == 1 && !Starts(rest, LBrace) && !Starts(rest, LParen))
    || (|kids| > 2 && Is(kids, 1, LBrace) && Listed(kids[2..], FieldPatterns, RBrace, rest))
    || (|kids| > 2 && Is(kids, 1, LParen) && Listed(kids[2..], Patterns, RParen, rest))
  }

  // ----- operators -----

  /** Operators that bind at least as tightly as `min`, and none of them behind. */
  predicate Expression(t: Tree, min: nat, rest: seq<Token>)
    decreases t, 4
  {
    Chain(t, min, rest) && !(rest != [] && rest[0].Op? && Pratt.Lbp(rest[0].sym) >= min)
  }

  predicate Chain(t: Tree, min: nat, rest: seq<Token>)
    decreases t, 3
  {
    match t
    case Node(Infix, kids) =>
      && |kids| == 3 && kids[1].Leaf? && kids[1].t.Op? && Pratt.Lbp(kids[1].t.sym) >= min
      && Chain(kids[0], min, From(kids, 1, rest)) && Expression(kids[2], Pratt.Rbp(kids[1].t.sym), rest)
    case _ => Prefixed(t, rest)
  }

  predicate Prefixed(t: Tree, rest: seq<Token>)
    decreases t, 2
  {
    match t
    case Node(Unary, kids) =>
      && |kids| == 2 && (Is(kids, 0, Op(Pratt.Minus)) || IsWord(kids, 0, Not))
      && Expression(kids[1], Pratt.PREFIX_POWER, rest)
    case _ => Applied(t, rest) && !Starts(rest, LParen) && !Starts(rest, LBracket) && !Starts(rest, Dot)
  }

  /** Keywords may name fields and methods, `and` and `or` among them. */
  predicate IsField(kids: seq<Tree>, i: nat) {
    && i < |kids| && kids[i].Leaf?
    && (kids[i].t.Ident? || kids[i].t.Key? || kids[i].t in {Op(Pratt.AndWord), Op(Pratt.OrWord)})
  }

  /** Calls, indexing, fields and methods. */
  predicate Applied(t: Tree, rest: seq<Token>)
    decreases t, 1
  {
    match t
    case Node(Call, kids) =>
      && |kids| > 2 && Applied(kids[0], From(kids, 1, rest)) && Is(kids, 1, LParen)
      && Listed(kids[2..], Exprs, RParen, rest)
    case Node(Index, kids) =>
      && |kids| == 4 && Applied(kids[0], From(kids, 1, rest)) && Is(kids, 1, LBracket)
      && Expression(kids[2], 0, From(kids, 3, rest)) && Is(kids, 3, RBracket)
    case Node(Field, kids) =>
      && |kids| == 3 && Applied(kids[0], From(kids, 1, rest)) && Is(kids, 1, Dot) && IsField(kids, 2)
      && !Starts(rest, LParen)
    case Node(Method, kids) =>
      && |kids| > 4 && Applied(kids[0], From(kids, 1, rest)) && Is(kids, 1, Dot) && IsField(kids, 2)
      && Is(kids, 3, LParen) && Listed(kids[4..], Exprs, RParen, rest)
    case _ => Operand(t, rest)
  }

  // ----- operands -----

  predicate Operand(t: Tree, rest: seq<Token>)
    decreases t, 0
  {
    match t
    case Leaf(token) => IsConstant(token) || token.Ident? || (token.Str? && token.sound)
    case Node(Paren, kids) => ParenForm(kids, rest)
    case Node(Vector, kids) => |kids| > 1 && Is(kids, 0, LBracket) && Listed(kids[1..], Exprs, RBracket, rest)
    case Node(Set, kids) => |kids| > 1 && Is(kids, 0, HashBrace) && Listed(kids[1..], Exprs, RBrace, rest)
    case Node(MapLit, kids) => MapForm(kids, rest)
    case Node(Block, kids) => BlockForm(kids, rest)
    case Node(Marked, kids) => MarkedForm(kids, rest)
    case Node(Jump, kids) => JumpForm(kids, rest)
    case Node(LambdaExpr, kids) => |kids| > 2 && IsWord(kids, 0, Fn) && FunctionForm(kids[1..], rest)
    case Node(IfExpr, kids) => IfForm(kids, rest)
    case Node(MatchExpr, kids) => MatchForm(kids, rest)
    case Node(WhileExpr, kids) => WhileForm(kids, rest)
    case Node(ForExpr, kids) => ForForm(kids, rest)
    case Node(TryExpr, kids) => TryForm(kids, rest)
    case Node(SpawnExpr, kids) => SpawnForm(kids, rest)
    case _ => false
  }

  /** A name in parentheses in front of `=>` would be the parameter of an arrow function. */
  predicate ParenForm(kids: seq<Tree>, rest: seq<Token>)
    decreases kids, 0
  {
    && |kids| == 3 && Is(kids, 0, LParen) && Expression(kids[1], 0, From(kids, 2, rest)) && Is(kids, 2, RParen)
    && !(IsName(kids, 1) && Starts(rest, FatArrow))
  }

  predicate MarkedForm(kids: seq<Tree>, rest: seq<Token>)
    decreases kids, 0
  {
    && |kids| == 2 && Expression(kids[1], 0, rest)
    && (|| IsWord(kids, 0, Raise) || IsWord(kids, 0, Reply) || IsWord(kids, 0, Await) || IsWord(kids, 0, Shared)
        || IsWord(kids, 0, Transact) || IsWord(kids, 0, Loop))
  }

  /** `return` and `break` take a value wherever one can begin. */
  predicate JumpForm(kids: seq<Tree>, rest: seq<Token>)
    decreases kids, 0
  {
    if |kids| == 2 then (IsWord(kids, 0, Return) || IsWord(kids, 0, Break)) && Expression(kids[1], 0, rest)
    else
      && |kids| == 1
      && (|| IsWord(kids, 0, Yield) || IsWord(kids, 0, Retry) || IsWord(kids, 0, Continue)
          || ((IsWord(kids, 0, Return) || IsWord(kids, 0, Break))
              && (rest == [] || rest[0].Semicolon? || rest[0].RBrace? || rest[0].Comma?)))
  }

  /** Parameters, perhaps the type of the result, and the body. */
  predicate FunctionForm(kids: seq<Tree>, rest: seq<Token>)
    decreases kids, 0
  {
    && |kids| > 2 && Is(kids, 0, LParen) && Expression(kids[|kids| - 1], 0, rest)
    && (|| Listed(kids[1..|kids| - 1], Params, RParen, From(kids, |kids| - 1, rest))
        || (var n := |kids| - 3;
            && n > 1 && Listed(kids[1..n], Params, RParen, From(kids, n, rest)) && Is(kids, n, Arrow)
            && TypeForm(kids[n + 1], From(kids, n + 2, rest))))
  }

  /** An `else` belongs to the `if` before it. */
  predicate IfForm(kids: seq<Tree>, rest: seq<Token>)
    decreases kids, 0
  {
    && (|kids| == 3 || |kids| == 5) && IsWord(kids, 0, If)
    && Expression(kids[1], 0, From(kids, 2, rest)) && Expression(kids[2], 0, From(kids, 3, rest))
    && if |kids| == 3 then !Starts(rest, Key(Else)) else IsWord(kids, 3, Else) && ElseForm(kids[4], rest)
  }

  /** Behind `else if` there is nothing but the conditional: no operator takes it for its operand. */
  predicate ElseForm(t: Tree, rest: seq<Token>)
    decreases t, 5
  {
    if Starts(Tokens(t), Key(If)) then t.Node? && t.kind.IfExpr? && IfForm(t.kids, rest) else Expression(t, 0, rest)
  }

  predicate WhileForm(kids: seq<Tree>, rest: seq<Token>)
    decreases kids, 0
  {
    && |kids| == 3 && IsWord(kids, 0, While)
    && Expression(kids[1], 0, From(kids, 2, rest)) && Expression(kids[2], 0, rest)
  }

  predicate ForForm(kids: seq<Tree>, rest: seq<Token>)
    decreases kids, 0
  {
    && |kids| == 5 && IsWord(kids, 0, For) && IsName(kids, 1) && IsWord(kids, 2, In)
    && Expression(kids[3], 0, From(kids, 4, rest)) && Expression(kids[4], 0, rest)
  }

  predicate SpawnForm(kids: seq<Tree>, rest: seq<Token>)
    decreases kids, 0
  {
    && |kids| > 3 && IsWord(kids, 0, Spawn) && IsName(kids, 1) && Is(kids, 2, LParen)
    && Listed(kids[3..], Exprs, RParen, rest)
  }

  predicate MatchForm(kids: seq<Tree>, rest: seq<Token>)
    decreases kids, 0
  {
    var n := |kids| - 1;
    && n >= 3 && IsWord(kids, 0, Match) && Expression(kids[1], 0, From(kids, 2, rest)) && Is(kids, 2, LBrace)
    && ArmsForm(kids[3..n], From(kids, n, rest)) && Is(kids, n, RBrace)
  }

  /** Arms, each with a comma or without. */
  predicate ArmsForm(kids: seq<Tree>, rest: seq<Token>)
    decreases kids, 0
  {
    kids == [] || (
      && kids[0].Node? && kids[0].kind.ArmOf? && ArmForm(kids[0].kids, From(kids, 1, rest))
      && ArmsForm(if Is(kids, 1, Comma) then kids[2..] else kids[1..], rest))
  }

  predicate ArmForm(kids: seq<Tree>, rest: seq<Token>)
    decreases kids, 0
  {
    var n := |kids| - 2;
    && (n == 1 || n == 3) && PatternForm(kids[0], From(kids, 1, rest))
    && (n == 3 ==> IsWord(kids, 1, If) && Expression(kids[2], 0, From(kids, 3, rest)))
    && Is(kids, n, FatArrow) && Expression(kids[n + 1], 0, rest)
  }

  predicate TryForm(kids: seq<Tree>, rest: seq<Token>)
    decreases kids, 0
  {
    |kids| >= 2 && IsWord(kids, 0, Try) && Expression(kids[1], 0, From(kids, 2, rest)) && RescuesForm(kids[2..], rest)
  }

  /** Rescues, and perhaps what is ensured. */
  predicate RescuesForm(kids: seq<Tree>, rest: seq<Token>)
    decreases kids, 0
  {
    if kids == [] then !Starts(rest, Key(Rescue)) && !Starts(rest, Key(Ensure))
    else if IsWord(kids, 0, Ensure) then |kids| == 2 && Expression(kids[1], 0, rest)
    else
      && kids[0].Node? && kids[0].kind.RescueOf? && RescueForm(kids[0].kids, From(kids, 1, rest))
      && RescuesForm(kids[1..], rest)
  }

  /** `rescue`, perhaps the name of an error, perhaps `as` and a name for it, and the handler. */
  predicate RescueForm(kids: seq<Tree>, rest: seq<Token>)
    decreases kids, 0
  {
    var n := |kids| - 1;
    && n >= 1 && IsWord(kids, 0, Rescue) && Expression(kids[n], 0, rest)
    && match n
       case 1 => !StartsName(Tokens(kids[1]))
       case 2 => IsName(kids, 1)
       case 3 => IsWord(kids, 1, As) && IsName(kids, 2)
       case 4 => IsName(kids, 1) && IsWord(kids, 2, As) && IsName(kids, 3)
       case _ => false
  }

  // ----- braces -----

  predicate Declared(ts: seq<Token>) {
    ts != [] && Declares(ts[0])
  }

  /** Nothing in braces is a map, and so is what has a colon behind its first expression. */
  predicate MapForm(kids: seq<Tree>, rest: seq<Token>)
    decreases kids, 0
  {
    || kids == [Leaf(LBrace), Leaf(RBrace)]
    || (|kids| > 1 && Is(kids, 0, LBrace) && !Declared(Tokens(kids[1])) && Entries(kids[1..], rest))
  }

  predicate Entries(kids: seq<Tree>, rest: seq<Token>)
    decreases kids, 1
  {
    && |kids| > 3 && Expression(kids[0], 0, From(kids, 1, rest)) && Is(kids, 1, Colon)
    && Expression(kids[2], 0, From(kids, 3, rest)) && EntriesEnd(kids[3..], rest)
  }

  /** More entries, or the end; a comma may stand before the closing brace. */
  predicate EntriesEnd(kids: seq<Tree>, rest: seq<Token>)
    decreases kids, 0
  {
    || kids == [Leaf(RBrace)] || kids == [Leaf(Comma), Leaf(RBrace)]
    || (|kids| > 1 && Is(kids, 0, Comma) && Entries(kids[1..], rest))
  }

  /** A single expression without a semicolon is no statement, unless a word that begins declarations begins it. */
  predicate BlockForm(kids: seq<Tree>, rest: seq<Token>)
    decreases kids, 0
  {
    var n := |kids| - 1;
    && n >= 2 && Is(kids, 0, LBrace) && Is(kids, n, RBrace)
    && if Declared(Tokens(kids[1])) then BodyForm(kids[1..n], From(kids, n, rest))
       else
         || (n == 2 && Expression(kids[1], 0, From(kids, n, rest)))
         || (&& kids[1].Node? && kids[1].kind.Semi? && Statement(kids[1], From(kids, 2, rest))
             && BodyForm(kids[2..n], From(kids, n, rest)))
  }

  /** Statements, each with a semicolon of its own or without; an expression without one is the last. */
  predicate BodyForm(kids: seq<Tree>, rest: seq<Token>)
    decreases kids, 0
  {
    kids == [] || (
      && Statement(kids[0], From(kids, 1, rest))
      && if IsBare(kids[0]) then |kids| == 1
         else if Starts(From(kids, 1, rest), Semicolon) then Is(kids, 1, Semicolon) && BodyForm(kids[2..], rest)
         else BodyForm(kids[1..], rest))
  }

  predicate IsBare(t: Tree) {
    t.Node? && t.kind.Bare?
  }

  // ----- statements -----

  predicate Statement(t: Tree, rest: seq<Token>)
    decreases t, 6
  {
    match t
    case Node(LetStmt, kids) => LetForm(kids, rest)
    case Node(FnStmt, kids) => |kids| > 3 && IsWord(kids, 0, Fn) && IsName(kids, 1) && FunctionForm(kids[2..], rest)
    case Node(OnStmt, kids) => |kids| > 3 && IsWord(kids, 0, On) && IsName(kids, 1) && FunctionForm(kids[2..], rest)
    case Node(TypeStmt, kids) => TypeDefForm(kids, rest)
    case Node(EnumStmt, kids) => EnumForm(kids, rest)
    case Node(ActorStmt, kids) => ActorForm(kids, rest)
    case Node(ImportStmt, kids) => ImportForm(kids, rest)
    case Node(Semi, kids) =>
      && |kids| == 2 && Expression(kids[0], 0, From(kids, 1, rest)) && Is(kids, 1, Semicolon)
      && !Declaration(From(kids, 0, rest))
    case Node(Bare, kids) =>
      && |kids| == 1 && Expression(kids[0], 0, rest) && !Starts(rest, Semicolon)
      && !Declaration(From(kids, 0, rest))
    case _ => false
  }

  /** What begins like `shared name =` or `shared name :` is no expression. */
  predicate Declaration(ts: seq<Token>) {
    |ts| >= 3 && ts[0] == Key(Shared) && ts[1].Ident? && (ts[2] == Op(Pratt.Set) || ts[2].Colon?)
  }

  predicate LetForm(kids: seq<Tree>, rest: seq<Token>)
    decreases kids, 0
  {
    var n := |kids| - 2;
    && (n == 2 || n == 4) && IsName(kids, 1)
    && (IsWord(kids, 0, Let) || IsWord(kids, 0, State) || IsWord(kids, 0, Shared))
    && (n == 4 ==> Is(kids, 2, Colon) && TypeForm(kids[3], From(kids, 4, rest)))
    && Is(kids, n, Op(Pratt.Set)) && Expression(kids[n + 1], 0, rest)
  }

  predicate TypeDefForm(kids: seq<Tree>, rest: seq<Token>)
    decreases kids, 0
  {
    && IsWord(kids, 0, Type) && IsName(kids, 1)
    && exists n | 2 <= n < |kids| - 2 ::
         && ParamsForm(kids[2..n], Names, From(kids, n, rest)) && Is(kids, n, Op(Pratt.Set)) && Is(kids, n + 1, LBrace)
         && Listed(kids[n + 2..], FieldDecls, RBrace, rest)
  }

  predicate EnumForm(kids: seq<Tree>, rest: seq<Token>)
    decreases kids, 0
  {
    && IsWord(kids, 0, Enum) && IsName(kids, 1)
    && exists n | 2 <= n < |kids| - 1 ::
         && ParamsForm(kids[2..n], Names, From(kids, n, rest)) && Is(kids, n, LBrace)
         && Listed(kids[n + 1..], Variants, RBrace, rest)
  }

  predicate ActorForm(kids: seq<Tree>, rest: seq<Token>)
    decreases kids, 0
  {
    var n := |kids| - 1;
    && n >= 3 && IsWord(kids, 0, Actor) && IsName(kids, 1) && Is(kids, 2, LBrace)
    && ListForm(kids[3..n], false, From(kids, n, rest)) && Is(kids, n, RBrace)
  }

  /** Any keyword does for `import` behind `lazy`. */
  predicate ImportForm(kids: seq<Tree>, rest: seq<Token>) {
    || (IsWord(kids, 0, Import) && PathForm(kids[1..], rest))
    || (&& |kids| > 2 && IsWord(kids, 0, Lazy) && IsField(kids, 1) && !kids[1].t.Ident? && PathForm(kids[2..], rest))
  }

  predicate PathForm(kids: seq<Tree>, rest: seq<Token>) {
    && IsName(kids, 0)
    && match |kids|
       case 1 => !Starts(rest, Dot) && !Starts(rest, Key(As))
       case _ =>
         || (Is(kids, 1, Dot) && PathForm(kids[2..], rest))
         || (|kids| == 3 && IsWord(kids, 1, As) && IsName(kids, 2))
  }

  /** Statements and semicolons, to the end of the file or of the braces around. */
  predicate ListForm(kids: seq<Tree>, topLevel: bool, rest: seq<Token>)
    decreases kids, 0
  {
    if kids == [] then rest == [] || (!topLevel && Starts(rest, RBrace))
    else
      && (Is(kids, 0, Semicolon) || Statement(kids[0], From(kids, 1, rest)))
      && ListForm(kids[1..], topLevel, rest)
  }

  /** A whole file. */
  predicate Program(kids: seq<Tree>) {
    ListForm(kids, true, [])
  }
}
