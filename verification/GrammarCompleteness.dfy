/**
 Every program of the grammar is parsed as it stands: no construct is missing
 from the parser, none is read in another way, and nothing is reported.
 */
module GrammarCompleteness {
  import Pratt
  import opened Grammar
  import opened GrammarUnfoldings
  import opened GrammarLaws
  import opened LanguageGrammar
  import opened GrammarParts
  import Recovery

  // ----- standing between the parts of a construct -----

  /** The parts before `i` are parsed behind what there was in `b`, and the others are to come. */
  function Stand(b: Draft, kids: seq<Tree>, i: nat, rest: seq<Token>): Draft
    requires i <= |kids|
  {
    Draft(b.kids + kids[..i], From(kids, i, rest), b.errors)
  }

  lemma StandNext(b: Draft, kids: seq<Tree>, i: nat, rest: seq<Token>)
    requires i < |kids|
    ensures var d, e := Stand(b, kids, i, rest), Stand(b, kids, i + 1, rest);
            && d.rest == Tokens(kids[i]) + From(kids, i + 1, rest)
            && e == Draft(d.kids + [kids[i]], From(kids, i + 1, rest), d.errors)
  {
    TokensSplit(kids[i..]);
    hide TokensOf, Tokens;
    assert kids[i..][1..] == kids[i + 1..] && kids[i..][0] == kids[i];
    assert kids[..i + 1] == kids[..i] + [kids[i]];
  }

  lemma StandBegin(b: Draft, kids: seq<Tree>, rest: seq<Token>)
    ensures Stand(b, kids, 0, rest) == Draft(b.kids, TokensOf(kids) + rest, b.errors)
    ensures Stand(b, kids, |kids|, rest) == Draft(b.kids + kids, rest, b.errors)
  {
    TokensSplit([]);
    hide TokensOf;
    assert kids[0..] == kids && kids[..|kids|] == kids && kids[|kids|..] == [] && b.kids + [] == b.kids;
  }

  /** A token of the construct is consumed. */
  lemma StandTake(b: Draft, kids: seq<Tree>, i: nat, rest: seq<Token>)
    requires i < |kids| && kids[i].Leaf?
    ensures var d, t := Stand(b, kids, i, rest), kids[i].t;
            && At(d, t) && Take(d) == Stand(b, kids, i + 1, rest) && Need(d, t) == Stand(b, kids, i + 1, rest)
            && d.rest == [t] + From(kids, i + 1, rest)
  {
    StandNext(b, kids, i, rest);
    NodeTokens(kids[i]);
    hide Stand, From, Tokens;
    var d := Stand(b, kids, i, rest);
    assert d.rest[1..] == From(kids, i + 1, rest);
    TakeIs(d);
  }

  /** The parts from `i` to `j`, as a list of their own. */
  lemma StandSome(b: Draft, kids: seq<Tree>, i: nat, j: nat, rest: seq<Token>)
    requires i <= j <= |kids|
    ensures var d, e := Stand(b, kids, i, rest), Stand(b, kids, j, rest);
            && d.rest == TokensOf(kids[i..j]) + From(kids, j, rest)
            && e == Draft(d.kids + kids[i..j], From(kids, j, rest), d.errors)
  {
    TokensJoin(kids[i..j], kids[j..]);
    hide TokensOf;
    assert kids[i..j] + kids[j..] == kids[i..] && kids[..i] + kids[i..j] == kids[..j];
    assert (TokensOf(kids[i..j]) + TokensOf(kids[j..])) + rest == TokensOf(kids[i..j]) + (TokensOf(kids[j..]) + rest);
    assert (b.kids + kids[..i]) + kids[i..j] == b.kids + (kids[..i] + kids[i..j]);
  }

  lemma StandIs(b: Draft, kids: seq<Tree>, i: nat, rest: seq<Token>)
    requires i <= |kids|
    ensures Stand(b, kids, i, rest) == Draft(b.kids + kids[..i], From(kids, i, rest), b.errors)
  {
  }

  /** A construct of its own, of which all parts were parsed. */
  lemma WholeReads(kind: Kind, d: Draft, kids: seq<Tree>, rest: seq<Token>, r: Outcome)
    requires d.rest == Tokens(Node(kind, kids)) + rest
    requires r == Ok(Draft(kids, rest, d.errors))
    ensures Follows(Fresh(d), r)
    ensures Whole(kind, d, r) == Ok(Draft(d.kids + [Node(kind, kids)], rest, d.errors))
  {
    NodeTokens(Node(kind, kids));
    TokensSplit([]);
    FreshIs(d);
    hide TokensOf, Tokens, Fresh;
    assert [] + d.rest == d.rest;
    WholeIs(kind, d, r);
  }

  /** Where a construct begins, and behind its first token. */
  lemma WholeBegins(kind: Kind, d: Draft, kids: seq<Tree>, rest: seq<Token>)
    requires d.rest == Tokens(Node(kind, kids)) + rest
    ensures Fresh(d) == Stand(Fresh(d), kids, 0, rest)
    ensures Draft(kids, rest, d.errors) == Stand(Fresh(d), kids, |kids|, rest)
    ensures kids != [] && kids[0].Leaf? ==> At(d, kids[0].t) && Take(Fresh(d)) == Stand(Fresh(d), kids, 1, rest)
  {
    NodeTokens(Node(kind, kids));
    FreshIs(d);
    StandBegin(Fresh(d), kids, rest);
    hide TokensOf, Tokens, Stand;
    assert [] + kids == kids;
    if kids != [] && kids[0].Leaf? {
      StandTake(Fresh(d), kids, 0, rest);
    }
  }

  // ----- one part after the other -----

  lemma {:induction false} ExprStep(b: Draft, kids: seq<Tree>, i: nat, min: nat, rest: seq<Token>)
    requires i < |kids| && Expression(kids[i], min, From(kids, i + 1, rest))
    ensures Expr(Stand(b, kids, i, rest), min) == Ok(Stand(b, kids, i + 1, rest))
    decreases kids, 0
  {
    hide *;
    StandNext(b, kids, i, rest);
    ExprReads(kids[i], min, From(kids, i + 1, rest), Stand(b, kids, i, rest));
  }

  lemma {:induction false} TypeStep(b: Draft, kids: seq<Tree>, i: nat, rest: seq<Token>)
    requires i < |kids| && TypeForm(kids[i], From(kids, i + 1, rest))
    ensures TypeOf(Stand(b, kids, i, rest)) == Ok(Stand(b, kids, i + 1, rest))
    decreases kids, 0
  {
    hide *;
    StandNext(b, kids, i, rest);
    TypeReads(kids[i], From(kids, i + 1, rest), Stand(b, kids, i, rest));
  }

  lemma {:induction false} PatternStep(b: Draft, kids: seq<Tree>, i: nat, rest: seq<Token>)
    requires i < |kids| && PatternForm(kids[i], From(kids, i + 1, rest))
    ensures Pattern(Stand(b, kids, i, rest)) == Ok(Stand(b, kids, i + 1, rest))
    decreases kids, 0
  {
    hide *;
    StandNext(b, kids, i, rest);
    PatternReads(kids[i], From(kids, i + 1, rest), Stand(b, kids, i, rest));
  }

  lemma {:induction false} ListStep(b: Draft, kids: seq<Tree>, i: nat, j: nat, kind: ItemKind, closer: Token,
                                    rest: seq<Token>)
    requires 0 < i <= j <= |kids| && Shuts(closer) && Listed(kids[i..j], kind, closer, From(kids, j, rest))
    ensures Items(Stand(b, kids, i, rest), kind, closer) == Ok(Stand(b, kids, j, rest))
    decreases kids, 0
  {
    hide *;
    StandSome(b, kids, i, j, rest);
    SliceSmaller(kids, i, j);
    assert j == |kids| ==> kids[i..j] == kids[i..];
    ListedReads(kids[i..j], kind, closer, From(kids, j, rest), Stand(b, kids, i, rest));
  }

  lemma SliceSmaller(kids: seq<Tree>, i: nat, j: nat)
    requires 0 < i <= j <= |kids|
    ensures kids[i..j] == kids[i..][..j - i]
  {
  }

  lemma NameStep(b: Draft, kids: seq<Tree>, i: nat, rest: seq<Token>)
    requires IsName(kids, i)
    ensures AtName(Stand(b, kids, i, rest)) && Take(Stand(b, kids, i, rest)) == Stand(b, kids, i + 1, rest)
    ensures Name(Stand(b, kids, i, rest)) == Ok(Stand(b, kids, i + 1, rest))
  {
    StandTake(b, kids, i, rest);
    hide Stand, Take, Need, From;
  }

  // ----- lists -----

  lemma {:induction false} ListedReads(ks: seq<Tree>, kind: ItemKind, closer: Token, rest: seq<Token>, d: Draft)
    requires Listed(ks, kind, closer, rest) && Shuts(closer) && d.rest == TokensOf(ks) + rest
    ensures Items(d, kind, closer) == Ok(Draft(d.kids + ks, rest, d.errors))
    decreases ks, 3
  {
    hide Many, ItemsLoop, Take, Need, Stand, From, Tokens, TokensOf, Shuts;
    StandBegin(d, ks, rest);
    if ks == [Leaf(closer)] {
      StandTake(d, ks, 0, rest);
    } else {
      ManyBegins(ks, kind, closer, rest);
      ManyReads(ks, kind, closer, rest, d);
    }
  }

  lemma {:induction false} ManyReads(ks: seq<Tree>, kind: ItemKind, closer: Token, rest: seq<Token>, d: Draft)
    requires Many(ks, kind, closer, rest) && Shuts(closer) && d.rest == TokensOf(ks) + rest
    ensures ItemsLoop(d, kind, closer) == Ok(Draft(d.kids + ks, rest, d.errors))
    decreases ks, 2
  {
    hide ItemForm, OneItem, Take, Need, Stand, From, Tokens, TokensOf, ItemsLoop, Inner;
    StandBegin(d, ks, rest);
    ItemsLoopIs(d, kind, closer);
    if Remainder(ks, kind, closer) {
      StandTake(d, ks, 0, rest);
      if |ks| == 3 {
        NameStep(d, ks, 1, rest);
        StandTake(d, ks, 2, rest);
      } else {
        StandTake(d, ks, 1, rest);
      }
    } else {
      var n :| 0 < n < |ks| && ItemForm(ks[..n], kind, From(ks, n, rest))
               && ((n + 1 == |ks| && Is(ks, n, closer)) || (Is(ks, n, Comma) && Many(ks[n + 1..], kind, closer, rest)));
      ManyOn(ks, n, kind, closer, rest, d);
    }
  }

  /** One item, and the rest of the list. */
  lemma {:induction false} ManyOn(ks: seq<Tree>, n: nat, kind: ItemKind, closer: Token, rest: seq<Token>, d: Draft)
    requires 0 < n < |ks| && ItemForm(ks[..n], kind, From(ks, n, rest)) && Shuts(closer)
    requires d.rest == TokensOf(ks) + rest
    requires (n + 1 == |ks| && Is(ks, n, closer)) || (Is(ks, n, Comma) && Many(ks[n + 1..], kind, closer, rest))
    ensures ItemsLoop(d, kind, closer) == Ok(Draft(d.kids + ks, rest, d.errors))
    decreases ks, 1
  {
    hide *;
    StandBegin(d, ks, rest);
    ItemsLoopIs(d, kind, closer);
    StandSome(d, ks, 0, n, rest);
    assert ks[0..n] == ks[..n];
    ItemBegins(ks[..n], kind, From(ks, n, rest));
    ItemReads(ks[..n], kind, From(ks, n, rest), d);
    AtIs(d, DotDot);
    InnerMeans(TokensOf(ks[..n])[0]);
    IsMeans(ks, n);
    StandTake(d, ks, n, rest);
    var after := Stand(d, ks, n, rest);
    AtIs(after, Comma);
    CloserMeans(closer);
    if Is(ks, n, Comma) && !Is(ks, n, closer) {
      StandSome(d, ks, n + 1, |ks|, rest);
      assert ks[n + 1..|ks|] == ks[n + 1..];
      StandIs(d, ks, |ks|, rest);
      ManyReads(ks[n + 1..], kind, closer, rest, Stand(d, ks, n + 1, rest));
    }
  }

  lemma {:induction false} ItemReads(ks: seq<Tree>, kind: ItemKind, rest: seq<Token>, d: Draft)
    requires ItemForm(ks, kind, rest) && d.rest == TokensOf(ks) + rest
    ensures OneItem(d, kind) == Ok(Draft(d.kids + ks, rest, d.errors))
    decreases ks, 2
  {
    hide Expr, Expression, TypeOf, TypeForm, Pattern, PatternForm, Typed, Items, Listed, Take, Need, Stand, From, Name;
    hide Tokens, TokensOf, MaybeType;
    StandBegin(d, ks, rest);
    ToTheEnd(ks, 0, rest);
    match kind
    case Exprs => ExprStep(d, ks, 0, 0, rest);
    case Types => TypeStep(d, ks, 0, rest);
    case Names => NameStep(d, ks, 0, rest);
    case Params => ParamReads(ks, rest, d);
    case FieldDecls => FieldReads(ks, rest, d);
    case Variants => VariantReads(ks, rest, d);
    case FieldPatterns => FieldPatternReads(ks, rest, d);
    case _ => PatternStep(d, ks, 0, rest);
  }

  lemma EndStarts(ks: seq<Tree>, rest: seq<Token>, d: Draft, t: Token)
    ensures At(Stand(d, ks, |ks|, rest), t) <==> Starts(rest, t)
  {
    StandBegin(d, ks, rest);
    hide Stand;
  }

  lemma {:induction false} ParamReads(ks: seq<Tree>, rest: seq<Token>, d: Draft)
    requires ItemForm(ks, Params, rest) && d.rest == TokensOf(ks) + rest
    ensures OneItem(d, Params) == Ok(Draft(d.kids + ks, rest, d.errors))
    decreases ks, 1
  {
    hide TypeOf, TypeForm, Take, Need, Stand, From, Name, Starts, Tokens, TokensOf;
    StandBegin(d, ks, rest);
    NameStep(d, ks, 0, rest);
    if |ks| == 1 {
      EndStarts(ks, rest, d, Colon);
    } else {
      StandTake(d, ks, 1, rest);
      ToTheEnd(ks, 3, rest);
      TypeStep(d, ks, 2, rest);
    }
  }

  lemma {:induction false} FieldReads(ks: seq<Tree>, rest: seq<Token>, d: Draft)
    requires Typed(ks, rest) && d.rest == TokensOf(ks) + rest
    ensures OneItem(d, FieldDecls) == Ok(Draft(d.kids + ks, rest, d.errors))
    decreases ks, 1
  {
    hide TypeOf, TypeForm, Take, Need, Stand, From, Name, Tokens, TokensOf;
    StandBegin(d, ks, rest);
    NameStep(d, ks, 0, rest);
    StandTake(d, ks, 1, rest);
    ToTheEnd(ks, 3, rest);
    TypeStep(d, ks, 2, rest);
  }

  lemma {:induction false} VariantReads(ks: seq<Tree>, rest: seq<Token>, d: Draft)
    requires ItemForm(ks, Variants, rest) && d.rest == TokensOf(ks) + rest
    ensures OneItem(d, Variants) == Ok(Draft(d.kids + ks, rest, d.errors))
    decreases ks, 1
  {
    hide Items, Listed, Take, Need, Stand, From, Name, Starts, Tokens, TokensOf;
    StandBegin(d, ks, rest);
    NameStep(d, ks, 0, rest);
    if |ks| == 1 {
      EndStarts(ks, rest, d, LParen);
    } else {
      StandTake(d, ks, 1, rest);
      ToTheEnd(ks, 2, rest);
      ListStep(d, ks, 2, |ks|, Types, RParen, rest);
    }
  }

  lemma {:induction false} FieldPatternReads(ks: seq<Tree>, rest: seq<Token>, d: Draft)
    requires ItemForm(ks, FieldPatterns, rest) && d.rest == TokensOf(ks) + rest
    ensures OneItem(d, FieldPatterns) == Ok(Draft(d.kids + ks, rest, d.errors))
    decreases ks, 1
  {
    hide Pattern, PatternForm, Take, Need, Stand, From, Name, Starts, Tokens, TokensOf;
    StandBegin(d, ks, rest);
    NameStep(d, ks, 0, rest);
    if |ks| == 1 {
      EndStarts(ks, rest, d, Colon);
    } else {
      StandTake(d, ks, 1, rest);
      ToTheEnd(ks, 3, rest);
      PatternStep(d, ks, 2, rest);
    }
  }

  // ----- types -----

  lemma {:induction false} TypeReads(t: Tree, rest: seq<Token>, d: Draft)
    requires TypeForm(t, rest) && d.rest == Tokens(t) + rest
    ensures TypeOf(d) == Ok(Draft(d.kids + [t], rest, d.errors))
    decreases t, 3
  {
    hide NamedType, NamedForm, UnionLoop, UnionForm, FunctionType, Listed, Take, Need, Stand, From, Whole, Join, Starts;
    hide Tokens, TokensOf, Fresh;
    TypeBegins(t, rest);
    AtIs(d, Key(Fn));
    var kids, f := t.kids, Fresh(d);
    FreshIs(d);
    if t.kind.FnType? {
      WholeBegins(FnType, d, kids, rest);
      FunctionTypeReads(kids, rest, f);
      WholeReads(FnType, d, kids, rest, Ok(Draft(kids, rest, d.errors)));
    } else if t.kind.TypeUnion? {
      WholeBegins(TypeUnion, d, kids, rest);
      UnionReads(kids, rest, f);
      WholeReads(TypeUnion, d, kids, rest, Ok(Draft(kids, rest, d.errors)));
    } else {
      NamedReads(t, rest, f);
      OneJoined(d, t, rest);
      AtIs(Draft([t], rest, d.errors), Bar);
      StartsIs(rest, Bar);
    }
  }

  /** One tree, behind what there was. */
  lemma OneJoined(d: Draft, t: Tree, rest: seq<Token>)
    requires d.rest == Tokens(t) + rest
    ensures [] + [t] == [t]
    ensures Onward(Fresh(d), Draft([t], rest, d.errors))
    ensures Join(d, Draft([t], rest, d.errors)) == Draft(d.kids + [t], rest, d.errors)
  {
    TokensOfOne(t);
    TokensSplit([]);
    FreshIs(d);
    hide TokensOf, Tokens, Fresh;
    assert [] + d.rest == d.rest;
    JoinIs(d, Draft([t], rest, d.errors));
  }

  lemma {:induction false} FunctionTypeReads(kids: seq<Tree>, rest: seq<Token>, f: Draft)
    requires TypeForm(Node(FnType, kids), rest) && f == Stand(f, kids, 0, rest) && f.kids == []
    ensures f.rest != [] && FunctionType(f) == Ok(Stand(f, kids, |kids|, rest))
    decreases kids, 1
  {
    hide *;
    var n := FunctionTypeParts(kids, rest);
    StandTake(f, kids, 0, rest);
    StandTake(f, kids, 1, rest);
    FunctionTypeIs(f);
    ListStep(f, kids, 2, n, Types, RParen, rest);
    StandTake(f, kids, n, rest);
    TypeStep(f, kids, n + 1, rest);
  }

  lemma {:induction false} UnionReads(kids: seq<Tree>, rest: seq<Token>, f: Draft)
    requires TypeForm(Node(TypeUnion, kids), rest) && f == Stand(f, kids, 0, rest)
    ensures NamedType(f).Ok? && At(NamedType(f).d, Bar)
    ensures UnionLoop(NamedType(f).d) == Ok(Stand(f, kids, |kids|, rest))
    decreases kids, 1
  {
    hide NamedType, NamedForm, UnionLoop, Take, Need, Stand, From, Tokens, TokensOf, Starts, Listed;
    StandNext(f, kids, 0, rest);
    NamedReads(kids[0], From(kids, 1, rest), f);
    UnionOn(f, kids, 1, rest);
    UnionBar(kids, rest);
    StandTake(f, kids, 1, rest);
  }

  /** Further members of a union. */
  lemma {:induction false} UnionOn(b: Draft, kids: seq<Tree>, i: nat, rest: seq<Token>)
    requires 0 < i <= |kids| && UnionForm(kids[i..], rest)
    ensures UnionLoop(Stand(b, kids, i, rest)) == Ok(Stand(b, kids, |kids|, rest))
    decreases kids, 0, |kids| - i
  {
    UnionPart(kids, i, rest);
    hide *;
    var d := Stand(b, kids, i, rest);
    UnionLoopIs(d);
    if i == |kids| {
      EndStarts(kids, rest, b, Bar);
    } else {
      StandTake(b, kids, i, rest);
      StandNext(b, kids, i + 1, rest);
      NamedReads(kids[i + 1], From(kids, i + 2, rest), Stand(b, kids, i + 1, rest));
      UnionOn(b, kids, i + 2, rest);
    }
  }

  lemma {:induction false} NamedReads(t: Tree, rest: seq<Token>, d: Draft)
    requires NamedForm(t, rest) && d.rest == Tokens(t) + rest
    ensures NamedType(d) == Ok(Draft(d.kids + [t], rest, d.errors))
    decreases t, 2
  {
    hide ParamsForm, TypeParams, Take, Need, Stand, From, Whole, Tokens, TokensOf, Fresh, Name;
    var kids, f := t.kids, Fresh(d);
    WholeBegins(TypeName, d, kids, rest);
    NameStep(f, kids, 0, rest);
    ParamsRead(f, kids, 1, |kids|, Types, rest) by { ToTheEnd(kids, 1, rest); }
    FreshIs(d);
    WholeReads(TypeName, d, kids, rest, Ok(Draft(kids, rest, d.errors)));
  }

  /** Parameters of a type, or none. */
  lemma {:induction false} ParamsRead(b: Draft, kids: seq<Tree>, i: nat, j: nat, kind: ItemKind, rest: seq<Token>)
    requires 0 < i <= j <= |kids| && ParamsForm(kids[i..j], kind, From(kids, j, rest))
    ensures TypeParams(Stand(b, kids, i, rest), kind) == Ok(Stand(b, kids, j, rest))
    decreases kids, 1
  {
    hide Items, Listed, Take, Need, Stand, From, Tokens, TokensOf;
    var d := Stand(b, kids, i, rest);
    AtIs(d, Op(Pratt.Lt));
    if i == j {
      StandIs(b, kids, i, rest);
    } else {
      StandTake(b, kids, i, rest);
      assert kids[i..j][1..] == kids[i + 1..j];
      ListStep(b, kids, i + 1, j, kind, Op(Pratt.Gt), rest);
    }
  }

  // ----- patterns -----

  lemma {:induction false} PatternReads(t: Tree, rest: seq<Token>, d: Draft)
    requires PatternForm(t, rest) && d.rest == Tokens(t) + rest
    ensures Pattern(d) == Ok(Draft(d.kids + [t], rest, d.errors))
    decreases t, 3
  {
    hide AtomicPattern, AtomForm, PatternLoop, AlternativesForm, Take, Need, Stand, From, Whole, Join, Starts;
    hide Tokens, TokensOf, Fresh;
    var f := Fresh(d);
    FreshIs(d);
    if t.Node? && t.kind.PatternOr? {
      var kids := t.kids;
      WholeBegins(PatternOr, d, kids, rest);
      AlternativesRead(kids, rest, f);
      WholeReads(PatternOr, d, kids, rest, Ok(Draft(kids, rest, d.errors)));
    } else {
      AtomReads(t, rest, f);
      OneJoined(d, t, rest);
      AtIs(Draft([t], rest, d.errors), Bar);
      StartsIs(rest, Bar);
    }
  }

  lemma {:induction false} AlternativesRead(kids: seq<Tree>, rest: seq<Token>, f: Draft)
    requires PatternForm(Node(PatternOr, kids), rest) && f == Stand(f, kids, 0, rest)
    ensures AtomicPattern(f).Ok? && At(AtomicPattern(f).d, Bar)
    ensures PatternLoop(AtomicPattern(f).d) == Ok(Stand(f, kids, |kids|, rest))
    decreases kids, 1
  {
    hide AtomicPattern, AtomForm, PatternLoop, Take, Need, Stand, From, Tokens, TokensOf, Starts, AlternativesForm;
    StandNext(f, kids, 0, rest);
    AtomReads(kids[0], From(kids, 1, rest), f);
    AlternativesOn(f, kids, 1, rest);
    AlternativePart(kids, 1, rest);
    StandTake(f, kids, 1, rest);
  }

  lemma {:induction false} AlternativesOn(b: Draft, kids: seq<Tree>, i: nat, rest: seq<Token>)
    requires 0 < i <= |kids| && AlternativesForm(kids[i..], rest)
    ensures PatternLoop(Stand(b, kids, i, rest)) == Ok(Stand(b, kids, |kids|, rest))
    decreases kids, 0, |kids| - i
  {
    AlternativePart(kids, i, rest);
    hide *;
    var d := Stand(b, kids, i, rest);
    PatternLoopIs(d);
    if i == |kids| {
      EndStarts(kids, rest, b, Bar);
    } else {
      StandTake(b, kids, i, rest);
      StandNext(b, kids, i + 1, rest);
      AtomReads(kids[i + 1], From(kids, i + 2, rest), Stand(b, kids, i + 1, rest));
      AlternativesOn(b, kids, i + 2, rest);
    }
  }

  lemma {:induction false} AtomReads(t: Tree, rest: seq<Token>, d: Draft)
    requires AtomForm(t, rest) && d.rest == Tokens(t) + rest
    ensures AtomicPattern(d) == Ok(Draft(d.kids + [t], rest, d.errors))
    decreases t, 2
  {
    hide Items, Listed, UpperForm, UpperPattern, Take, Need, Stand, From, Whole, Join, Tokens, TokensOf, Fresh;
    NodeTokens(t);
    if t.Leaf? {
      LeafTaken(d, t.t, rest);
    } else if Is(t.kids, 0, Op(Pratt.Minus)) {
      NegativeReads(d, t.kids, rest);
    } else if Is(t.kids, 0, LBracket) || Is(t.kids, 0, LBrace) {
      ListedAtomReads(t, rest, d);
    } else {
      var kids, f := t.kids, Fresh(d);
      FreshIs(d);
      WholeBegins(PatternAtom, d, kids, rest);
      WholeReads(PatternAtom, d, kids, rest, Ok(Draft(kids, rest, d.errors)));
      UpperReads(f, kids, rest);
    }
  }

  lemma {:induction false} ListedAtomReads(t: Tree, rest: seq<Token>, d: Draft)
    requires AtomForm(t, rest) && d.rest == Tokens(t) + rest && t.Node?
    requires Is(t.kids, 0, LBracket) || Is(t.kids, 0, LBrace)
    ensures AtomicPattern(d) == Ok(Draft(d.kids + [t], rest, d.errors))
    decreases t, 1
  {
    hide Items, Listed, UpperForm, UpperPattern, Take, Need, Stand, From, Whole, Join, Tokens, TokensOf, Fresh;
    var kids, f := t.kids, Fresh(d);
    FreshIs(d);
    WholeBegins(PatternAtom, d, kids, rest);
    WholeReads(PatternAtom, d, kids, rest, Ok(Draft(kids, rest, d.errors)));
    ToTheEnd(kids, 1, rest);
    if Is(kids, 0, LBracket) {
      ListStep(f, kids, 1, |kids|, ElementPatterns, RBracket, rest);
    } else {
      ListStep(f, kids, 1, |kids|, FieldPatterns, RBrace, rest);
    }
  }

  lemma LeafTaken(d: Draft, t: Token, rest: seq<Token>)
    requires d.rest == [t] + rest
    ensures At(d, t) && Take(d) == Draft(d.kids + [Leaf(t)], rest, d.errors)
  {
    TakeIs(d);
    hide Take;
  }

  lemma NegativeReads(d: Draft, kids: seq<Tree>, rest: seq<Token>)
    requires |kids| == 2 && Is(kids, 0, Op(Pratt.Minus)) && kids[1].Leaf? && kids[1].t.Number?
    requires d.rest == Tokens(Node(PatternAtom, kids)) + rest
    ensures AtomicPattern(d) == Ok(Draft(d.kids + [Node(PatternAtom, kids)], rest, d.errors))
  {
    hide Items, UpperPattern, Take, Need, Stand, From, Whole, Join, Tokens, TokensOf, Fresh;
    var f := Fresh(d);
    FreshIs(d);
    WholeBegins(PatternAtom, d, kids, rest);
    StandTake(f, kids, 0, rest);
    StandTake(f, kids, 1, rest);
    var both := Draft(kids, rest, d.errors);
    WrapIs(PatternAtom, both);
    OneJoined(d, Node(PatternAtom, kids), rest);
  }

  lemma {:induction false} UpperReads(b: Draft, kids: seq<Tree>, rest: seq<Token>)
    requires IsName(kids, 0) && UpperForm(kids, rest)
    ensures UpperPattern(Stand(b, kids, 1, rest)) == Ok(Stand(b, kids, |kids|, rest))
    decreases kids, 1
  {
    hide Items, Listed, Take, Need, Stand, From, Tokens, TokensOf, Starts;
    if |kids| == 1 {
      EndStarts(kids, rest, b, LBrace);
      EndStarts(kids, rest, b, LParen);
    } else {
      StandTake(b, kids, 1, rest);
      ToTheEnd(kids, 2, rest);
      if Is(kids, 1, LBrace) {
        ListStep(b, kids, 2, |kids|, FieldPatterns, RBrace, rest);
      } else {
        ListStep(b, kids, 2, |kids|, Patterns, RParen, rest);
      }
    }
  }

  // ----- operators -----

  lemma {:induction false} ExprReads(t: Tree, min: nat, rest: seq<Token>, d: Draft)
    requires Expression(t, min, rest) && d.rest == Tokens(t) + rest
    ensures Expr(d, min) == Ok(Draft(d.kids + [t], rest, d.errors))
    decreases t, 6
  {
    hide *;
    ExpressionIs(t, min, rest);
    ChainReads(t, min, rest, d);
    ExprIs(d, min);
    var e := Draft([t], rest, d.errors);
    LoopStops(e, min);
    OneJoined(d, t, rest);
  }

  lemma LoopStops(d: Draft, min: nat)
    requires !GoesOn(d.rest, min)
    ensures InfixLoop(d, min) == Ok(d)
  {
    InfixLoopIs(d, min);
    hide InfixLoop, Expr, Take, Wrap;
  }

  /** One operator is taken, with its right operand. */
  lemma LoopGoesOn(d: Draft, min: nat, both: Draft)
    requires GoesOn(d.rest, min) && Expr(Take(d), Pratt.Rbp(d.rest[0].sym)) == Ok(both)
    ensures InfixLoop(d, min) == InfixLoop(Draft([Node(Infix, both.kids)], both.rest, both.errors), min)
  {
    InfixLoopIs(d, min);
    WrapIs(Infix, both);
    hide InfixLoop, Expr, Take, Wrap;
  }

  /** The loop over the operators arrives at `t`. */
  lemma {:induction false} ChainReads(t: Tree, min: nat, rest: seq<Token>, d: Draft)
    requires Chain(t, min, rest) && d.rest == Tokens(t) + rest
    ensures var lhs := Prefix(Fresh(d));
            lhs.Ok? && InfixLoop(lhs.d, min) == InfixLoop(Draft([t], rest, d.errors), min)
    decreases t, 5
  {
    hide *;
    ChainIs(t, min, rest);
    FreshIs(d);
    if t.Node? && t.kind.Infix? {
      var kids, f := t.kids, Fresh(d);
      WholeBegins(Infix, d, kids, rest);
      StandNext(f, kids, 0, rest);
      ChainReads(kids[0], min, From(kids, 1, rest), f);
      FreshIs(f);
      var left := Stand(f, kids, 1, rest);
      assert [] + [kids[0]] == [kids[0]];
      StandTake(f, kids, 1, rest);
      GoesOnIf(left, kids[1].t.sym, min);
      ToTheEnd(kids, 3, rest);
      ExprStep(f, kids, 2, Pratt.Rbp(kids[1].t.sym), rest);
      LoopGoesOn(left, min, Stand(f, kids, 3, rest));
    } else {
      PrefixReads(t, rest, Fresh(d));
      assert [] + [t] == [t];
    }
  }

  lemma GoesOnIf(d: Draft, sym: Pratt.Symbol, min: nat)
    requires At(d, Op(sym)) && Pratt.Lbp(sym) >= min
    ensures GoesOn(d.rest, min) && d.rest[0].sym == sym
  {
  }

  lemma {:induction false} PrefixReads(t: Tree, rest: seq<Token>, d: Draft)
    requires Prefixed(t, rest) && d.rest == Tokens(t) + rest
    ensures Prefix(d) == Ok(Draft(d.kids + [t], rest, d.errors))
    decreases t, 4
  {
    hide *;
    PrefixedIs(t, rest);
    PrefixIs(d);
    FreshIs(d);
    AtPrefixMeans(d);
    if t.Node? && t.kind.Unary? {
      var kids, f := t.kids, Fresh(d);
      WholeBegins(Unary, d, kids, rest);
      ToTheEnd(kids, 2, rest);
      ExprStep(f, kids, 1, Pratt.PREFIX_POWER, rest);
      WholeReads(Unary, d, kids, rest, Ok(Draft(kids, rest, d.errors)));
      AtIs(d, kids[0].t);
    } else {
      AppliedBegins(t, rest);
      OpeningMeans(Tokens(t));
      AppliedReads(t, rest, d);
      PostfixStops(Draft([t], rest, d.errors));
      OneJoined(d, t, rest);
    }
  }

  lemma AtPrefixMeans(d: Draft)
    ensures AtPrefix(d) <==> d.rest != [] && d.rest[0] in {Op(Pratt.Minus), Key(Not)}
  {
  }

  lemma PostfixStops(d: Draft)
    requires !Starts(d.rest, LParen) && !Starts(d.rest, LBracket) && !Starts(d.rest, Dot)
    ensures PostfixLoop(d) == Ok(d)
  {
    PostfixLoopIs(d);
    hide PostfixLoop, Items, Expr, Need, Take, Wrap, Selected;
  }

  /** The loop over calls, indexes and fields arrives at `t`. */
  lemma {:induction false} AppliedReads(t: Tree, rest: seq<Token>, d: Draft)
    requires Applied(t, rest) && d.rest == Tokens(t) + rest
    ensures var first := Primary(Fresh(d));
            first.Ok? && PostfixLoop(first.d) == PostfixLoop(Draft([t], rest, d.errors))
    decreases t, 3
  {
    hide *;
    AppliedIs(t, rest);
    FreshIs(d);
    if t.Node? && t.kind in {Call, Index, Field, Method} {
      var kids, f := t.kids, Fresh(d);
      WholeBegins(t.kind, d, kids, rest);
      StandNext(f, kids, 0, rest);
      AppliedReads(kids[0], From(kids, 1, rest), f);
      FreshIs(f);
      assert [] + [kids[0]] == [kids[0]];
      AppliedOnce(t, rest, f);
    } else {
      OperandReads(t, rest, Fresh(d));
      assert [] + [t] == [t];
    }
  }

  /** One call, index, field or method, behind what it applies to. */
  lemma {:induction false} AppliedOnce(t: Tree, rest: seq<Token>, f: Draft)
    requires t.Node? && t.kind in {Call, Index, Field, Method} && Applied(t, rest) && f.kids == []
    ensures |t.kids| > 2
    ensures PostfixLoop(Stand(f, t.kids, 1, rest)) == PostfixLoop(Draft([t], rest, f.errors))
    decreases t, 2
  {
    hide *;
    AppliedIs(t, rest);
    var kids, d := t.kids, Stand(f, t.kids, 1, rest);
    StandTake(f, kids, 1, rest);
    PostfixLoopIs(d);
    AtIs(d, LParen);
    AtIs(d, LBracket);
    AtIs(d, Dot);
    if t.kind.Call? {
      CallReads(kids, rest, f);
    } else if t.kind.Index? {
      IndexReads(kids, rest, f);
    } else {
      SelectedReads(t, rest, f);
    }
  }

  lemma {:induction false} CallReads(kids: seq<Tree>, rest: seq<Token>, f: Draft)
    requires |kids| > 2 && kids[1] == Leaf(LParen) && Listed(kids[2..], Exprs, RParen, rest) && f.kids == []
    ensures At(Stand(f, kids, 1, rest), LParen)
    ensures var call := Items(Take(Stand(f, kids, 1, rest)), Exprs, RParen);
            call.Ok? && Wrap(Call, call.d) == Draft([Node(Call, kids)], rest, f.errors)
    decreases kids, 1
  {
    hide *;
    StandTake(f, kids, 1, rest);
    StandBegin(f, kids, rest);
    assert [] + kids == kids;
    ToTheEnd(kids, 2, rest);
    RightShuts();
    ListStep(f, kids, 2, |kids|, Exprs, RParen, rest);
    WrapIs(Call, Draft(kids, rest, f.errors));
  }

  lemma {:induction false} IndexReads(kids: seq<Tree>, rest: seq<Token>, f: Draft)
    requires |kids| == 4 && kids[1] == Leaf(LBracket) && Expression(kids[2], 0, From(kids, 3, rest))
    requires kids[3] == Leaf(RBracket) && f.kids == []
    ensures At(Stand(f, kids, 1, rest), LBracket)
    ensures var index := Expr(Take(Stand(f, kids, 1, rest)), 0);
            index.Ok? && Wrap(Index, Need(index.d, RBracket)) == Draft([Node(Index, kids)], rest, f.errors)
    decreases kids, 1
  {
    hide *;
    StandTake(f, kids, 1, rest);
    StandBegin(f, kids, rest);
    assert [] + kids == kids;
    ExprStep(f, kids, 2, 0, rest);
    StandTake(f, kids, 3, rest);
    WrapIs(Index, Draft(kids, rest, f.errors));
  }

  lemma {:induction false} SelectedReads(t: Tree, rest: seq<Token>, f: Draft)
    requires t.Node? && t.kind in {Field, Method} && Applied(t, rest) && f.kids == []
    ensures |t.kids| > 2
    ensures At(Stand(f, t.kids, 1, rest), Dot)
    ensures Selected(Stand(f, t.kids, 1, rest)) == Ok(Draft([t], rest, f.errors))
    decreases t, 1
  {
    hide *;
    AppliedIs(t, rest);
    var kids, d := t.kids, Stand(f, t.kids, 1, rest);
    StandTake(f, kids, 1, rest);
    SelectedIs(d);
    FieldTaken(f, kids, rest);
    StandBegin(f, kids, rest);
    assert [] + kids == kids;
    RightShuts();
    WrapIs(t.kind, Draft(kids, rest, f.errors));
    if t.kind.Field? {
      EndStarts(kids, rest, f, LParen);
    } else {
      ToTheEnd(kids, 4, rest);
      StandTake(f, kids, 3, rest);
      ListStep(f, kids, 4, |kids|, Exprs, RParen, rest);
    }
  }

  lemma FieldTaken(b: Draft, kids: seq<Tree>, rest: seq<Token>)
    requires IsField(kids, 2)
    ensures AtFieldName(Stand(b, kids, 2, rest)) && Take(Stand(b, kids, 2, rest)) == Stand(b, kids, 3, rest)
  {
    hide Take, Stand, From;
    StandTake(b, kids, 2, rest);
  }

  // ----- operands -----

  lemma {:induction false} OperandReads(t: Tree, rest: seq<Token>, d: Draft)
    requires Operand(t, rest) && d.rest == Tokens(t) + rest
    ensures Primary(d) == Ok(Draft(d.kids + [t], rest, d.errors))
    decreases t, 2
  {
    hide *;
    OperandIs(t, rest);
    NodeTokens(t);
    FirstIs(t, rest, d);
    PrimaryUnfolds(d);
    FreshIs(d);
    RightShuts();
    if t.Leaf? {
      LeafTaken(d, t.t, rest);
    } else {
      var kids, f, r := t.kids, Fresh(d), Ok(Draft(t.kids, rest, d.errors));
      WholeBegins(t.kind, d, kids, rest);
      WholeReads(t.kind, d, kids, rest, r);
      NoLiteral(kids[0].t);
      if t.kind in {Vector, Set} {
        ToTheEnd(kids, 1, rest);
        ListStep(f, kids, 1, |kids|, Exprs, if t.kind.Set? then RBrace else RBracket, rest);
      } else if t.kind.Paren? {
        ParenReads(kids, rest, d);
      } else if t.kind in {MapLit, Block} {
        BraceReads(t, rest, d);
      } else {
        KeywordReads(t, rest, d);
      }
    }
  }

  lemma FirstIs(t: Tree, rest: seq<Token>, d: Draft)
    requires d.rest == Tokens(t) + rest && (t.Node? ==> t.kids != [] && t.kids[0].Leaf?)
    ensures d.rest != [] && d.rest[0] == if t.Leaf? then t.t else t.kids[0].t
  {
    NodeTokens(t);
    hide Tokens, TokensOf;
    if t.Node? {
      TokensSplit(t.kids);
      NodeTokens(t.kids[0]);
    }
  }

  /** No expression in parentheses looks like parameters, except for a name. */
  lemma NoArrow(t: Tree, rest: seq<Token>, ts: seq<Token>)
    requires Sprout(Tokens(t)) && (|Tokens(t)| == 1 && Tokens(t)[0].Ident? ==> t.Leaf?)
    requires ts == Tokens(t) + ([RParen] + rest)
    ensures LooksLikeArrowFn(ts) ==> t.Leaf? && t.t.Ident? && Starts(rest, FatArrow)
  {
    NodeTokens(t);
    hide Tokens, TokensOf, IsOpening;
    var inner := Tokens(t);
    SproutInner(inner);
    assert ts[0] == inner[0];
    if |inner| > 1 {
      assert ts[1] == inner[1];
    } else {
      assert ts[1] == RParen && ts[2..] == rest;
      assert |ts| > 2 ==> ts[2] == rest[0];
    }
  }

  lemma {:induction false} ParenReads(kids: seq<Tree>, rest: seq<Token>, d: Draft)
    requires ParenForm(kids, rest) && d.rest == Tokens(Node(Paren, kids)) + rest
    ensures d.rest != [] && !LooksLikeArrowFn(d.rest[1..])
    ensures Parenthesised(Take(Fresh(d))) == Ok(Draft(kids, rest, d.errors))
    decreases kids, 1
  {
    hide *;
    var f := Fresh(d);
    ParenIs(kids, rest);
    WholeBegins(Paren, d, kids, rest);
    StandTake(f, kids, 0, rest);
    StandNext(f, kids, 1, rest);
    FreshIs(d);
    ExprBegins(kids[1], 0, From(kids, 2, rest));
    assert d.rest[1..] == Tokens(kids[1]) + ([RParen] + rest);
    NoArrow(kids[1], rest, d.rest[1..]);
    ParenthesisedIs(Take(f));
    ExprStep(f, kids, 1, 0, rest);
    StandTake(f, kids, 2, rest);
  }

  // ----- operands that begin with a keyword -----

  lemma {:induction false} KeywordReads(t: Tree, rest: seq<Token>, d: Draft)
    requires Operand(t, rest) && d.rest == Tokens(t) + rest
    requires t.Node? && t.kids != [] && t.kids[0].Leaf? && t.kids[0].t.Key?
    ensures d.rest != [] && d.rest[0].Key? && KeywordExpr(d, d.rest[0].word) == Ok(Draft(d.kids + [t], rest, d.errors))
    decreases t, 1
  {
    hide *;
    var kids, f, word := t.kids, Fresh(d), t.kids[0].t.word;
    KeywordIs(t, rest);
    WholeBegins(t.kind, d, kids, rest);
    AtIs(d, kids[0].t);
    AtKeyIs(d, word);
    KeywordUnfolds(d, word);
    ControlUnfolds(d, word);
    FreshIs(d);
    WholeReads(t.kind, d, kids, rest, Ok(Draft(kids, rest, d.errors)));
    match t.kind
    case Marked => MarkedReads(kids, rest, f);
    case Jump => JumpReads(kids, rest, d);
    case LambdaExpr => WordIs(kids, Fn); FunctionReads(kids, 1, rest, f);
    case IfExpr => WordIs(kids, If); IfReads(kids, rest, f);
    case MatchExpr => WordIs(kids, Match); MatchReads(kids, rest, f);
    case WhileExpr => WordIs(kids, While); WhileReads(kids, rest, f);
    case ForExpr => WordIs(kids, For); ForReads(kids, rest, f);
    case TryExpr => WordIs(kids, Try); TryReads(kids, rest, f);
    case SpawnExpr => WordIs(kids, Spawn); SpawnReads(kids, rest, f);
  }

  lemma {:induction false} MarkedReads(kids: seq<Tree>, rest: seq<Token>, f: Draft)
    requires MarkedForm(kids, rest)
    ensures kids != [] && kids[0].Leaf? && kids[0].t.Key?
    ensures kids[0].t.word in {Raise, Reply, Await, Shared, Transact, Loop}
    ensures Expr(Stand(f, kids, 1, rest), 0) == Ok(Stand(f, kids, |kids|, rest))
    decreases kids, 1
  {
    hide Expression, Expr, Stand, TokensOf;
    ToTheEnd(kids, 2, rest);
    ExprStep(f, kids, 1, 0, rest);
  }

  lemma NoValueIs(d: Draft)
    ensures NoValueHere(d) <==> d.rest == [] || d.rest[0] in {Semicolon, RBrace, Comma}
  {
  }

  lemma {:induction false} JumpReads(kids: seq<Tree>, rest: seq<Token>, d: Draft)
    requires JumpForm(kids, rest) && d.rest == Tokens(Node(Jump, kids)) + rest && kids != [] && kids[0].Leaf?
    requires kids[0].t.Key?
    ensures AtKey(d, kids[0].t.word)
    ensures KeywordExpr(d, kids[0].t.word) == Ok(Draft(d.kids + [Node(Jump, kids)], rest, d.errors))
    decreases kids, 1
  {
    hide *;
    JumpIs(kids, rest);
    var f, word := Fresh(d), kids[0].t.word;
    WholeBegins(Jump, d, kids, rest);
    AtIs(d, kids[0].t);
    AtKeyIs(d, word);
    KeywordUnfolds(d, word);
    FreshIs(d);
    var s := Stand(f, kids, 1, rest);
    NoValueIs(s);
    ToTheEnd(kids, 1, rest);
    StandIs(f, kids, 1, rest);
    JumpWords(word);
    if |kids| == 2 {
      StandNext(f, kids, 1, rest);
      ToTheEnd(kids, 2, rest);
      ExprBegins(kids[1], 0, rest);
      SproutInner(Tokens(kids[1]));
      SproutSome(Tokens(kids[1]));
      InnerNoEnd(Tokens(kids[1])[0]);
      ExprStep(f, kids, 1, 0, rest);
      WholeReads(Jump, d, kids, rest, Ok(Draft(kids, rest, d.errors)));
    } else {
      WrapIs(Jump, s);
      OneJoined(d, Node(Jump, kids), rest);
    }
  }

  lemma {:induction false} FunctionReads(kids: seq<Tree>, i: nat, rest: seq<Token>, b: Draft)
    requires 0 < i <= |kids| && FunctionForm(kids[i..], rest)
    ensures FunctionBody(Stand(b, kids, i, rest)) == Ok(Stand(b, kids, |kids|, rest))
    decreases kids, 1
  {
    hide *;
    var n := FunctionIs(kids, i, rest);
    FunctionBodyIs(Stand(b, kids, i, rest));
    StandTake(b, kids, i, rest);
    RightShuts();
    ListStep(b, kids, i + 1, n, Params, RParen, rest);
    var params := Stand(b, kids, n, rest);
    MaybeResultIs(params);
    AtIs(params, Arrow);
    ToTheEnd(kids, n, rest);
    if n + 3 == |kids| {
      StandTake(b, kids, n, rest);
      TypeStep(b, kids, n + 1, rest);
    } else {
      StandNext(b, kids, n, rest);
      ExprBegins(kids[n], 0, rest);
      SproutInner(Tokens(kids[n]));
      SproutSome(Tokens(kids[n]));
      InnerNoArrow(Tokens(kids[n])[0]);
    }
    ExprStep(b, kids, |kids| - 1, 0, rest);
  }

  lemma {:induction false} WhileReads(kids: seq<Tree>, rest: seq<Token>, f: Draft)
    requires WhileForm(kids, rest)
    ensures |kids| > 1 && TwoExprs(Stand(f, kids, 1, rest)) == Ok(Stand(f, kids, |kids|, rest))
    decreases kids, 1
  {
    hide *;
    WhileIs(kids, rest);
    TwoExprsIs(Stand(f, kids, 1, rest));
    ToTheEnd(kids, 3, rest);
    ExprStep(f, kids, 1, 0, rest);
    ExprStep(f, kids, 2, 0, rest);
  }

  lemma {:induction false} ForReads(kids: seq<Tree>, rest: seq<Token>, f: Draft)
    requires ForForm(kids, rest)
    ensures |kids| > 1 && ForBody(Stand(f, kids, 1, rest)) == Ok(Stand(f, kids, |kids|, rest))
    decreases kids, 1
  {
    hide *;
    ForIs(kids, rest);
    ForBodyIs(Stand(f, kids, 1, rest));
    NameStep(f, kids, 1, rest);
    StandTake(f, kids, 2, rest);
    NeedKeyHere(Stand(f, kids, 2, rest), In);
    TwoExprsIs(Stand(f, kids, 3, rest));
    ToTheEnd(kids, 5, rest);
    ExprStep(f, kids, 3, 0, rest);
    ExprStep(f, kids, 4, 0, rest);
  }

  lemma {:induction false} SpawnReads(kids: seq<Tree>, rest: seq<Token>, f: Draft)
    requires SpawnForm(kids, rest)
    ensures |kids| > 1 && SpawnBody(Stand(f, kids, 1, rest)) == Ok(Stand(f, kids, |kids|, rest))
    decreases kids, 1
  {
    hide *;
    SpawnIs(kids, rest);
    SpawnBodyIs(Stand(f, kids, 1, rest));
    NameStep(f, kids, 1, rest);
    StandTake(f, kids, 2, rest);
    RightShuts();
    ToTheEnd(kids, 3, rest);
    ListStep(f, kids, 3, |kids|, Exprs, RParen, rest);
  }

  lemma {:induction false} IfReads(kids: seq<Tree>, rest: seq<Token>, f: Draft)
    requires IfForm(kids, rest)
    ensures |kids| > 1 && IfBody(Stand(f, kids, 1, rest)) == Ok(Stand(f, kids, |kids|, rest))
    decreases kids, 1
  {
    hide *;
    IfIs(kids, rest);
    IfBodyIs(Stand(f, kids, 1, rest));
    TwoExprsIs(Stand(f, kids, 1, rest));
    ExprStep(f, kids, 1, 0, rest);
    ExprStep(f, kids, 2, 0, rest);
    AtKeyIs(Stand(f, kids, 3, rest), Else);
    if |kids| == 3 {
      EndStarts(kids, rest, f, Key(Else));
    } else {
      StandTake(f, kids, 3, rest);
      StandNext(f, kids, 4, rest);
      ToTheEnd(kids, 5, rest);
      ElseReads(kids[4], rest, Stand(f, kids, 4, rest));
    }
  }

  lemma {:induction false} ElseReads(t: Tree, rest: seq<Token>, els: Draft)
    requires ElseForm(t, rest) && els.rest == Tokens(t) + rest
    ensures (if AtKey(els, If) then Whole(IfExpr, els, IfBody(Take(Fresh(els)))) else Expr(els, 0)) ==
              Ok(Draft(els.kids + [t], rest, els.errors))
    decreases t, 7
  {
    hide *;
    ElseIs(t, rest);
    AtKeyIs(els, If);
    AtIs(els, Key(If));
    StartsIs(Tokens(t), Key(If));
    if Starts(Tokens(t), Key(If)) {
      IfIs(t.kids, rest);
      WholeBegins(IfExpr, els, t.kids, rest);
      FreshIs(els);
      WholeReads(IfExpr, els, t.kids, rest, Ok(Draft(t.kids, rest, els.errors)));
      IfReads(t.kids, rest, Fresh(els));
    } else {
      ExprBegins(t, 0, rest);
      SproutSome(Tokens(t));
      ExprReads(t, 0, rest, els);
    }
  }

  lemma {:induction false} MatchReads(kids: seq<Tree>, rest: seq<Token>, f: Draft)
    requires MatchForm(kids, rest)
    ensures |kids| > 1 && MatchBody(Stand(f, kids, 1, rest)) == Ok(Stand(f, kids, |kids|, rest))
    decreases kids, 1
  {
    hide *;
    var n := MatchIs(kids, rest);
    MatchBodyIs(Stand(f, kids, 1, rest));
    ExprStep(f, kids, 1, 0, rest);
    StandTake(f, kids, 2, rest);
    StandTake(f, kids, n, rest);
    ArmsRead(f, kids, 3, n, rest);
  }

  lemma AtEndMeans(d: Draft)
    ensures AtEnd(d) <==> d.rest == [] || At(d, RBrace)
  {
  }

  /** The arms from `i` to `n`, where a closing brace stands. */
  lemma {:induction false} ArmsRead(b: Draft, kids: seq<Tree>, i: nat, n: nat, rest: seq<Token>)
    requires 0 < i <= n < |kids| && kids[n] == Leaf(RBrace) && ArmsForm(kids[i..n], From(kids, n, rest))
    ensures ArmsLoop(Stand(b, kids, i, rest)) == Ok(Stand(b, kids, n, rest))
    decreases kids, 0, n - i
  {
    hide *;
    var d := Stand(b, kids, i, rest);
    ArmsLoopIs(d);
    AtEndMeans(d);
    if i == n {
      StandTake(b, kids, i, rest);
    } else {
      ArmsPart(kids, i, n, rest);
      StandNext(b, kids, i, rest);
      NodeTokens(kids[i]);
      AtIs(d, RBrace);
      ArmBegins(kids[i], From(kids, i + 1, rest));
      FreshIs(d);
      ArmReads(kids[i].kids, From(kids, i + 1, rest), Fresh(d));
      var arms := Stand(b, kids, i + 1, rest);
      assert [] + kids[i].kids == kids[i].kids;
      AtIs(arms, Comma);
      if kids[i + 1] == Leaf(Comma) {
        StandTake(b, kids, i + 1, rest);
        ArmsRead(b, kids, i + 2, n, rest);
      } else {
        NoComma(b, kids, i + 1, n, rest);
        ArmsRead(b, kids, i + 1, n, rest);
      }
    }
  }

  /** Neither an arm nor the closing brace begins with a comma. */
  lemma NoComma(b: Draft, kids: seq<Tree>, i: nat, n: nat, rest: seq<Token>)
    requires i <= n < |kids| && kids[n] == Leaf(RBrace) && ArmsForm(kids[i..n], From(kids, n, rest))
    ensures !At(Stand(b, kids, i, rest), Comma)
  {
    hide *;
    var d := Stand(b, kids, i, rest);
    AtIs(d, Comma);
    if i == n {
      StandTake(b, kids, n, rest);
      AtIs(d, RBrace);
    } else {
      ArmsPart(kids, i, n, rest);
      StandNext(b, kids, i, rest);
      ArmBegins(kids[i], From(kids, i + 1, rest));
    }
  }

  lemma {:induction false} ArmReads(kids: seq<Tree>, rest: seq<Token>, d: Draft)
    requires ArmForm(kids, rest) && d.rest == TokensOf(kids) + rest
    ensures Arm(d) == Ok(Draft(d.kids + kids, rest, d.errors))
    decreases kids, 1
  {
    hide *;
    ArmIs(kids, rest);
    ArmUnfolds(d);
    StandBegin(d, kids, rest);
    PatternStep(d, kids, 0, rest);
    var n := |kids| - 2;
    StandTake(d, kids, 1, rest);
    AtKeyIs(Stand(d, kids, 1, rest), If);
    AtIs(Stand(d, kids, 1, rest), Key(If));
    AtIs(Stand(d, kids, 1, rest), FatArrow);
    if |kids| == 5 {
      ExprStep(d, kids, 2, 0, rest);
    }
    StandTake(d, kids, n, rest);
    ToTheEnd(kids, n + 2, rest);
    ExprStep(d, kids, n + 1, 0, rest);
  }

  lemma {:induction false} TryReads(kids: seq<Tree>, rest: seq<Token>, f: Draft)
    requires TryForm(kids, rest)
    ensures |kids| > 1 && TryBody(Stand(f, kids, 1, rest)) == Ok(Stand(f, kids, |kids|, rest))
    decreases kids, 2
  {
    hide *;
    TryIs(kids, rest);
    TryBodyIs(Stand(f, kids, 1, rest));
    ExprStep(f, kids, 1, 0, rest);
    RescuesRead(f, kids, 2, rest);
  }

  /** The rescues from `i` on, and what is ensured. */
  lemma {:induction false} RescuesRead(b: Draft, kids: seq<Tree>, i: nat, rest: seq<Token>)
    requires 0 < i <= |kids| && RescuesForm(kids[i..], rest)
    ensures var rescued := RescueLoop(Stand(b, kids, i, rest));
            && rescued.Ok?
            && (if AtKey(rescued.d, Ensure) then Expr(Take(rescued.d), 0) else rescued) ==
                 Ok(Stand(b, kids, |kids|, rest))
    decreases kids, 1, |kids| - i
  {
    hide *;
    RescuesPart(kids, i, rest);
    var d := Stand(b, kids, i, rest);
    RescueLoopIs(d);
    AtKeyIs(d, Rescue);
    AtKeyIs(d, Ensure);
    AtIs(d, Key(Rescue));
    AtIs(d, Key(Ensure));
    if i == |kids| {
      EndStarts(kids, rest, b, Key(Rescue));
      EndStarts(kids, rest, b, Key(Ensure));
    } else if kids[i] == Leaf(Key(Ensure)) {
      StandTake(b, kids, i, rest);
      ToTheEnd(kids, i + 2, rest);
      ExprStep(b, kids, i + 1, 0, rest);
    } else {
      StandNext(b, kids, i, rest);
      NodeTokens(kids[i]);
      FreshIs(d);
      RescueReads(kids[i].kids, From(kids, i + 1, rest), Fresh(d));
      AtIs(Fresh(d), Key(Rescue));
      assert [] + kids[i].kids == kids[i].kids;
      RescuesRead(b, kids, i + 1, rest);
    }
  }

  lemma AtNameIs(d: Draft)
    ensures AtName(d) <==> StartsName(d.rest)
    ensures AtName(d) ==> !At(d, Key(As))
  {
  }

  lemma {:induction false} RescueReads(kids: seq<Tree>, rest: seq<Token>, d: Draft)
    requires RescueForm(kids, rest) && d.rest == TokensOf(kids) + rest
    ensures At(d, Key(Rescue)) && RescueClause(Take(d)) == Ok(Draft(d.kids + kids, rest, d.errors))
    decreases kids, 1
  {
    hide *;
    RescueIs(kids, rest);
    var n := |kids| - 1;
    StandBegin(d, kids, rest);
    StandTake(d, kids, 0, rest);
    var s := Stand(d, kids, 1, rest);
    RescueUnfolds(s);
    NamedRescue(kids, rest, d);
    ToTheEnd(kids, n + 1, rest);
    ExprStep(d, kids, n, 0, rest);
  }

  /** What stands before the handler of a rescue. */
  lemma NamedRescue(kids: seq<Tree>, rest: seq<Token>, d: Draft)
    requires RescueForm(kids, rest)
    ensures |kids| > 1
    ensures var s := Stand(d, kids, 1, rest);
            var named := if AtName(s) then Take(s) else s;
            var bound := if AtKey(named, As) then Name(Take(named)) else Ok(named);
            bound == Ok(Stand(d, kids, |kids| - 1, rest))
  {
    hide *;
    RescueIs(kids, rest);
    var n := |kids| - 1;
    var s := Stand(d, kids, 1, rest);
    NoAsBefore(d, kids, rest);
    AtKeyIs(Stand(d, kids, n, rest), As);
    AtNameIs(s);
    if n == 1 {
      StandNext(d, kids, 1, rest);
      ToTheEnd(kids, n + 1, rest);
      ExprBegins(kids[1], 0, rest);
      SproutSome(Tokens(kids[1]));
      StartsNameOn(Tokens(kids[1]), From(kids, 2, rest));
    } else if n == 2 {
      NameStep(d, kids, 1, rest);
    } else if n == 3 {
      StandTake(d, kids, 1, rest);
      AtKeyIs(s, As);
      NameStep(d, kids, 2, rest);
    } else {
      NameStep(d, kids, 1, rest);
      StandTake(d, kids, 2, rest);
      AtKeyIs(Stand(d, kids, 2, rest), As);
      NameStep(d, kids, 3, rest);
    }
  }

  /** The handler does not begin with `as`. */
  lemma NoAsBefore(d: Draft, kids: seq<Tree>, rest: seq<Token>)
    requires kids != [] && Expression(kids[|kids| - 1], 0, rest)
    ensures !At(Stand(d, kids, |kids| - 1, rest), Key(As))
  {
    hide *;
    var n := |kids| - 1;
    StandNext(d, kids, n, rest);
    ExprBegins(kids[n], 0, rest);
    SproutInner(Tokens(kids[n]));
    SproutSome(Tokens(kids[n]));
    AtIs(Stand(d, kids, n, rest), Key(As));
  }

  // ----- braces -----

  lemma {:induction false} BraceReads(t: Tree, rest: seq<Token>, d: Draft)
    requires Operand(t, rest) && d.rest == Tokens(t) + rest
    requires t.Node? && t.kind in {MapLit, Block}
    ensures At(d, LBrace) && Brace(d) == Ok(Draft(d.kids + [t], rest, d.errors))
    decreases t, 1
  {
    hide *;
    BracesAre(t, rest);
    WholeBegins(t.kind, d, t.kids, rest);
    if t.kind.MapLit? {
      MapReads(t.kids, rest, d);
    } else {
      BlockReads(t.kids, rest, d);
    }
  }

  lemma {:induction false} MapReads(kids: seq<Tree>, rest: seq<Token>, d: Draft)
    requires MapForm(kids, rest) && d.rest == Tokens(Node(MapLit, kids)) + rest && At(d, LBrace)
    ensures Brace(d) == Ok(Draft(d.kids + [Node(MapLit, kids)], rest, d.errors))
    decreases kids, 3
  {
    hide *;
    MapIs(kids, rest);
    if kids[1] == Leaf(RBrace) && |kids| == 2 {
      NothingReads(kids, rest, d);
    } else {
      EntriesPart(kids, 1, rest);
      BraceIs(d);
      var f := Fresh(d);
      WholeBegins(MapLit, d, kids, rest);
      FreshIs(d);
      var s := Stand(f, kids, 1, rest);
      AtIs(s, RBrace);
      var first := FirstReads(f, kids, rest);
      StandTake(f, kids, 2, rest);
      AtIs(first, Colon);
      AtIs(Stand(f, kids, 2, rest), Colon);
      MapBodyReads(f, kids, rest);
      BraceMap(d.kids, s.kids, first);
    }
  }

  lemma NothingReads(kids: seq<Tree>, rest: seq<Token>, d: Draft)
    requires kids == [Leaf(LBrace), Leaf(RBrace)] && d.rest == Tokens(Node(MapLit, kids)) + rest && At(d, LBrace)
    ensures Brace(d) == Ok(Draft(d.kids + [Node(MapLit, kids)], rest, d.errors))
  {
    hide *;
    BraceIs(d);
    var f := Fresh(d);
    WholeBegins(MapLit, d, kids, rest);
    FreshIs(d);
    StandTake(f, kids, 1, rest);
  }

  /** Behind the first expression of the braces, which begins no declaration. */
  lemma {:induction false} FirstReads(f: Draft, kids: seq<Tree>, rest: seq<Token>) returns (first: Draft)
    requires |kids| > 2 && Expression(kids[1], 0, From(kids, 2, rest)) && !Declared(Tokens(kids[1]))
    ensures var s := Stand(f, kids, 1, rest);
            && s.rest != [] && !StartsStmt(s.rest[0]) && s.rest[0] != RBrace
            && first == Draft([kids[1]], From(kids, 2, rest), f.errors) && Expr(Fresh(s), 0) == Ok(first)
            && Stand(f, kids, 2, rest) == Draft(s.kids + first.kids, first.rest, first.errors)
    decreases kids, 2
  {
    hide *;
    var s := Stand(f, kids, 1, rest);
    first := Draft([kids[1]], From(kids, 2, rest), f.errors);
    StandNext(f, kids, 1, rest);
    StandIs(f, kids, 1, rest);
    ExprBegins(kids[1], 0, From(kids, 2, rest));
    SproutSome(Tokens(kids[1]));
    SproutInner(Tokens(kids[1]));
    InnerNoArrow(Tokens(kids[1])[0]);
    DeclaredIs(Tokens(kids[1]));
    StartsAre(s.rest[0]);
    FreshIs(s);
    assert [] + [kids[1]] == [kids[1]];
    ExprReads(kids[1], 0, From(kids, 2, rest), Fresh(s));
  }

  lemma {:induction false} MapBodyReads(f: Draft, kids: seq<Tree>, rest: seq<Token>)
    requires |kids| > 1 && Entries(kids[1..], rest)
    ensures |kids| > 3 && MapBody(Stand(f, kids, 3, rest)) == Ok(Stand(f, kids, |kids|, rest))
    decreases kids, 2
  {
    hide *;
    EntriesPart(kids, 1, rest);
    MapBodyIs(Stand(f, kids, 3, rest));
    ExprStep(f, kids, 3, 0, rest);
    EntriesRead(f, kids, 4, rest);
  }

  lemma {:induction false} EntriesRead(b: Draft, kids: seq<Tree>, i: nat, rest: seq<Token>)
    requires 0 < i <= |kids| && EntriesEnd(kids[i..], rest)
    ensures var entries := MapLoop(Stand(b, kids, i, rest));
            entries.Ok? && Need(entries.d, RBrace) == Stand(b, kids, |kids|, rest)
    decreases kids, 1, |kids| - i
  {
    hide *;
    EndPart(kids, i, rest);
    var d := Stand(b, kids, i, rest);
    MapLoopIs(d);
    StandTake(b, kids, i, rest);
    AtIs(d, Comma);
    AtIs(d, RBrace);
    if kids[i] == Leaf(Comma) {
      var e := Stand(b, kids, i + 1, rest);
      AtIs(e, RBrace);
      if kids[i + 1] == Leaf(RBrace) {
        StandTake(b, kids, i + 1, rest);
      } else {
        EntriesPart(kids, i + 1, rest);
        StandNext(b, kids, i + 1, rest);
        ExprBegins(kids[i + 1], 0, From(kids, i + 2, rest));
        SproutSome(Tokens(kids[i + 1]));
        SproutInner(Tokens(kids[i + 1]));
        InnerNoArrow(Tokens(kids[i + 1])[0]);
        ExprStep(b, kids, i + 1, 0, rest);
        StandTake(b, kids, i + 2, rest);
        ExprStep(b, kids, i + 3, 0, rest);
        EntriesRead(b, kids, i + 4, rest);
      }
    }
  }

  lemma {:induction false} BlockReads(kids: seq<Tree>, rest: seq<Token>, d: Draft)
    requires BlockForm(kids, rest) && d.rest == Tokens(Node(Block, kids)) + rest && At(d, LBrace)
    ensures Brace(d) == Ok(Draft(d.kids + [Node(Block, kids)], rest, d.errors))
    decreases kids, 3
  {
    hide *;
    var n := BlockIs(kids, rest);
    BraceIs(d);
    var f := Fresh(d);
    WholeBegins(Block, d, kids, rest);
    FreshIs(d);
    var s := Stand(f, kids, 1, rest);
    AtIs(s, RBrace);
    StandNext(f, kids, 1, rest);
    StandTake(f, kids, n, rest);
    ToTheEnd(kids, n, rest);
    DeclaredIs(Tokens(kids[1]));
    if Declared(Tokens(kids[1])) {
      StartsAre(Tokens(kids[1])[0]);
      NoBraceDeclares(Tokens(kids[1])[0]);
      BodyRead(f, kids, 1, n, rest);
    } else if n == 2 && Expression(kids[1], 0, From(kids, 2, rest)) {
      var first := FirstReads(f, kids, rest);
      AtIs(first, RBrace);
      AtIs(Stand(f, kids, 2, rest), RBrace);
      BlockDecides(d.kids, s.kids, first);
    } else {
      AtIs(d, LBrace);
      SemiReads(d, f, kids, n, rest);
    }
  }

  /** A block whose first statement is an expression with a semicolon. */
  lemma {:induction false} SemiReads(d: Draft, f: Draft, kids: seq<Tree>, n: nat, rest: seq<Token>)
    requires 2 <= n && n + 1 == |kids| && kids[n] == Leaf(RBrace) && f == Fresh(d)
    requires f.rest != [] && Take(f) == Stand(f, kids, 1, rest) && At(d, LBrace)
    requires kids[1].Node? && kids[1].kind.Semi? && Statement(kids[1], From(kids, 2, rest))
    requires BodyForm(kids[2..n], From(kids, n, rest)) && !Declared(Tokens(kids[1]))
    ensures Brace(d) == Ok(Draft(d.kids + [Node(Block, kids)], rest, d.errors))
    decreases kids, 2
  {
    hide *;
    BraceIs(d);
    FreshIs(d);
    var s, semi := Stand(f, kids, 1, rest), kids[1].kids;
    var more := From(kids, 2, rest);
    StandNext(f, kids, 1, rest);
    SemiIs(kids[1], more);
    var first := Draft([semi[0]], [Semicolon] + more, f.errors);
    ExprBegins(semi[0], 0, [Semicolon] + more);
    SproutSome(Tokens(semi[0]));
    SproutInner(Tokens(semi[0]));
    InnerNoArrow(Tokens(semi[0])[0]);
    DeclaredIs(Tokens(kids[1]));
    StartsAre(s.rest[0]);
    AtIs(s, RBrace);
    FreshIs(s);
    assert s.rest == Tokens(semi[0]) + ([Semicolon] + more);
    assert [] + [semi[0]] == [semi[0]] && [semi[0]] + [Leaf(Semicolon)] == semi;
    ExprReads(semi[0], 0, [Semicolon] + more, Fresh(s));
    LeafTaken(first, Semicolon, more);
    SemiDecides(d.kids, s.kids, first);
    StandTake(f, kids, n, rest);
    StandBegin(f, kids, rest);
    assert [] + kids == kids;
    BodyRead(f, kids, 2, n, rest);
  }

  /** The statements from `i` to `n`, where a closing brace stands. */
  lemma {:induction false} BodyRead(b: Draft, kids: seq<Tree>, i: nat, n: nat, rest: seq<Token>)
    requires 0 < i <= n < |kids| && kids[n] == Leaf(RBrace) && BodyForm(kids[i..n], From(kids, n, rest))
    ensures BlockLoop(Stand(b, kids, i, rest)) == Stand(b, kids, n, rest)
    decreases kids, 0, n - i
  {
    hide *;
    var d := Stand(b, kids, i, rest);
    BlockLoopIs(d);
    AtEndMeans(d);
    if i == n {
      StandTake(b, kids, i, rest);
    } else {
      BodyPart(kids, i, n, rest);
      StandNext(b, kids, i, rest);
      AtIs(d, RBrace);
      StmtBegins(kids[i], From(kids, i + 1, rest));
      StmtReads(kids[i], From(kids, i + 1, rest), d);
      var e := Stand(b, kids, i + 1, rest);
      LastBare(d.kids, kids[i]);
      AtIs(e, Semicolon);
      StandIs(b, kids, i + 1, rest);
      StartsIs(e.rest, Semicolon);
      if !IsBare(kids[i]) {
        if Starts(From(kids, i + 1, rest), Semicolon) {
          StandTake(b, kids, i + 1, rest);
          BodyRead(b, kids, i + 2, n, rest);
        } else {
          BodyRead(b, kids, i + 1, n, rest);
        }
      }
    }
  }

  lemma LastBare(kids: seq<Tree>, t: Tree)
    ensures EndsBare(kids + [t]) <==> IsBare(t)
  {
  }

  // ----- statements -----

  lemma {:induction false} StmtReads(t: Tree, rest: seq<Token>, d: Draft)
    requires Statement(t, rest) && d.rest == Tokens(t) + rest && d.rest != []
    ensures Stmt(d) == Ok(Draft(d.kids + [t], rest, d.errors))
    decreases t, 8
  {
    hide *;
    StatementIs(t, rest);
    if t.kind in {Semi, Bare} {
      ExprStmtReads(t, rest, d);
    } else {
      DeclarationReads(t, rest, d);
    }
  }

  lemma {:induction false} DeclarationReads(t: Tree, rest: seq<Token>, d: Draft)
    requires Statement(t, rest) && d.rest == Tokens(t) + rest && d.rest != [] && t.Node? && t.kind !in {Semi, Bare}
    ensures Stmt(d) == Ok(Draft(d.kids + [t], rest, d.errors))
    decreases t, 7
  {
    hide *;
    StatementIs(t, rest);
    var kids, f, word := t.kids, Fresh(d), t.kids[0].t.word;
    WholeBegins(t.kind, d, kids, rest);
    AtIs(d, kids[0].t);
    WordsStart(word);
    StmtUnfolds(d);
    FreshIs(d);
    WholeReads(t.kind, d, kids, rest, Ok(Draft(kids, rest, d.errors)));
    match t.kind
    case LetStmt =>
      LetReads(kids, rest, f);
      if word.Shared? { SharedDeclares(kids, rest, f, d.rest); }
    case FnStmt => NameInside(kids, 1); NamedFunctionReads(kids, rest, f);
    case OnStmt => NameInside(kids, 1); NamedFunctionReads(kids, rest, f);
    case TypeStmt => TypeDefReads(kids, rest, f);
    case EnumStmt => EnumReads(kids, rest, f);
    case ActorStmt => ActorReads(kids, rest, f);
    case ImportStmt => ImportReads(kids, rest, f);
  }

  lemma {:induction false} LetReads(kids: seq<Tree>, rest: seq<Token>, f: Draft)
    requires LetForm(kids, rest)
    ensures |kids| > 1 && Binding(Stand(f, kids, 1, rest)) == Ok(Stand(f, kids, |kids|, rest))
    decreases kids, 1
  {
    hide *;
    var n := LetIs(kids, rest);
    BindingIs(Stand(f, kids, 1, rest));
    NameStep(f, kids, 1, rest);
    var named := Stand(f, kids, 2, rest);
    MaybeTypeIs(named);
    StandTake(f, kids, 2, rest);
    AtIs(named, Colon);
    if n == 4 {
      TypeStep(f, kids, 3, rest);
    }
    StandTake(f, kids, n, rest);
    ToTheEnd(kids, n + 2, rest);
    ExprStep(f, kids, n + 1, 0, rest);
  }

  lemma DeclaresIs(ts: seq<Token>)
    ensures DeclaresShared(ts) <==> |ts| >= 3 && ts[1].Ident? && ts[2] in {Op(Pratt.Set), Colon}
  {
  }

  lemma SharedDeclares(kids: seq<Tree>, rest: seq<Token>, f: Draft, ts: seq<Token>)
    requires LetForm(kids, rest) && ts == Stand(f, kids, 0, rest).rest
    ensures DeclaresShared(ts)
  {
    hide *;
    var n := LetIs(kids, rest);
    StandTake(f, kids, 0, rest);
    NameStep(f, kids, 1, rest);
    AtNameIs(Stand(f, kids, 1, rest));
    NameLeads(kids);
    StandTake(f, kids, 1, rest);
    StandTake(f, kids, 2, rest);
    StandIs(f, kids, 1, rest);
    StandIs(f, kids, 2, rest);
    assert ts[1..] == From(kids, 1, rest) && ts[2..] == From(kids, 2, rest);
    assert ts[1] == ts[1..][0] && ts[2] == ts[2..][0];
    DeclaresIs(ts);
  }

  lemma {:induction false} NamedFunctionReads(kids: seq<Tree>, rest: seq<Token>, f: Draft)
    requires IsName(kids, 1) && |kids| > 1 && FunctionForm(kids[2..], rest)
    ensures AtName(Stand(f, kids, 1, rest))
    ensures NamedFunction(Stand(f, kids, 1, rest)) == Ok(Stand(f, kids, |kids|, rest))
    decreases kids, 2
  {
    hide *;
    NamedFunctionIs(Stand(f, kids, 1, rest));
    NameStep(f, kids, 1, rest);
    FunctionReads(kids, 2, rest, f);
  }

  lemma {:induction false} TypeDefReads(kids: seq<Tree>, rest: seq<Token>, f: Draft)
    requires TypeDefForm(kids, rest)
    ensures |kids| > 1 && TypeDef(Stand(f, kids, 1, rest)) == Ok(Stand(f, kids, |kids|, rest))
    decreases kids, 2
  {
    hide *;
    var n := TypeDefParts(kids, rest);
    TypeDefIs(Stand(f, kids, 1, rest));
    NameStep(f, kids, 1, rest);
    ParamsRead(f, kids, 2, n, Names, rest);
    StandTake(f, kids, n, rest);
    StandTake(f, kids, n + 1, rest);
    RightShuts();
    ToTheEnd(kids, n + 2, rest);
    ListStep(f, kids, n + 2, |kids|, FieldDecls, RBrace, rest);
  }

  lemma {:induction false} EnumReads(kids: seq<Tree>, rest: seq<Token>, f: Draft)
    requires EnumForm(kids, rest)
    ensures |kids| > 1 && EnumDef(Stand(f, kids, 1, rest)) == Ok(Stand(f, kids, |kids|, rest))
    decreases kids, 2
  {
    hide *;
    var n := EnumParts(kids, rest);
    EnumDefIs(Stand(f, kids, 1, rest));
    NameStep(f, kids, 1, rest);
    ParamsRead(f, kids, 2, n, Names, rest);
    StandTake(f, kids, n, rest);
    RightShuts();
    ToTheEnd(kids, n + 1, rest);
    ListStep(f, kids, n + 1, |kids|, Variants, RBrace, rest);
  }

  lemma {:induction false} ActorReads(kids: seq<Tree>, rest: seq<Token>, f: Draft)
    requires ActorForm(kids, rest)
    ensures |kids| > 1 && ActorDef(Stand(f, kids, 1, rest)) == Ok(Stand(f, kids, |kids|, rest))
    decreases kids, 2
  {
    hide *;
    var n := ActorParts(kids, rest);
    ActorDefIs(Stand(f, kids, 1, rest));
    NameStep(f, kids, 1, rest);
    StandTake(f, kids, 2, rest);
    ListReads(f, kids, 3, n, false, rest);
    StandTake(f, kids, n, rest);
  }

  lemma AnyKeyword(d: Draft, t: Token)
    requires At(d, t) && IsKeyword(t)
    ensures Need(d, Key(Import)) == Take(d)
  {
    hide Take;
  }

  lemma ImportReads(kids: seq<Tree>, rest: seq<Token>, f: Draft)
    requires ImportForm(kids, rest)
    ensures |kids| > 1 && kids[0].Leaf? && kids[0].t in {Key(Import), Key(Lazy)}
    ensures var s := Stand(f, kids, 1, rest);
            ImportPath(if kids[0].t == Key(Lazy) then Need(s, Key(Import)) else s) == Ok(Stand(f, kids, |kids|, rest))
  {
    hide *;
    ImportIs(kids, rest);
    if kids[0].t == Key(Import) {
      PathSome(kids[1..], rest);
      PathReads(f, kids, 1, rest);
    } else {
      StandTake(f, kids, 1, rest);
      AnyKeyword(Stand(f, kids, 1, rest), kids[1].t);
      PathReads(f, kids, 2, rest);
    }
  }

  lemma {:induction false} PathReads(b: Draft, kids: seq<Tree>, i: nat, rest: seq<Token>)
    requires i <= |kids| && PathForm(kids[i..], rest)
    ensures ImportPath(Stand(b, kids, i, rest)) == Ok(Stand(b, kids, |kids|, rest))
    decreases |kids| - i
  {
    hide *;
    PathPart(kids, i, rest);
    ImportPathIs(Stand(b, kids, i, rest));
    NameStep(b, kids, i, rest);
    NameInside(kids, i);
    var named := Stand(b, kids, i + 1, rest);
    PathThenIs(named);
    AtIs(named, Dot);
    AtIs(named, Key(As));
    if i + 1 == |kids| {
      EndStarts(kids, rest, b, Dot);
      EndStarts(kids, rest, b, Key(As));
    } else {
      StandTake(b, kids, i + 1, rest);
      if kids[i + 1] == Leaf(Dot) {
        PathReads(b, kids, i + 2, rest);
      } else {
        NameStep(b, kids, i + 2, rest);
      }
    }
  }

  /** The words that begin declarations also begin some expressions. */
  lemma ExprStmtTaken(t: Tree, rest: seq<Token>, d: Draft)
    requires Statement(t, rest) && d.rest == Tokens(t) + rest && d.rest != [] && t.Node? && t.kind in {Semi, Bare}
    ensures Stmt(d) == ExprStmt(d)
  {
    hide *;
    StatementIs(t, rest);
    LeadsNo(t, rest);
    var more := if t.kind.Semi? then [Semicolon] + rest else rest;
    var inner := Tokens(t.kids[0]);
    ExprBegins(t.kids[0], 0, more);
    SproutSome(inner);
    NodeTokens(t);
    TokensSplit(t.kids);
    StmtUnfolds(d);
    assert d.rest[0] == inner[0];
    if StartsStmt(d.rest[0]) {
      SproutStarts(inner);
      TakeIs(Fresh(d)) by { FreshIs(d); }
      FreshIs(d);
      SecondIs(inner, d.rest);
      AtNameIs(Take(Fresh(d)));
      NameSecond(d.rest);
      DeclaresIs(d.rest);
      DeclarationIs(d.rest);
    }
  }

  lemma {:induction false} ExprStmtReads(t: Tree, rest: seq<Token>, d: Draft)
    requires Statement(t, rest) && d.rest == Tokens(t) + rest && d.rest != [] && t.Node? && t.kind in {Semi, Bare}
    ensures Stmt(d) == Ok(Draft(d.kids + [t], rest, d.errors))
    decreases t, 7
  {
    hide *;
    ExprStmtTaken(t, rest, d);
    StatementIs(t, rest);
    LeadsNo(t, rest);
    ExprStmtIs(d);
    FreshIs(d);
    NodeTokens(t);
    var e := t.kids[0];
    assert [] + [e] == [e];
    if t.kind.Semi? {
      SemiIs(t, rest);
      Assoc(Tokens(e), [Semicolon], rest);
      ExprReads(e, 0, [Semicolon] + rest, Fresh(d));
      LeafTaken(Draft([e], [Semicolon] + rest, d.errors), Semicolon, rest);
      assert [e] + [Leaf(Semicolon)] == t.kids;
    } else {
      TokensOfOne(e);
      assert t.kids == [e];
      ExprReads(e, 0, rest, Fresh(d));
      AtIs(Draft([e], rest, d.errors), Semicolon);
      StartsIs(rest, Semicolon);
    }
  }

  lemma SkipsNone(d: Draft)
    ensures !At(d, Semicolon) ==> SkipSemicolons(d) == d
  {
  }

  /** The statements from `i` to `n`, where the list ends. */
  lemma {:induction false} ListReads(b: Draft, kids: seq<Tree>, i: nat, n: nat, topLevel: bool, rest: seq<Token>)
    requires i <= n <= |kids| && ListForm(kids[i..n], topLevel, From(kids, n, rest))
    ensures StmtList(Stand(b, kids, i, rest), topLevel) == Stand(b, kids, n, rest)
    decreases kids, 1, n - i
  {
    hide *;
    var d := Stand(b, kids, i, rest);
    ListPart(kids, i, n, topLevel, rest);
    StmtListIs(d, topLevel);
    AtIs(d, Semicolon);
    AtIs(d, RBrace);
    SkipsNone(d);
    if i == n {
      StandIs(b, kids, i, rest);
      StartsIs(d.rest, RBrace);
    } else if kids[i] == Leaf(Semicolon) {
      StandTake(b, kids, i, rest);
      Recovery.ListSkips(d, topLevel);
      ListReads(b, kids, i + 1, n, topLevel, rest);
    } else {
      StandNext(b, kids, i, rest);
      StmtBegins(kids[i], From(kids, i + 1, rest));
      StmtReads(kids[i], From(kids, i + 1, rest), d);
      ListReads(b, kids, i + 1, n, topLevel, rest);
    }
  }

  /** A program is parsed as it stands, and nothing is reported. */
  lemma ProgramParses(kids: seq<Tree>)
    requires Program(kids)
    ensures Parse(TokensOf(kids)) == Draft(kids, [], [])
  {
    hide ListForm, StmtList;
    var b := Draft([], [], []);
    assert kids[0..|kids|] == kids && TokensOf(kids) + [] == TokensOf(kids) && [] + kids == kids;
    ToTheEnd(kids, |kids|, []);
    StandBegin(b, kids, []);
    ListReads(b, kids, 0, |kids|, true, []);
  }

  /** One list of tokens is at most one program. */
  lemma Unambiguous(a: seq<Tree>, b: seq<Tree>)
    requires Program(a) && Program(b) && TokensOf(a) == TokensOf(b)
    ensures a == b
  {
    ProgramParses(a);
    ProgramParses(b);
  }
}
