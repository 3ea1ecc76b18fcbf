/**
 What is parsed depends on nothing but the tokens from where parsing starts up
 to where it stops: neither errors recorded before nor, where a semicolon closes
 text without opening braces, the tokens after that semicolon make a difference.
 */
module GrammarLocality {
  import Pratt
  import opened Grammar
  import opened GrammarUnfoldings
  import GrammarLaws

  /** Errors recorded before, and tokens that come after. */
  datatype Context = Context(errors: seq<Problem>, more: seq<Token>)

  /**
   Behind a brace semicolons separate statements of a block; an actor's body is parsed even if its brace is missing.
   */
  predicate Opens(t: Token) {
    t.LBrace? || t.HashBrace? || t == Key(Actor)
  }

  /** Text that ends with a semicolon and opens no braces. */
  predicate Shut(ts: seq<Token>) {
    ts != [] && ts[|ts| - 1] == Semicolon && forall i :: 0 <= i < |ts| ==> !Opens(ts[i])
  }

  predicate Fits(ts: seq<Token>, c: Context) {
    c.more == [] || Shut(ts)
  }

  function Amid(d: Draft, c: Context): Draft {
    Draft(d.kids, d.rest + c.more, c.errors + d.errors)
  }

  function AmidAll(r: Outcome, c: Context): Outcome {
    match r
    case Ok(d) => Ok(Amid(d, c))
    case Err(why, rest, errors) => Err(why, rest + c.more, c.errors + errors)
  }

  function Left(r: Outcome): seq<Token> {
    if r.Ok? then r.d.rest else r.rest
  }

  /** The context is where it was, and the closing semicolon is still to come. */
  predicate Same(r: Outcome, s: Outcome, c: Context) {
    s == AmidAll(r, c) && Fits(Left(r), c)
  }

  // ----- steps -----

  lemma Starts(d: Draft, c: Context)
    requires Fits(d.rest, c)
    ensures Fresh(Amid(d, c)) == Amid(Fresh(d), c) && Fresh(d).rest == d.rest
    ensures Amid(d, c).rest == [] <==> d.rest == []
    ensures d.rest != [] ==> Amid(d, c).rest[0] == d.rest[0]
    ensures d.rest != [] && c.more != [] ==> !Opens(d.rest[0])
    ensures forall t :: At(Amid(d, c), t) == At(d, t)
    ensures forall k :: AtKey(Amid(d, c), k) == AtKey(d, k)
    ensures AtName(Amid(d, c)) == AtName(d)
    ensures d.rest != [] ==> Take(Amid(d, c)) == Amid(Take(d), c) && (Take(d).rest == [] || Fits(Take(d).rest, c))
    ensures d.rest != [] && (d.rest[0] != Semicolon || c.more == []) ==> Fits(Take(d).rest, c)
  {
    if d.rest != [] {
      assert Amid(d, c).rest[1..] == d.rest[1..] + c.more;
      if c.more != [] && d.rest[0] != Semicolon {
        assert |d.rest| > 1;
      }
    }
  }

  lemma NeedSame(d: Draft, t: Token, c: Context)
    requires Fits(d.rest, c) && t != Semicolon
    ensures Need(Amid(d, c), t) == Amid(Need(d, t), c) && Fits(Need(d, t).rest, c)
  {
    Starts(d, c);
    hide Take;
    assert c.errors + (d.errors + [Missing(t)]) == c.errors + d.errors + [Missing(t)];
  }

  lemma NeedKeySame(d: Draft, k: Keyword, c: Context)
    requires Fits(d.rest, c)
    ensures NeedKey(Amid(d, c), k) == Amid(NeedKey(d, k), c) && Fits(NeedKey(d, k).rest, c)
  {
    Starts(d, c);
    hide Take;
    assert c.errors + (d.errors + [Missing(Key(k))]) == c.errors + d.errors + [Missing(Key(k))];
  }

  lemma NameSame(d: Draft, c: Context)
    requires Fits(d.rest, c)
    ensures Same(Name(d), Name(Amid(d, c)), c)
  {
    Starts(d, c);
    hide Take;
  }

  lemma FailSame(why: Problem, d: Draft, c: Context)
    requires Fits(d.rest, c)
    ensures Same(Fail(why, d), Fail(why, Amid(d, c)), c)
  {
  }

  lemma JoinSame(d: Draft, part: Draft, c: Context)
    requires Onward(Fresh(d), part)
    ensures Onward(Fresh(Amid(d, c)), Amid(part, c)) && Join(Amid(d, c), Amid(part, c)) == Amid(Join(d, part), c)
  {
    assert Text(Amid(part, c)) == Text(part) + c.more;
    assert Text(Fresh(Amid(d, c))) == Text(Fresh(d)) + c.more;
  }

  lemma WrapSame(kind: Kind, d: Draft, c: Context)
    ensures Wrap(kind, Amid(d, c)) == Amid(Wrap(kind, d), c)
  {
  }

  lemma WholeSame(kind: Kind, d: Draft, r: Outcome, s: Outcome, c: Context)
    requires Follows(Fresh(d), r) && Same(r, s, c)
    ensures Follows(Fresh(Amid(d, c)), s)
    ensures Same(Whole(kind, d, r), Whole(kind, Amid(d, c), s), c)
  {
    if r.Ok? {
      JoinSame(d, r.d, c);
      JoinSame(d, Wrap(kind, r.d), c);
      WrapSame(kind, r.d, c);
    }
    hide Text;
  }

  // ----- lists -----

  lemma {:induction false} ItemsSame(d: Draft, kind: ItemKind, closer: Token, c: Context)
    requires Fits(d.rest, c) && closer != Semicolon
    ensures Same(Items(d, kind, closer), Items(Amid(d, c), kind, closer), c)
    decreases |d.rest|, 10
  {
    hide Take, ItemsLoop, Amid, Text;
    Starts(d, c);
    if !At(d, closer) {
      ItemsLoopSame(d, kind, closer, c);
    }
  }

  lemma {:induction false} ItemsLoopSame(d: Draft, kind: ItemKind, closer: Token, c: Context)
    requires Fits(d.rest, c) && closer != Semicolon
    ensures Same(ItemsLoop(d, kind, closer), ItemsLoop(Amid(d, c), kind, closer), c)
    decreases |d.rest|, 9
  {
    hide ItemsLoop, Take, Need, OneItem, Amid, Text;
    ItemsLoopIs(d, kind, closer);
    ItemsLoopIs(Amid(d, c), kind, closer);
    Starts(d, c);
    if At(d, DotDot) && (kind.FieldPatterns? || kind.ElementPatterns?) {
      var rest := Take(d);
      Starts(rest, c);
      NeedSame(rest, closer, c);
      if AtName(rest) {
        NeedSame(Take(rest), closer, c);
      }
    } else {
      OneItemSame(d, kind, c);
      var one := OneItem(d, kind);
      if one.Ok? {
        Starts(one.d, c);
        NeedSame(one.d, closer, c);
        if At(one.d, Comma) {
          ItemsLoopSame(Take(one.d), kind, closer, c);
        }
      }
    }
  }

  lemma {:induction false} OneItemSame(d: Draft, kind: ItemKind, c: Context)
    requires Fits(d.rest, c)
    ensures Same(OneItem(d, kind), OneItem(Amid(d, c), kind), c)
    decreases |d.rest|, 8
  {
    hide Take, Need, Expr, TypeOf, Name, MaybeType, Items, Pattern, Amid, Text;
    NameSame(d, c);
    var name := Name(d);
    if name.Ok? {
      Starts(name.d, c);
      NeedSame(name.d, Colon, c);
    }
    match kind
    case Exprs => ExprSame(d, 0, c);
    case Types => TypeSame(d, c);
    case Names =>
    case Params =>
      if name.Ok? {
        MaybeTypeSame(name.d, c);
      }
    case FieldDecls =>
      if name.Ok? {
        TypeSame(Need(name.d, Colon), c);
      }
    case Variants =>
      if name.Ok? && At(name.d, LParen) {
        ItemsSame(Take(name.d), Types, RParen, c);
      }
    case Patterns => PatternSame(d, c);
    case FieldPatterns =>
      if name.Ok? && At(name.d, Colon) {
        PatternSame(Take(name.d), c);
      }
    case ElementPatterns => PatternSame(d, c);
  }

  // ----- types -----

  lemma {:induction false} MaybeTypeSame(d: Draft, c: Context)
    requires Fits(d.rest, c)
    ensures Same(MaybeType(d), MaybeType(Amid(d, c)), c)
    decreases |d.rest|, 8
  {
    hide Take, TypeOf, Amid, Text;
    Starts(d, c);
    if At(d, Colon) {
      TypeSame(Take(d), c);
    }
  }

  lemma {:induction false} MaybeResultSame(d: Draft, c: Context)
    requires Fits(d.rest, c)
    ensures Same(MaybeResult(d), MaybeResult(Amid(d, c)), c)
    decreases |d.rest|, 8
  {
    hide Take, TypeOf, Amid, Text;
    Starts(d, c);
    if At(d, Arrow) {
      TypeSame(Take(d), c);
    }
  }

  lemma {:induction false} TypeSame(d: Draft, c: Context)
    requires Fits(d.rest, c)
    ensures Same(TypeOf(d), TypeOf(Amid(d, c)), c)
    decreases |d.rest|, 7
  {
    hide Fresh, Take, FunctionType, NamedType, UnionLoop, Join, Whole, Amid, Text;
    Starts(d, c);
    if AtKey(d, Fn) {
      FunctionTypeSame(Fresh(d), c);
      WholeSame(FnType, d, FunctionType(Fresh(d)), FunctionType(Amid(Fresh(d), c)), c);
    } else {
      NamedTypeSame(Fresh(d), c);
      var first := NamedType(Fresh(d));
      if first.Ok? {
        Starts(first.d, c);
        JoinSame(d, first.d, c);
        if At(first.d, Bar) {
          UnionLoopSame(first.d, c);
          WholeSame(TypeUnion, d, UnionLoop(first.d), UnionLoop(Amid(first.d, c)), c);
        }
      }
    }
  }

  lemma {:induction false} FunctionTypeSame(d: Draft, c: Context)
    requires Fits(d.rest, c) && AtKey(d, Fn)
    ensures Amid(d, c).rest != [] && Same(FunctionType(d), FunctionType(Amid(d, c)), c)
    decreases |d.rest|, 6
  {
    hide Take, Need, Items, TypeOf, Amid, Text;
    Starts(d, c);
    NeedSame(Take(d), LParen, c);
    ItemsSame(Need(Take(d), LParen), Types, RParen, c);
    var params := Items(Need(Take(d), LParen), Types, RParen);
    if params.Ok? {
      NeedSame(params.d, Arrow, c);
      TypeSame(Need(params.d, Arrow), c);
    }
  }

  lemma {:induction false} NamedTypeSame(d: Draft, c: Context)
    requires Fits(d.rest, c)
    ensures Same(NamedType(d), NamedType(Amid(d, c)), c)
    decreases |d.rest|, 6
  {
    hide Fresh, Name, TypeParams, Whole, Amid, Text;
    Starts(d, c);
    NameSame(Fresh(d), c);
    var name := Name(Fresh(d));
    if name.Ok? {
      TypeParamsSame(name.d, Types, c);
      WholeSame(TypeName, d, TypeParams(name.d, Types), TypeParams(Amid(name.d, c), Types), c);
    }
  }

  lemma {:induction false} TypeParamsSame(d: Draft, kind: ItemKind, c: Context)
    requires Fits(d.rest, c)
    ensures Same(TypeParams(d, kind), TypeParams(Amid(d, c), kind), c)
    decreases |d.rest|, 11
  {
    hide Take, Items, Amid, Text;
    Starts(d, c);
    if At(d, Op(Pratt.Lt)) {
      ItemsSame(Take(d), kind, Op(Pratt.Gt), c);
    }
  }

  lemma {:induction false} UnionLoopSame(d: Draft, c: Context)
    requires Fits(d.rest, c)
    ensures Same(UnionLoop(d), UnionLoop(Amid(d, c)), c)
    decreases |d.rest|, 0
  {
    hide UnionLoop, Take, NamedType, Amid, Text;
    UnionLoopIs(d);
    UnionLoopIs(Amid(d, c));
    Starts(d, c);
    if At(d, Bar) {
      NamedTypeSame(Take(d), c);
      var next := NamedType(Take(d));
      if next.Ok? {
        UnionLoopSame(next.d, c);
      }
    }
  }

  // ----- patterns -----

  lemma {:induction false} PatternSame(d: Draft, c: Context)
    requires Fits(d.rest, c)
    ensures Same(Pattern(d), Pattern(Amid(d, c)), c)
    decreases |d.rest|, 7
  {
    hide Fresh, AtomicPattern, PatternLoop, Join, Whole, Amid, Text;
    Starts(d, c);
    AtomicPatternSame(Fresh(d), c);
    var first := AtomicPattern(Fresh(d));
    if first.Ok? {
      Starts(first.d, c);
      JoinSame(d, first.d, c);
      if At(first.d, Bar) {
        PatternLoopSame(first.d, c);
        WholeSame(PatternOr, d, PatternLoop(first.d), PatternLoop(Amid(first.d, c)), c);
      }
    }
  }

  lemma {:induction false} PatternLoopSame(d: Draft, c: Context)
    requires Fits(d.rest, c)
    ensures Same(PatternLoop(d), PatternLoop(Amid(d, c)), c)
    decreases |d.rest|, 0
  {
    hide PatternLoop, Take, AtomicPattern, Amid, Text;
    PatternLoopIs(d);
    PatternLoopIs(Amid(d, c));
    Starts(d, c);
    if At(d, Bar) {
      AtomicPatternSame(Take(d), c);
      var next := AtomicPattern(Take(d));
      if next.Ok? {
        PatternLoopSame(next.d, c);
      }
    }
  }

  /** The second token, which is looked at ahead, is there or it is not. */
  lemma SecondSame(d: Draft, c: Context)
    requires Fits(d.rest, c) && d.rest != [] && d.rest[0] != Semicolon
    ensures |Amid(d, c).rest| >= 2 <==> |d.rest| >= 2
    ensures |d.rest| >= 2 ==> Amid(d, c).rest[1] == d.rest[1]
  {
  }

  lemma {:induction false} AtomicPatternSame(d: Draft, c: Context)
    requires Fits(d.rest, c)
    ensures Same(AtomicPattern(d), AtomicPattern(Amid(d, c)), c)
    decreases |d.rest|, 6
  {
    hide Fresh, Take, Fail, Items, UpperPattern, Join, Wrap, Whole, Amid, Text;
    Starts(d, c);
    FailSame(UnexpectedInPattern, d, c);
    if d.rest != [] && d.rest[0] != Semicolon {
      var t := d.rest[0];
      SecondSame(d, c);
      if t.Str? {
        FailSame(BadInterpolation, Take(d), c);
      } else if t.Ident? || t.LBracket? || t.LBrace? {
        LongPatternSame(d, c);
      } else if t == Op(Pratt.Minus) && |d.rest| >= 2 && d.rest[1].Number? {
        NegativeSame(d, c);
      }
    }
  }

  lemma NegativeSame(d: Draft, c: Context)
    requires Fits(d.rest, c) && |d.rest| >= 2 && d.rest[0] != Semicolon && d.rest[1] != Semicolon
    ensures |Amid(d, c).rest| >= 2
    ensures Join(Amid(d, c), Wrap(PatternAtom, Take(Take(Fresh(Amid(d, c)))))) ==
              Amid(Join(d, Wrap(PatternAtom, Take(Take(Fresh(d))))), c)
    ensures Fits(d.rest[2..], c)
  {
    hide Fresh, Take, Join, Wrap, Amid, Text;
    SecondSame(d, c);
    Starts(d, c);
    Starts(Fresh(d), c);
    var s := Take(Fresh(d));
    Starts(s, c);
    WrapSame(PatternAtom, Take(s), c);
    JoinSame(d, Wrap(PatternAtom, Take(s)), c);
  }

  /** A bracket, or a keyword, and a list of items. */
  lemma {:induction false} ListedSame(d: Draft, kind: Kind, items: ItemKind, closer: Token, c: Context)
    requires Fits(d.rest, c) && d.rest != [] && (d.rest[0] != Semicolon || c.more == []) && closer != Semicolon
    ensures Amid(d, c).rest != [] && Follows(Fresh(d), Items(Take(Fresh(d)), items, closer))
    ensures Follows(Fresh(Amid(d, c)), Items(Take(Fresh(Amid(d, c))), items, closer))
    ensures Same(Whole(kind, d, Items(Take(Fresh(d)), items, closer)),
                 Whole(kind, Amid(d, c), Items(Take(Fresh(Amid(d, c))), items, closer)), c)
    decreases |d.rest|, 4
  {
    hide Fresh, Take, Items, Whole, Amid, Text;
    Starts(d, c);
    Starts(Fresh(d), c);
    var s := Take(Fresh(d));
    ItemsSame(s, items, closer, c);
    WholeSame(kind, d, Items(s, items, closer), Items(Amid(s, c), items, closer), c);
  }

  lemma {:induction false} LongPatternSame(d: Draft, c: Context)
    requires Fits(d.rest, c) && d.rest != [] && (d.rest[0].Ident? || d.rest[0].LBracket? || d.rest[0].LBrace?)
    ensures Same(AtomicPattern(d), AtomicPattern(Amid(d, c)), c)
    decreases |d.rest|, 5
  {
    hide Fresh, Take, Fail, Items, UpperPattern, Join, Wrap, Whole, Amid, Text;
    Starts(d, c);
    if d.rest[0].LBracket? {
      ListedSame(d, PatternAtom, ElementPatterns, RBracket, c);
    } else if d.rest[0].LBrace? {
      ListedSame(d, PatternAtom, FieldPatterns, RBrace, c);
    } else if d.rest[0].upper {
      Starts(Fresh(d), c);
      var s := Take(Fresh(d));
      UpperPatternSame(s, c);
      WholeSame(PatternAtom, d, UpperPattern(s), UpperPattern(Amid(s, c)), c);
    }
  }

  lemma {:induction false} UpperPatternSame(d: Draft, c: Context)
    requires Fits(d.rest, c)
    ensures Same(UpperPattern(d), UpperPattern(Amid(d, c)), c)
    decreases |d.rest|, 11
  {
    hide Take, Items, Amid, Text;
    Starts(d, c);
    if At(d, LBrace) {
      ItemsSame(Take(d), FieldPatterns, RBrace, c);
    } else if At(d, LParen) {
      ItemsSame(Take(d), Patterns, RParen, c);
    }
  }

  // ----- expressions -----

  lemma {:induction false} ExprSame(d: Draft, min: nat, c: Context)
    requires Fits(d.rest, c)
    ensures Same(Expr(d, min), Expr(Amid(d, c), min), c)
    decreases |d.rest|, 7
  {
    hide Fresh, Prefix, InfixLoop, Join, Amid, Text;
    Starts(d, c);
    PrefixSame(Fresh(d), c);
    var lhs := Prefix(Fresh(d));
    if lhs.Ok? {
      InfixLoopSame(lhs.d, min, c);
      var all := InfixLoop(lhs.d, min);
      if all.Ok? {
        JoinSame(d, all.d, c);
      }
    }
  }

  lemma {:induction false} InfixLoopSame(d: Draft, min: nat, c: Context)
    requires Fits(d.rest, c)
    ensures Same(InfixLoop(d, min), InfixLoop(Amid(d, c), min), c)
    decreases |d.rest|, 0
  {
    hide InfixLoop, Take, Expr, Wrap, Amid, Text;
    InfixLoopIs(d, min);
    InfixLoopIs(Amid(d, c), min);
    Starts(d, c);
    if d.rest != [] && d.rest[0].Op? && Pratt.Lbp(d.rest[0].sym) >= min {
      var power := Pratt.Rbp(d.rest[0].sym);
      ExprSame(Take(d), power, c);
      var both := Expr(Take(d), power);
      if both.Ok? {
        WrapSame(Infix, both.d, c);
        InfixLoopSame(Wrap(Infix, both.d), min, c);
      }
    }
  }

  lemma AtPrefixSame(d: Draft, c: Context)
    requires Fits(d.rest, c)
    ensures AtPrefix(Amid(d, c)) == AtPrefix(d) && (AtPrefix(d) ==> d.rest != [] && d.rest[0] != Semicolon)
  {
    Starts(d, c);
    hide Amid, Take;
  }

  lemma {:induction false} PrefixSame(d: Draft, c: Context)
    requires Fits(d.rest, c)
    ensures Same(Prefix(d), Prefix(Amid(d, c)), c)
    decreases |d.rest|, 6
  {
    hide *;
    Starts(d, c);
    Starts(Fresh(d), c);
    AtPrefixSame(d, c);
    GrammarLaws.PrefixIs(d);
    GrammarLaws.PrefixIs(Amid(d, c));
    if AtPrefix(d) {
      var s := Take(Fresh(d));
      ExprSame(s, Pratt.PREFIX_POWER, c);
      GrammarLaws.TakenExpr(d, Pratt.PREFIX_POWER);
      WholeSame(Unary, d, Expr(s, Pratt.PREFIX_POWER), Expr(Amid(s, c), Pratt.PREFIX_POWER), c);
    } else {
      PrimarySame(Fresh(d), c);
      var first := Primary(Fresh(d));
      SameMeans(first, Primary(Amid(Fresh(d), c)), c);
      if first.Ok? {
        OkShrinks(Fresh(d));
        PostfixLoopSame(first.d, c);
        var all := PostfixLoop(first.d);
        SameMeans(all, PostfixLoop(Amid(first.d, c)), c);
        if all.Ok? {
          JoinSame(d, all.d, c);
          SameBoth(Join(d, all.d), c);
        }
      }
    }
  }

  lemma OkShrinks(d: Draft)
    ensures Primary(d).Ok? ==> |Primary(d).d.rest| < |d.rest|
  {
    hide Primary, Text;
  }

  lemma {:induction false} PostfixLoopSame(d: Draft, c: Context)
    requires Fits(d.rest, c)
    ensures Same(PostfixLoop(d), PostfixLoop(Amid(d, c)), c)
    decreases |d.rest|, 0
  {
    hide PostfixLoop, Take, Need, Items, Expr, Selected, Wrap, Amid, Text;
    PostfixLoopIs(d);
    PostfixLoopIs(Amid(d, c));
    Starts(d, c);
    if At(d, LParen) {
      ItemsSame(Take(d), Exprs, RParen, c);
      var call := Items(Take(d), Exprs, RParen);
      if call.Ok? {
        WrapSame(Call, call.d, c);
        PostfixLoopSame(Wrap(Call, call.d), c);
      }
    } else if At(d, LBracket) {
      ExprSame(Take(d), 0, c);
      var index := Expr(Take(d), 0);
      if index.Ok? {
        NeedSame(index.d, RBracket, c);
        WrapSame(Index, Need(index.d, RBracket), c);
        PostfixLoopSame(Wrap(Index, Need(index.d, RBracket)), c);
      }
    } else if At(d, Dot) {
      SelectedSame(d, c);
      SelectedShrinks(d);
      if Selected(d).Ok? {
        PostfixLoopSame(Selected(d).d, c);
      }
    }
  }

  lemma SelectedShrinks(d: Draft)
    requires At(d, Dot)
    ensures Selected(d).Ok? ==> |Selected(d).d.rest| < |d.rest|
  {
    hide Take, Items, Wrap, Text;
  }

  lemma FieldNameSame(d: Draft, c: Context)
    requires Fits(d.rest, c)
    ensures AtFieldName(Amid(d, c)) == AtFieldName(d) && (AtFieldName(d) ==> d.rest != [] && d.rest[0] != Semicolon)
  {
    Starts(d, c);
    hide Amid, Take;
  }

  lemma AtMeans(d: Draft, t: Token)
    requires At(d, t)
    ensures d.rest != [] && d.rest[0] == t
  {
  }

  lemma SameBoth(r: Draft, c: Context)
    requires Fits(r.rest, c)
    ensures Same(Ok(r), Ok(Amid(r, c)), c)
  {
  }

  lemma SameMeans(r: Outcome, s: Outcome, c: Context)
    requires Same(r, s, c)
    ensures r.Ok? == s.Ok? && (r.Ok? ==> s.d == Amid(r.d, c) && Fits(r.d.rest, c))
  {
  }

  lemma {:induction false} SelectedSame(d: Draft, c: Context)
    requires Fits(d.rest, c) && At(d, Dot)
    ensures At(Amid(d, c), Dot) && Same(Selected(d), Selected(Amid(d, c)), c)
    decreases |d.rest|, -1
  {
    hide *;
    Starts(d, c);
    AtMeans(d, Dot);
    SelectedIs(d);
    SelectedIs(Amid(d, c));
    var dot := Take(d);
    Starts(dot, c);
    FieldNameSame(dot, c);
    FailSame(NoFieldName, dot, c);
    if AtFieldName(dot) {
      var name := Take(dot);
      Starts(name, c);
      WrapSame(Field, name, c);
      SameBoth(Wrap(Field, name), c);
      if At(name, LParen) {
        AtMeans(name, LParen);
        ItemsSame(Take(name), Exprs, RParen, c);
        var call := Items(Take(name), Exprs, RParen);
        SameMeans(call, Items(Amid(Take(name), c), Exprs, RParen), c);
        if call.Ok? {
          WrapSame(Method, call.d, c);
          SameBoth(Wrap(Method, call.d), c);
        }
      }
    }
  }

  /** The search for an arrow stops at a semicolon. */
  lemma {:induction false} ArrowSame(ts: seq<Token>, c: Context)
    requires Fits(ts, c)
    ensures ParamsThenArrow(ts + c.more) == ParamsThenArrow(ts)
    ensures LooksLikeArrowFn(ts + c.more) == LooksLikeArrowFn(ts)
    decreases |ts|
  {
    if c.more == [] {
      assert ts + c.more == ts;
    } else if |ts| >= 2 && ts[0].Ident? && ts[1].Comma? {
      assert (ts + c.more)[2..] == ts[2..] + c.more;
      ArrowSame(ts[2..], c);
    }
  }

  lemma {:induction false} PrimarySame(d: Draft, c: Context)
    requires Fits(d.rest, c)
    ensures Same(Primary(d), Primary(Amid(d, c)), c)
    decreases |d.rest|, 5
  {
    hide Fresh, Take, Fail, LooksLikeArrowFn, Parenthesised, Items, Brace, KeywordExpr, Whole, Amid, Text;
    hide Follows, Consumes;
    Starts(d, c);
    FailSame(Unexpected, d, c);
    if d.rest != [] && (d.rest[0] != Semicolon || c.more == []) {
      var t := d.rest[0];
      FailSame(BadInterpolation, Take(d), c);
      if t.LParen? {
        ParenSame(d, c);
      } else if t.LBracket? {
        ListedSame(d, Vector, Exprs, RBracket, c);
      } else if t.HashBrace? {
        ListedSame(d, Set, Exprs, RBrace, c);
      } else if t.LBrace? {
        BraceSame(d, c);
      } else if t.Key? {
        KeywordExprSame(d, t.word, c);
      }
    }
  }

  lemma {:induction false} ParenSame(d: Draft, c: Context)
    requires Fits(d.rest, c) && At(d, LParen)
    ensures Same(Primary(d), Primary(Amid(d, c)), c)
    decreases |d.rest|, 4
  {
    hide Fresh, Take, Fail, LooksLikeArrowFn, Parenthesised, Items, Brace, KeywordExpr, Whole, Amid, Text;
    Starts(d, c);
    Starts(Fresh(d), c);
    var s := Take(Fresh(d));
    FailSame(ArrowFunction, Take(d), c);
    AmidRest(d, c);
    ArrowSame(d.rest[1..], c);
    ParenthesisedSame(s, c);
    WholeSame(Paren, d, Parenthesised(s), Parenthesised(Amid(s, c)), c);
  }

  lemma AmidRest(d: Draft, c: Context)
    requires d.rest != []
    ensures Amid(d, c).rest != [] && Amid(d, c).rest[1..] == d.rest[1..] + c.more
    ensures Fits(d.rest, c) && (d.rest[0] != Semicolon || c.more == []) ==> Fits(d.rest[1..], c)
  {
  }

  lemma {:induction false} ParenthesisedSame(d: Draft, c: Context)
    requires Fits(d.rest, c)
    ensures Same(Parenthesised(d), Parenthesised(Amid(d, c)), c)
    decreases |d.rest|, 8
  {
    hide Expr, Need, Amid, Text;
    ExprSame(d, 0, c);
    var inner := Expr(d, 0);
    if inner.Ok? {
      NeedSame(inner.d, RParen, c);
    }
  }

  lemma NoValueSame(d: Draft, c: Context)
    requires Fits(d.rest, c)
    ensures NoValueHere(Amid(d, c)) == NoValueHere(d)
  {
  }

  lemma {:induction false} KeywordExprSame(d: Draft, word: Keyword, c: Context)
    requires Fits(d.rest, c) && AtKey(d, word)
    ensures AtKey(Amid(d, c), word) && Same(KeywordExpr(d, word), KeywordExpr(Amid(d, c), word), c)
    decreases |d.rest|, 4
  {
    hide Fresh, Take, Expr, FunctionBody, ControlExpr, NoValueHere, Join, Wrap, Whole, Amid, Text;
    Starts(d, c);
    Starts(Fresh(d), c);
    var s := Take(Fresh(d));
    NoValueSame(s, c);
    if word in {Raise, Reply, Await, Shared, Transact, Loop} {
      MarkedSame(d, Marked, c);
    } else if word in {Return, Break} && !NoValueHere(s) {
      MarkedSame(d, Jump, c);
    } else if word in {Return, Break, Yield, Retry, Continue} {
      WrapSame(Jump, s, c);
      JoinSame(d, Wrap(Jump, s), c);
    } else if word.Fn? {
      FunctionBodySame(s, c);
      WholeSame(LambdaExpr, d, FunctionBody(s), FunctionBody(Amid(s, c)), c);
    } else {
      ControlExprSame(d, s, word, c);
    }
  }

  /** A keyword and an expression. */
  lemma {:induction false} MarkedSame(d: Draft, kind: Kind, c: Context)
    requires Fits(d.rest, c) && d.rest != [] && d.rest[0].Key?
    ensures var s := Take(Fresh(d));
            && Follows(Fresh(d), Expr(s, 0)) && Follows(Fresh(Amid(d, c)), Expr(Amid(s, c), 0))
            && Same(Whole(kind, d, Expr(s, 0)), Whole(kind, Amid(d, c), Expr(Amid(s, c), 0)), c)
    decreases |d.rest|, 3
  {
    hide Fresh, Take, Expr, Whole, Amid, Text;
    Starts(d, c);
    Starts(Fresh(d), c);
    var s := Take(Fresh(d));
    ExprSame(s, 0, c);
    WholeSame(kind, d, Expr(s, 0), Expr(Amid(s, c), 0), c);
  }

  lemma {:induction false} ControlExprSame(d: Draft, s: Draft, word: Keyword, c: Context)
    requires Fits(d.rest, c) && AtKey(d, word) && s == Take(Fresh(d))
    ensures Amid(d, c).rest != [] && Amid(s, c) == Take(Fresh(Amid(d, c)))
    ensures Same(ControlExpr(d, s, word), ControlExpr(Amid(d, c), Amid(s, c), word), c)
    decreases |d.rest|, 3
  {
    hide Fresh, Take, Fail, IfBody, MatchBody, TwoExprs, ForBody, TryBody, SpawnBody, Whole, Amid, Text;
    Starts(d, c);
    Starts(Fresh(d), c);
    if word.If? {
      IfBodySame(s, c);
      WholeSame(IfExpr, d, IfBody(s), IfBody(Amid(s, c)), c);
    } else if word.Match? {
      MatchBodySame(s, c);
      WholeSame(MatchExpr, d, MatchBody(s), MatchBody(Amid(s, c)), c);
    } else if word.While? {
      TwoExprsSame(s, c);
      WholeSame(WhileExpr, d, TwoExprs(s), TwoExprs(Amid(s, c)), c);
    } else if word.For? {
      ForBodySame(s, c);
      WholeSame(ForExpr, d, ForBody(s), ForBody(Amid(s, c)), c);
    } else if word.Try? {
      TryBodySame(s, c);
      WholeSame(TryExpr, d, TryBody(s), TryBody(Amid(s, c)), c);
    } else if word.Spawn? {
      SpawnBodySame(s, c);
      WholeSame(SpawnExpr, d, SpawnBody(s), SpawnBody(Amid(s, c)), c);
    } else {
      FailSame(Unexpected, d, c);
    }
  }

  lemma {:induction false} TwoExprsSame(d: Draft, c: Context)
    requires Fits(d.rest, c)
    ensures Same(TwoExprs(d), TwoExprs(Amid(d, c)), c)
    decreases |d.rest|, 8
  {
    hide Expr, Amid, Text;
    ExprSame(d, 0, c);
    var first := Expr(d, 0);
    if first.Ok? {
      ExprSame(first.d, 0, c);
    }
  }

  lemma {:induction false} IfBodySame(d: Draft, c: Context)
    requires Fits(d.rest, c)
    ensures Same(IfBody(d), IfBody(Amid(d, c)), c)
    decreases |d.rest|, 9
  {
    hide IfBody, TwoExprs, Fresh, Take, Expr, Whole, Amid, Text;
    IfBodyIs(d);
    IfBodyIs(Amid(d, c));
    TwoExprsSame(d, c);
    var both := TwoExprs(d);
    if both.Ok? {
      Starts(both.d, c);
      if AtKey(both.d, Else) {
        var els := Take(both.d);
        Starts(els, c);
        Starts(Fresh(els), c);
        ExprSame(els, 0, c);
        if AtKey(els, If) {
          var s := Take(Fresh(els));
          IfBodySame(s, c);
          WholeSame(IfExpr, els, IfBody(s), IfBody(Amid(s, c)), c);
        }
      }
    }
  }

  lemma {:induction false} ForBodySame(d: Draft, c: Context)
    requires Fits(d.rest, c)
    ensures Same(ForBody(d), ForBody(Amid(d, c)), c)
    decreases |d.rest|, 9
  {
    hide Name, NeedKey, TwoExprs, Amid, Text;
    NameSame(d, c);
    var name := Name(d);
    if name.Ok? {
      NeedKeySame(name.d, In, c);
      TwoExprsSame(NeedKey(name.d, In), c);
    }
  }

  lemma {:induction false} SpawnBodySame(d: Draft, c: Context)
    requires Fits(d.rest, c)
    ensures Same(SpawnBody(d), SpawnBody(Amid(d, c)), c)
    decreases |d.rest|, 11
  {
    hide Name, Need, Items, Amid, Text;
    NameSame(d, c);
    var name := Name(d);
    if name.Ok? {
      NeedSame(name.d, LParen, c);
      ItemsSame(Need(name.d, LParen), Exprs, RParen, c);
    }
  }

  lemma {:induction false} FunctionBodySame(d: Draft, c: Context)
    requires Fits(d.rest, c)
    ensures Same(FunctionBody(d), FunctionBody(Amid(d, c)), c)
    decreases |d.rest|, 11
  {
    hide Need, Items, MaybeResult, Expr, Amid, Text;
    NeedSame(d, LParen, c);
    ItemsSame(Need(d, LParen), Params, RParen, c);
    var params := Items(Need(d, LParen), Params, RParen);
    if params.Ok? {
      MaybeResultSame(params.d, c);
      var result := MaybeResult(params.d);
      if result.Ok? {
        ExprSame(result.d, 0, c);
      }
    }
  }

  lemma {:induction false} MatchBodySame(d: Draft, c: Context)
    requires Fits(d.rest, c)
    ensures Same(MatchBody(d), MatchBody(Amid(d, c)), c)
    decreases |d.rest|, 9
  {
    hide Need, Expr, ArmsLoop, Amid, Text;
    ExprSame(d, 0, c);
    var scrutinee := Expr(d, 0);
    if scrutinee.Ok? {
      NeedSame(scrutinee.d, LBrace, c);
      ArmsLoopSame(Need(scrutinee.d, LBrace), c);
      var arms := ArmsLoop(Need(scrutinee.d, LBrace));
      if arms.Ok? {
        NeedSame(arms.d, RBrace, c);
      }
    }
  }

  lemma EndSame(d: Draft, c: Context)
    requires Fits(d.rest, c)
    ensures AtEnd(Amid(d, c)) == AtEnd(d)
  {
  }

  /** A finished item, behind those before it. */
  lemma ItemSame(d: Draft, kind: Kind, item: Draft, c: Context)
    ensures Draft(Amid(d, c).kids + [Node(kind, Amid(item, c).kids)], Amid(item, c).rest, Amid(item, c).errors) ==
              Amid(Draft(d.kids + [Node(kind, item.kids)], item.rest, item.errors), c)
  {
  }

  lemma {:induction false} ArmsLoopSame(d: Draft, c: Context)
    requires Fits(d.rest, c)
    ensures Same(ArmsLoop(d), ArmsLoop(Amid(d, c)), c)
    decreases |d.rest|, 9
  {
    hide ArmsLoop, AtEnd, Fresh, Take, Arm, Amid, Text;
    ArmsLoopIs(d);
    ArmsLoopIs(Amid(d, c));
    Starts(d, c);
    EndSame(d, c);
    if !AtEnd(d) {
      ArmSame(Fresh(d), c);
      var arm := Arm(Fresh(d));
      if arm.Ok? {
        ItemSame(d, ArmOf, arm.d, c);
        var arms := Draft(d.kids + [Node(ArmOf, arm.d.kids)], arm.d.rest, arm.d.errors);
        Starts(arms, c);
        ArmsLoopSame(if At(arms, Comma) then Take(arms) else arms, c);
      }
    }
  }

  lemma {:induction false} ArmSame(d: Draft, c: Context)
    requires Fits(d.rest, c)
    ensures Same(Arm(d), Arm(Amid(d, c)), c)
    decreases |d.rest|, 8
  {
    hide Take, Need, Expr, Pattern, Amid, Text;
    PatternSame(d, c);
    var pattern := Pattern(d);
    if pattern.Ok? {
      Starts(pattern.d, c);
      if AtKey(pattern.d, If) {
        ExprSame(Take(pattern.d), 0, c);
      }
      var guarded := if AtKey(pattern.d, If) then Expr(Take(pattern.d), 0) else pattern;
      if guarded.Ok? {
        NeedSame(guarded.d, FatArrow, c);
        ExprSame(Need(guarded.d, FatArrow), 0, c);
      }
    }
  }

  lemma {:induction false} TryBodySame(d: Draft, c: Context)
    requires Fits(d.rest, c)
    ensures Same(TryBody(d), TryBody(Amid(d, c)), c)
    decreases |d.rest|, 9
  {
    hide Take, Expr, RescueLoop, Amid, Text;
    ExprSame(d, 0, c);
    var body := Expr(d, 0);
    if body.Ok? {
      RescueLoopSame(body.d, c);
      var rescued := RescueLoop(body.d);
      if rescued.Ok? {
        Starts(rescued.d, c);
        if AtKey(rescued.d, Ensure) {
          ExprSame(Take(rescued.d), 0, c);
        }
      }
    }
  }

  lemma {:induction false} RescueLoopSame(d: Draft, c: Context)
    requires Fits(d.rest, c)
    ensures Same(RescueLoop(d), RescueLoop(Amid(d, c)), c)
    decreases |d.rest|, 0
  {
    hide RescueLoop, Fresh, Take, RescueClause, Amid, Text;
    RescueLoopIs(d);
    RescueLoopIs(Amid(d, c));
    Starts(d, c);
    Starts(Fresh(d), c);
    if AtKey(d, Rescue) {
      RescueClauseSame(Take(Fresh(d)), c);
      var one := RescueClause(Take(Fresh(d)));
      if one.Ok? {
        ItemSame(d, RescueOf, one.d, c);
        RescueLoopSame(Draft(d.kids + [Node(RescueOf, one.d.kids)], one.d.rest, one.d.errors), c);
      }
    }
  }

  lemma {:induction false} RescueClauseSame(d: Draft, c: Context)
    requires Fits(d.rest, c)
    ensures Same(RescueClause(d), RescueClause(Amid(d, c)), c)
    decreases |d.rest|, 8
  {
    hide Take, Name, Expr, Amid, Text;
    Starts(d, c);
    var named := if AtName(d) then Take(d) else d;
    Starts(named, c);
    if AtKey(named, As) {
      NameSame(Take(named), c);
    }
    var bound := if AtKey(named, As) then Name(Take(named)) else Ok(named);
    if bound.Ok? {
      ExprSame(bound.d, 0, c);
    }
  }

  // ----- blocks and maps, which closed text does not begin -----

  lemma {:induction false} BraceSame(d: Draft, c: Context)
    requires Fits(d.rest, c) && At(d, LBrace)
    ensures At(Amid(d, c), LBrace) && Same(Brace(d), Brace(Amid(d, c)), c)
    decreases |d.rest|, 4
  {
    hide Brace, BraceDecides, Fresh, Take, Need, BlockLoop, Expr, Amid, Text;
    Starts(d, c);
    Starts(Fresh(d), c);
    BraceIs(d);
    BraceIs(Amid(d, c));
    var s := Take(Fresh(d));
    Starts(s, c);
    if At(s, RBrace) {
      ItemSame(d, MapLit, Take(s), c);
    } else if s.rest != [] && StartsStmt(s.rest[0]) {
      BlockLoopSame(s, c);
      NeedSame(BlockLoop(s), RBrace, c);
      ItemSame(d, Block, Need(BlockLoop(s), RBrace), c);
    } else {
      ExprSame(Fresh(s), 0, c);
      var first := Expr(Fresh(s), 0);
      if first.Ok? {
        BraceDecidesSame(d, s, first.d, c);
      }
    }
  }

  lemma {:induction false} BraceDecidesSame(d: Draft, s: Draft, first: Draft, c: Context)
    requires c.more == [] && |first.rest| < |d.rest|
    ensures Same(BraceDecides(d.kids, s.kids, first), BraceDecides(Amid(d, c).kids, Amid(s, c).kids, Amid(first, c)), c)
    decreases |d.rest|, 3
  {
    hide FirstDecides, Take, Need, MapBody, Amid, Text;
    Starts(first, c);
    AmidParts(d, c);
    AmidParts(s, c);
    AmidParts(first, c);
    if At(first, Colon) {
      var all := Draft(s.kids + first.kids, first.rest, first.errors);
      AmidParts(all, c);
      assert Amid(all, c) == Draft(s.kids + first.kids, Amid(first, c).rest, Amid(first, c).errors);
      Starts(all, c);
      MapBodySame(Take(all), c);
      var m := MapBody(Take(all));
      if m.Ok? {
        ItemSame(d, MapLit, m.d, c);
      }
    } else {
      FirstDecidesSame(s.kids, first, c);
      var inside := FirstDecides(s.kids, first);
      NeedSame(inside, RBrace, c);
      ItemSame(d, Block, Need(inside, RBrace), c);
    }
  }

  lemma AmidParts(d: Draft, c: Context)
    ensures Amid(d, c).kids == d.kids && Amid(d, c).rest == d.rest + c.more && Amid(d, c).errors == c.errors + d.errors
  {
  }

  lemma {:induction false} FirstDecidesSame(s: seq<Tree>, first: Draft, c: Context)
    requires c.more == []
    ensures FirstDecides(s, Amid(first, c)) == Amid(FirstDecides(s, first), c)
    decreases |first.rest|, 14
  {
    hide Take, BlockLoop, Text;
    Starts(first, c);
    if At(first, Semicolon) {
      var semi := Take(first);
      BlockLoopSame(Draft(s + [Node(Semi, semi.kids)], semi.rest, semi.errors), c);
    } else if !At(first, RBrace) {
      assert c.errors + (first.errors + [NoSeparator]) == c.errors + first.errors + [NoSeparator];
    }
  }

  lemma {:induction false} MapBodySame(d: Draft, c: Context)
    requires c.more == []
    ensures Same(MapBody(d), MapBody(Amid(d, c)), c)
    decreases |d.rest|, 8
  {
    hide Expr, MapLoop, Need, Amid, Text;
    ExprSame(d, 0, c);
    var first := Expr(d, 0);
    if first.Ok? {
      MapLoopSame(first.d, c);
      var entries := MapLoop(first.d);
      if entries.Ok? {
        NeedSame(entries.d, RBrace, c);
      }
    }
  }

  lemma {:induction false} MapLoopSame(d: Draft, c: Context)
    requires c.more == []
    ensures Same(MapLoop(d), MapLoop(Amid(d, c)), c)
    decreases |d.rest|, 0
  {
    hide MapLoop, Take, Need, Expr, Amid, Text;
    MapLoopIs(d);
    MapLoopIs(Amid(d, c));
    Starts(d, c);
    if At(d, Comma) {
      Starts(Take(d), c);
      if !At(Take(d), RBrace) {
        ExprSame(Take(d), 0, c);
        var key := Expr(Take(d), 0);
        if key.Ok? {
          NeedSame(key.d, Colon, c);
          ExprSame(Need(key.d, Colon), 0, c);
          var entry := Expr(Need(key.d, Colon), 0);
          if entry.Ok? {
            MapLoopSame(entry.d, c);
          }
        }
      }
    }
  }

  lemma {:induction false} BlockLoopSame(d: Draft, c: Context)
    requires c.more == []
    ensures BlockLoop(Amid(d, c)) == Amid(BlockLoop(d), c)
    decreases |d.rest|, 13
  {
    hide BlockLoop, AtEnd, EndsBare, Stmt, Resynced, Take, Amid, Text;
    BlockLoopIs(d);
    BlockLoopIs(Amid(d, c));
    Starts(d, c);
    EndSame(d, c);
    AtEndIs(d);
    if !AtEnd(d) {
      StmtSame(d, c);
      var r := Stmt(d);
      if r.Err? {
        ResyncedSame(d, r, false, c);
        GrammarLaws.ListAdvances(d, false);
        BlockLoopSame(Resynced(d, r, false), c);
      } else {
        Starts(r.d, c);
        AmidParts(r.d, c);
        if !EndsBare(r.d.kids) {
          BlockLoopSame(if At(r.d, Semicolon) then Take(r.d) else r.d, c);
        }
      }
    }
  }

  lemma AtEndIs(d: Draft)
    ensures AtEnd(d) <==> d.rest == [] || d.rest[0] == RBrace
  {
  }

  // ----- recovery -----

  lemma {:induction false} ResyncSame(ts: seq<Token>, topLevel: bool, c: Context)
    requires ts == [] || Fits(ts, c)
    ensures ts != [] || c.more == [] ==> Resync(ts + c.more, topLevel) == Resync(ts, topLevel) + c.more
    ensures Resync(ts, topLevel) == [] || Fits(Resync(ts, topLevel), c)
    decreases |ts|
  {
    if c.more == [] {
      assert ts + c.more == ts;
    } else if ts != [] {
      assert (ts + c.more)[1..] == ts[1..] + c.more;
      if ts[0] != Semicolon {
        assert |ts| > 1;
        ResyncSame(ts[1..], topLevel, c);
      }
    }
  }

  lemma ResyncedSame(d: Draft, r: Outcome, topLevel: bool, c: Context)
    requires r.Err? && Follows(d, r) && Fits(r.rest, c)
    ensures Follows(Amid(d, c), AmidAll(r, c))
    ensures Resynced(Amid(d, c), AmidAll(r, c), topLevel) == Amid(Resynced(d, r, topLevel), c)
    ensures Resynced(d, r, topLevel).rest == [] || Fits(Resynced(d, r, topLevel).rest, c)
  {
    ResyncSame(r.rest, topLevel, c);
    hide Resync, Text;
    assert c.errors + (r.errors + [r.why]) == c.errors + r.errors + [r.why];
  }

  // ----- statements -----

  /** As `Same`, but the semicolon may have been taken as the end of a statement. */
  predicate Closed(r: Outcome, s: Outcome, c: Context) {
    s == AmidAll(r, c) && ((r.Ok? && Left(r) == []) || Fits(Left(r), c))
  }

  lemma {:induction false} StmtSame(d: Draft, c: Context)
    requires Fits(d.rest, c) && d.rest != []
    ensures Amid(d, c).rest != [] && Closed(Stmt(d), Stmt(Amid(d, c)), c)
    decreases |d.rest|, 12
  {
    hide Fresh, Take, ExprStmt, Binding, DeclaresShared, NamedFunction, Definition, Whole, Amid, Text;
    Starts(d, c);
    Starts(Fresh(d), c);
    ExprStmtSame(d, c);
    if StartsStmt(d.rest[0]) {
      var s, word := Take(Fresh(d)), d.rest[0].word;
      Starts(s, c);
      if word.Let? || word.State? || word.Shared? {
        DeclaresSame(d, c);
        BindingSame(s, c);
        WholeSame(LetStmt, d, Binding(s), Binding(Amid(s, c)), c);
      } else if word.Fn? || word.On? {
        NamedFunctionSame(s, c);
        WholeSame(FnStmt, d, NamedFunction(s), NamedFunction(Amid(s, c)), c);
        WholeSame(OnStmt, d, NamedFunction(s), NamedFunction(Amid(s, c)), c);
      } else {
        DefinitionSame(d, s, word, c);
      }
    }
  }

  lemma DeclaresSame(d: Draft, c: Context)
    requires Fits(d.rest, c) && d.rest != [] && d.rest[0].Key?
    ensures DeclaresShared(Amid(d, c).rest) == DeclaresShared(d.rest)
  {
  }

  lemma {:induction false} DefinitionSame(d: Draft, s: Draft, word: Keyword, c: Context)
    requires Fits(d.rest, c) && AtKey(d, word) && s == Take(Fresh(d))
    ensures Amid(d, c).rest != [] && Amid(s, c) == Take(Fresh(Amid(d, c)))
    ensures Same(Definition(d, s, word), Definition(Amid(d, c), Amid(s, c), word), c)
    decreases |d.rest|, 11
  {
    hide Fresh, Take, Need, TypeDef, EnumDef, ActorDef, ImportPath, Whole, Amid, Text;
    Starts(d, c);
    Starts(Fresh(d), c);
    if word.Type? {
      TypeDefSame(s, c);
      WholeSame(TypeStmt, d, TypeDef(s), TypeDef(Amid(s, c)), c);
    } else if word.Enum? {
      EnumDefSame(s, c);
      WholeSame(EnumStmt, d, EnumDef(s), EnumDef(Amid(s, c)), c);
    } else if word.Actor? {
      ActorDefSame(s, c);
      WholeSame(ActorStmt, d, ActorDef(s), ActorDef(Amid(s, c)), c);
    } else {
      NeedSame(s, Key(Import), c);
      var path := if word.Lazy? then Need(s, Key(Import)) else s;
      ImportPathSame(path, c);
      WholeSame(ImportStmt, d, ImportPath(path), ImportPath(Amid(path, c)), c);
    }
  }

  lemma {:induction false} ExprStmtSame(d: Draft, c: Context)
    requires Fits(d.rest, c) && d.rest != []
    ensures Amid(d, c).rest != [] && Closed(ExprStmt(d), ExprStmt(Amid(d, c)), c)
    decreases |d.rest|, 8
  {
    hide Fresh, Take, Expr, Join, Wrap, Amid, Text;
    Starts(d, c);
    ExprSame(Fresh(d), 0, c);
    var e := Expr(Fresh(d), 0);
    if e.Ok? {
      Starts(e.d, c);
      if At(e.d, Semicolon) {
        WrapSame(Semi, Take(e.d), c);
        JoinSame(d, Wrap(Semi, Take(e.d)), c);
      } else {
        WrapSame(Bare, e.d, c);
        JoinSame(d, Wrap(Bare, e.d), c);
      }
    }
  }

  lemma {:induction false} BindingSame(d: Draft, c: Context)
    requires Fits(d.rest, c)
    ensures Same(Binding(d), Binding(Amid(d, c)), c)
    decreases |d.rest|, 9
  {
    hide Name, MaybeType, Need, Expr, Amid, Text;
    NameSame(d, c);
    var name := Name(d);
    if name.Ok? {
      MaybeTypeSame(name.d, c);
      var typed := MaybeType(name.d);
      if typed.Ok? {
        NeedSame(typed.d, Op(Pratt.Set), c);
        ExprSame(Need(typed.d, Op(Pratt.Set)), 0, c);
      }
    }
  }

  lemma {:induction false} NamedFunctionSame(d: Draft, c: Context)
    requires Fits(d.rest, c)
    ensures Same(NamedFunction(d), NamedFunction(Amid(d, c)), c)
    decreases |d.rest|, 12
  {
    hide Name, FunctionBody, Amid, Text;
    NameSame(d, c);
    var name := Name(d);
    if name.Ok? {
      FunctionBodySame(name.d, c);
    }
  }

  lemma {:induction false} TypeDefSame(d: Draft, c: Context)
    requires Fits(d.rest, c)
    ensures Same(TypeDef(d), TypeDef(Amid(d, c)), c)
    decreases |d.rest|, 12
  {
    hide Name, TypeParams, Need, Items, Amid, Text;
    NameSame(d, c);
    var name := Name(d);
    if name.Ok? {
      TypeParamsSame(name.d, Names, c);
      var params := TypeParams(name.d, Names);
      if params.Ok? {
        NeedSame(params.d, Op(Pratt.Set), c);
        NeedSame(Need(params.d, Op(Pratt.Set)), LBrace, c);
        ItemsSame(Need(Need(params.d, Op(Pratt.Set)), LBrace), FieldDecls, RBrace, c);
      }
    }
  }

  lemma {:induction false} EnumDefSame(d: Draft, c: Context)
    requires Fits(d.rest, c)
    ensures Same(EnumDef(d), EnumDef(Amid(d, c)), c)
    decreases |d.rest|, 12
  {
    hide Name, TypeParams, Need, Items, Amid, Text;
    NameSame(d, c);
    var name := Name(d);
    if name.Ok? {
      TypeParamsSame(name.d, Names, c);
      var params := TypeParams(name.d, Names);
      if params.Ok? {
        NeedSame(params.d, LBrace, c);
        ItemsSame(Need(params.d, LBrace), Variants, RBrace, c);
      }
    }
  }

  lemma {:induction false} ActorDefSame(d: Draft, c: Context)
    requires c.more == []
    ensures Same(ActorDef(d), ActorDef(Amid(d, c)), c)
    decreases |d.rest|, 12
  {
    hide Name, Need, StmtList, Amid, Text;
    NameSame(d, c);
    var name := Name(d);
    if name.Ok? {
      NeedSame(name.d, LBrace, c);
      StmtListSame(Need(name.d, LBrace), false, c);
      NeedSame(StmtList(Need(name.d, LBrace), false), RBrace, c);
    }
  }

  lemma {:induction false} ImportPathSame(d: Draft, c: Context)
    requires Fits(d.rest, c)
    ensures Same(ImportPath(d), ImportPath(Amid(d, c)), c)
    decreases |d.rest|
  {
    hide ImportPath, Take, Name, Amid, Text;
    ImportPathIs(d);
    ImportPathIs(Amid(d, c));
    NameSame(d, c);
    var name := Name(d);
    if name.Ok? {
      Starts(name.d, c);
      if At(name.d, Dot) {
        ImportPathSame(Take(name.d), c);
      } else if AtKey(name.d, As) {
        NameSame(Take(name.d), c);
      }
    }
  }

  // ----- lists of statements -----

  lemma {:induction false} SkipSame(d: Draft, c: Context)
    requires c.more == []
    ensures SkipSemicolons(Amid(d, c)) == Amid(SkipSemicolons(d), c)
    decreases |d.rest|
  {
    hide Take, Amid, Text;
    Starts(d, c);
    if At(d, Semicolon) {
      SkipSame(Take(d), c);
    }
  }

  lemma {:induction false} StmtListSame(d: Draft, topLevel: bool, c: Context)
    requires c.more == []
    ensures StmtList(Amid(d, c), topLevel) == Amid(StmtList(d, topLevel), c)
    decreases |d.rest|, 14
  {
    hide StmtList, SkipSemicolons, Stmt, Resynced, Resync, Amid, Text;
    StmtListIs(d, topLevel);
    StmtListIs(Amid(d, c), topLevel);
    SkipSame(d, c);
    var s := SkipSemicolons(d);
    Starts(s, c);
    if s.rest != [] && (topLevel || !At(s, RBrace)) {
      StmtSame(s, c);
      var r := Stmt(s);
      if r.Err? {
        ResyncedSame(s, r, topLevel, c);
      }
      StmtListSame(if r.Ok? then r.d else Resynced(s, r, topLevel), topLevel, c);
    }
  }

  /** The semicolons at the front, or all there is. */
  lemma {:induction false} SkipOn(d: Draft, c: Context)
    requires d.rest == [] || Shut(d.rest)
    ensures var s := SkipSemicolons(d);
            && (s.rest != [] ==> Shut(s.rest) && SkipSemicolons(Amid(d, c)) == Amid(s, c))
            && (s.rest == [] ==> SkipSemicolons(Amid(d, c)) == SkipSemicolons(Amid(s, c)))
    decreases |d.rest|
  {
    hide Take, Amid, Text, Shut, Opens;
    if At(d, Semicolon) {
      ShutStarts(d, c);
      SkipOn(Take(d), c);
    } else if d.rest != [] {
      ShutStarts(d, c);
    }
  }

  lemma ShutStarts(d: Draft, c: Context)
    requires Shut(d.rest)
    ensures Amid(d, c).rest != [] && d.rest != [] && Amid(d, c).rest[0] == d.rest[0]
    ensures Take(Amid(d, c)) == Amid(Take(d), c) && (Take(d).rest == [] || Shut(Take(d).rest))
  {
    assert Amid(d, c).rest[1..] == d.rest[1..] + c.more;
  }

  /** Behind closed text the list goes on with what follows. */
  lemma {:induction false} ListGoesOn(d: Draft, c: Context)
    requires (d.rest == [] || Shut(d.rest)) && c.more != []
    ensures StmtList(Amid(d, c), true) == StmtList(Amid(StmtList(d, true), c), true)
    decreases |d.rest|
  {
    hide StmtList, SkipSemicolons, Stmt, Resynced, Resync, Amid, Text, Shut;
    StmtListIs(d, true);
    StmtListIs(Amid(d, c), true);
    SkipOn(d, c);
    var s := SkipSemicolons(d);
    if s.rest == [] {
      StmtListIs(Amid(s, c), true);
    } else {
      Starts(s, c);
      StmtSame(s, c);
      GrammarLaws.ListAdvances(s, true);
      var r := Stmt(s);
      if r.Err? {
        ResyncedSame(s, r, true, c);
      }
      ListGoesOn(if r.Ok? then r.d else Resynced(s, r, true), c);
    }
  }

  // ----- what was parsed before -----

  function Behind(kids: seq<Tree>, d: Draft): Draft {
    d.(kids := kids + d.kids)
  }

  function BehindAll(kids: seq<Tree>, r: Outcome): Outcome {
    if r.Ok? then Ok(Behind(kids, r.d)) else r
  }

  lemma JoinBehind(kids: seq<Tree>, d: Draft, part: Draft)
    requires Onward(Fresh(d), part)
    ensures Onward(Fresh(Behind(kids, d)), part) && Join(Behind(kids, d), part) == Behind(kids, Join(d, part))
  {
    assert (kids + d.kids) + part.kids == kids + (d.kids + part.kids);
    hide Text;
  }

  lemma WholeBehind(kids: seq<Tree>, kind: Kind, d: Draft, r: Outcome)
    requires Follows(Fresh(d), r)
    ensures Follows(Fresh(Behind(kids, d)), r)
    ensures Whole(kind, Behind(kids, d), r) == BehindAll(kids, Whole(kind, d, r))
  {
    if r.Ok? {
      JoinBehind(kids, d, r.d);
      JoinBehind(kids, d, Wrap(kind, r.d));
    }
    hide Text, Wrap, Join;
  }

  /** A statement's tree comes behind those before it, which make no difference. */
  lemma StmtBehind(kids: seq<Tree>, d: Draft)
    requires d.rest != []
    ensures Stmt(Behind(kids, d)) == BehindAll(kids, Stmt(d))
  {
    hide Take, ExprStmt, Binding, DeclaresShared, NamedFunction, Definition, Whole, Text;
    ExprStmtBehind(kids, d);
    assert Fresh(Behind(kids, d)) == Fresh(d);
    if StartsStmt(d.rest[0]) {
      var s, word := Take(Fresh(d)), d.rest[0].word;
      if word.Let? || word.State? || word.Shared? {
        WholeBehind(kids, LetStmt, d, Binding(s));
      } else if word.Fn? || word.On? {
        WholeBehind(kids, FnStmt, d, NamedFunction(s));
        WholeBehind(kids, OnStmt, d, NamedFunction(s));
      } else {
        DefinitionBehind(kids, d, s, word);
      }
    }
  }

  lemma ExprStmtBehind(kids: seq<Tree>, d: Draft)
    requires d.rest != []
    ensures ExprStmt(Behind(kids, d)) == BehindAll(kids, ExprStmt(d))
  {
    hide Take, Expr, Join, Wrap, Text;
    assert Fresh(Behind(kids, d)) == Fresh(d);
    var e := Expr(Fresh(d), 0);
    if e.Ok? {
      if At(e.d, Semicolon) {
        JoinBehind(kids, d, Wrap(Semi, Take(e.d)));
      } else {
        JoinBehind(kids, d, Wrap(Bare, e.d));
      }
    }
  }

  lemma DefinitionBehind(kids: seq<Tree>, d: Draft, s: Draft, word: Keyword)
    requires d.rest != [] && s == Take(Fresh(d))
    ensures s == Take(Fresh(Behind(kids, d)))
    ensures Definition(Behind(kids, d), s, word) == BehindAll(kids, Definition(d, s, word))
  {
    hide Take, Need, TypeDef, EnumDef, ActorDef, ImportPath, Whole, Text;
    assert Fresh(Behind(kids, d)) == Fresh(d);
    if word.Type? {
      WholeBehind(kids, TypeStmt, d, TypeDef(s));
    } else if word.Enum? {
      WholeBehind(kids, EnumStmt, d, EnumDef(s));
    } else if word.Actor? {
      WholeBehind(kids, ActorStmt, d, ActorDef(s));
    } else {
      WholeBehind(kids, ImportStmt, d, ImportPath(if word.Lazy? then Need(s, Key(Import)) else s));
    }
  }

  lemma {:induction false} SkipBehind(kids: seq<Tree>, d: Draft)
    ensures SkipSemicolons(Behind(kids, d)).rest == SkipSemicolons(d).rest
    ensures SkipSemicolons(Behind(kids, d)) == Behind(kids, SkipSemicolons(d))
    decreases |d.rest|
  {
    if At(d, Semicolon) {
      assert (kids + d.kids) + [Leaf(d.rest[0])] == kids + (d.kids + [Leaf(d.rest[0])]);
      SkipBehind(kids, Take(d));
    }
  }

  lemma {:induction false} ListBehind(kids: seq<Tree>, d: Draft, topLevel: bool)
    ensures StmtList(Behind(kids, d), topLevel) == Behind(kids, StmtList(d, topLevel))
    decreases |d.rest|
  {
    hide StmtList, SkipSemicolons, Stmt, Resync, Text;
    StmtListIs(d, topLevel);
    StmtListIs(Behind(kids, d), topLevel);
    SkipBehind(kids, d);
    var s := SkipSemicolons(d);
    if s.rest != [] && (topLevel || !At(s, RBrace)) {
      StmtBehind(kids, s);
      GrammarLaws.ListAdvances(s, topLevel);
      var r := Stmt(s);
      ListBehind(kids, if r.Ok? then r.d else Resynced(s, r, topLevel), topLevel);
    }
  }

  // ----- recovery is local -----

  /** Two stretches of a file, parsed one after the other. */
  function Then(p: Draft, q: Draft): Draft {
    Draft(p.kids + q.kids, q.rest, p.errors + q.errors)
  }

  lemma ListAnew(p: Draft, b: seq<Token>, topLevel: bool)
    ensures StmtList(Draft(p.kids, b, p.errors), topLevel) == Then(p, StmtList(Draft([], b, []), topLevel))
  {
    var c, start := Context(p.errors, []), Draft([], b, []);
    assert Behind(p.kids, Amid(start, c)) == Draft(p.kids, b, p.errors) by {
      assert b + [] == b && p.errors + [] == p.errors && p.kids + [] == p.kids;
    }
    ListBehind(p.kids, Amid(start, c), topLevel);
    StmtListSame(start, topLevel, c);
    hide StmtList;
    assert StmtList(start, topLevel).rest + [] == StmtList(start, topLevel).rest;
  }

  /**
   Recovery is local, for the whole language: whatever tokens without opening
   braces precede a semicolon, errors and all, what follows the semicolon is
   parsed as it would be on its own, and so is what precedes it.
   */
  lemma SemicolonSeparates(a: seq<Token>, b: seq<Token>)
    requires forall i :: 0 <= i < |a| ==> !Opens(a[i])
    ensures Parse(a + [Semicolon] + b) == Then(Parse(a + [Semicolon]), Parse(b))
  {
    var ts, c := a + [Semicolon], Context([], b);
    var start, p := Draft([], ts, []), Parse(ts);
    assert Shut(ts);
    hide StmtList;
    if b == [] {
      assert ts + b == ts;
      NothingToParse();
      assert p.kids + [] == p.kids && p.errors + [] == p.errors;
    } else {
      ListGoesOn(start, c);
      assert Amid(start, c) == Draft([], ts + b, []) && Amid(p, c) == Draft(p.kids, b, p.errors);
      ListAnew(p, b, true);
    }
  }

  lemma NothingToParse()
    ensures Parse([]) == Draft([], [], [])
  {
  }
}
