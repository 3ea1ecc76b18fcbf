/**
 Whatever is parsed without a report is a construct of the grammar, and nothing
 that follows goes on with it.
 */
module GrammarSoundness {
  import Pratt
  import opened Grammar
  import opened GrammarUnfoldings
  import opened GrammarLaws
  import opened LanguageGrammar
  import opened GrammarParts
  import opened GrammarCompleteness
  import Recovery

  // ----- from one draft to a later one -----

  /** `b` was reached from `a` without a report. */
  predicate Quietly(a: Draft, b: Draft) {
    Onward(a, b) && |a.errors| == |b.errors|
  }

  /** Something was parsed behind `d` without a report. */
  predicate Quiet(d: Draft, r: Outcome) {
    r.Ok? && Quietly(d, r.d)
  }

  /** What was parsed since `d`. */
  function Added(d: Draft, r: Draft): seq<Tree>
    requires d.kids <= r.kids
  {
    r.kids[|d.kids|..]
  }

  /** The tokens that were left at `a`. */
  lemma Behind(a: Draft, r: Draft, start: nat)
    requires Quietly(a, r) && a.kids <= r.kids && start <= |a.kids|
    ensures a.rest == From(r.kids[start..], |a.kids| - start, r.rest)
  {
    var n := |a.kids|;
    TokensJoin(r.kids[..n], r.kids[n..]);
    assert r.kids[..n] + r.kids[n..] == r.kids && r.kids[..n] == a.kids && r.kids[start..][n - start..] == r.kids[n..];
    hide TokensOf;
    Assoc(TokensOf(a.kids), TokensOf(r.kids[n..]), r.rest);
    Cancel(TokensOf(a.kids), a.rest, TokensOf(r.kids[n..]) + r.rest);
  }

  lemma Cancel(a: seq<Token>, b: seq<Token>, c: seq<Token>)
    requires a + b == a + c
    ensures b == c
  {
    assert b == (a + b)[|a|..] && c == (a + c)[|a|..];
  }

  lemma NeedQuiet(d: Draft, t: Token)
    ensures Onward(d, Need(d, t))
    ensures Quietly(d, Need(d, t)) ==> AtKind(d, t) && Need(d, t) == Take(d)
  {
    hide Text, Take;
  }

  /** A token other than a keyword is needed and found. */
  lemma NeedTaken(d: Draft, t: Token)
    requires Quietly(d, Need(d, t)) && !t.Key?
    ensures d.rest != [] && d.rest[0] == t && Need(d, t).kids == d.kids + [Leaf(t)]
    ensures |Need(d, t).rest| < |d.rest|
  {
    NeedQuiet(d, t);
    TakeIs(d);
    hide Take, Need, Text;
  }

  lemma TakeOnward(d: Draft)
    requires d.rest != []
    ensures Quietly(d, Take(d)) && Take(d).kids == d.kids + [Leaf(d.rest[0])] && |Take(d).rest| < |d.rest|
  {
    TakeIs(d);
    assert Onward(d, Take(d));
    hide Take, Text;
  }

  lemma NameWas(d: Draft)
    requires Name(d).Ok?
    ensures d.rest != [] && d.rest[0].Ident? && AtName(d)
    ensures Name(d) == Ok(Take(d)) && Take(d).kids == d.kids + [Leaf(d.rest[0])]
    ensures Quietly(d, Take(d)) && |Take(d).rest| < |d.rest|
  {
    TakeOnward(d);
    hide Take, Text, Quietly;
  }

  /** What was parsed since `d`, split at `e`. */
  lemma AddedSplit(d: Draft, e: Draft, r: Draft)
    requires d.kids <= e.kids <= r.kids
    ensures var n := |e.kids| - |d.kids|;
            n <= |Added(d, r)| && Added(d, r)[n..] == Added(e, r) && Added(d, r)[..n] == Added(d, e)
  {
  }

  // ----- lists -----

  lemma {:induction false} ItemsWas(d: Draft, kind: ItemKind, closer: Token)
    requires Quiet(d, Items(d, kind, closer)) && Shuts(closer)
    ensures var r := Items(d, kind, closer).d;
            d.kids <= r.kids && Listed(Added(d, r), kind, closer, r.rest)
    decreases |d.rest|, 10
  {
    hide ItemsLoop, Many, Take, Text;
    if At(d, closer) {
      TakeOnward(d);
      assert Added(d, Take(d)) == [Leaf(closer)];
    } else {
      ManyWas(d, kind, closer);
    }
  }

  lemma {:induction false} ManyWas(d: Draft, kind: ItemKind, closer: Token)
    requires Quiet(d, ItemsLoop(d, kind, closer)) && Shuts(closer)
    ensures var r := ItemsLoop(d, kind, closer).d;
            d.kids <= r.kids && Many(Added(d, r), kind, closer, r.rest)
    decreases |d.rest|, 9
  {
    hide OneItem, ItemsLoop, ItemForm, Many, Remainder, Take, Need, Text, From, AtKind;
    ItemsLoopIs(d, kind, closer);
    var r := ItemsLoop(d, kind, closer).d;
    if At(d, DotDot) && (kind.FieldPatterns? || kind.ElementPatterns?) {
      RemainderWas(d, kind, closer);
      RemainderIsMany(Added(d, r), kind, closer, r.rest);
    } else {
      var one := OneItem(d, kind).d;
      if At(one, Comma) {
        TakeOnward(one);
        var next := Take(one);
        assert Quietly(d, one) && Quiet(next, ItemsLoop(next, kind, closer));
        ItemWas(d, kind);
        ManyWas(next, kind, closer);
        ManyMore(d, one, next, r, kind, closer);
      } else {
        assert Onward(one, Need(one, closer));
        assert Quietly(d, one) && Quietly(one, Need(one, closer));
        NeedTaken(one, closer);
        ItemWas(d, kind);
        ManyLast(d, one, r, kind, closer);
      }
    }
  }

  lemma RemainderIsMany(ks: seq<Tree>, kind: ItemKind, closer: Token, rest: seq<Token>)
    requires Remainder(ks, kind, closer)
    ensures Many(ks, kind, closer, rest)
  {
    hide ItemForm, From;
  }

  lemma ManyMore(d: Draft, one: Draft, next: Draft, r: Draft, kind: ItemKind, closer: Token)
    requires d.kids < one.kids && next.kids == one.kids + [Leaf(Comma)] && next.kids <= r.kids
    requires ItemForm(Added(d, one), kind, one.rest) && Many(Added(next, r), kind, closer, r.rest)
    requires Quietly(one, r)
    ensures Many(Added(d, r), kind, closer, r.rest)
  {
    hide ItemForm, Quietly, From;
    var ks, n := Added(d, r), |one.kids| - |d.kids|;
    AddedSplit(d, one, r);
    AddedSplit(d, next, r);
    Behind(one, r, |d.kids|);
    assert Many(ks[n + 1..], kind, closer, r.rest);
    assert ks[n] == r.kids[|one.kids|];
    assert Is(ks, n, Comma) && ItemForm(ks[..n], kind, From(ks, n, r.rest));
    ManySome(ks[n + 1..], kind, closer, r.rest);
  }

  lemma ManySome(ks: seq<Tree>, kind: ItemKind, closer: Token, rest: seq<Token>)
    requires Many(ks, kind, closer, rest)
    ensures ks != []
  {
    hide ItemForm, From;
  }

  lemma ManyLast(d: Draft, one: Draft, r: Draft, kind: ItemKind, closer: Token)
    requires d.kids < one.kids && r.kids == one.kids + [Leaf(closer)]
    requires ItemForm(Added(d, one), kind, one.rest) && Quietly(one, r)
    ensures Many(Added(d, r), kind, closer, r.rest)
  {
    hide ItemForm, Quietly, From;
    var ks, n := Added(d, r), |one.kids| - |d.kids|;
    AddedSplit(d, one, r);
    Behind(one, r, |d.kids|);
    assert Is(ks, n, closer) && n + 1 == |ks| && ItemForm(ks[..n], kind, From(ks, n, r.rest));
  }

  lemma RemainderWas(d: Draft, kind: ItemKind, closer: Token)
    requires At(d, DotDot) && (kind.FieldPatterns? || kind.ElementPatterns?)
    requires Quiet(d, ItemsLoop(d, kind, closer)) && Shuts(closer)
    ensures var r := ItemsLoop(d, kind, closer).d;
            d.kids <= r.kids && Remainder(Added(d, r), kind, closer)
  {
    hide OneItem, ItemsLoop, Take, Need, Text, AtKind;
    ItemsLoopIs(d, kind, closer);
    TakeOnward(d);
    var e := Take(d);
    if kind.ElementPatterns? && AtName(e) {
      TakeOnward(e);
      e := Take(e);
    }
    assert Onward(e, Need(e, closer));
    NeedTaken(e, closer);
    var r := Need(e, closer);
    assert Added(d, r) ==
             if kind.ElementPatterns? && AtName(Take(d)) then [Leaf(DotDot), Leaf(Take(d).rest[0]), Leaf(closer)]
             else [Leaf(DotDot), Leaf(closer)];
  }

  lemma StartsAt(d: Draft, t: Token)
    ensures Starts(d.rest, t) <==> At(d, t)
  {
  }

  lemma {:induction false} ItemWas(d: Draft, kind: ItemKind)
    requires Quiet(d, OneItem(d, kind))
    ensures var r := OneItem(d, kind).d;
            d.kids < r.kids && ItemForm(Added(d, r), kind, r.rest)
    decreases |d.rest|, 8
  {
    hide Expr, TypeOf, Pattern, Items, Take, Need, Text, Expression, TypeForm, PatternForm, Listed, MaybeType, AtKind;
    hide Starts;
    var r := OneItem(d, kind).d;
    match kind
    case Exprs =>
      var t := ExprWas(d, 0);
      assert Added(d, r) == [t];
    case Types =>
      var t := TypeWas(d);
      assert Added(d, r) == [t];
    case Names =>
      NameWas(d);
      assert Added(d, r) == [Leaf(d.rest[0])];
    case Params => ParamWas(d);
    case FieldDecls => FieldWas(d);
    case Variants => VariantWas(d);
    case FieldPatterns => FieldPatternWas(d);
    case _ =>
      var t := PatternWas(d);
      assert Added(d, r) == [t];
  }

  lemma {:induction false} ParamWas(d: Draft)
    requires Quiet(d, OneItem(d, Params))
    ensures var r := OneItem(d, Params).d;
            d.kids < r.kids && ItemForm(Added(d, r), Params, r.rest)
    decreases |d.rest|, 7
  {
    hide TypeOf, Take, Text, TypeForm, From, Name;
    var r := OneItem(d, Params).d;
    NameWas(d);
    var name := Take(d);
    MaybeTypeIs(name);
    StartsAt(r, Colon);
    if At(name, Colon) {
      TakeOnward(name);
      var t := TypeWas(Take(name));
      assert Added(d, r) == [Leaf(d.rest[0]), Leaf(Colon), t];
    } else {
      assert Added(d, r) == [Leaf(d.rest[0])];
    }
  }

  lemma {:induction false} FieldWas(d: Draft)
    requires Quiet(d, OneItem(d, FieldDecls))
    ensures var r := OneItem(d, FieldDecls).d;
            d.kids < r.kids && ItemForm(Added(d, r), FieldDecls, r.rest)
    decreases |d.rest|, 7
  {
    hide TypeOf, Take, Need, Text, TypeForm, From, Name, AtKind;
    var r := OneItem(d, FieldDecls).d;
    NameWas(d);
    var name := Take(d);
    var colon := Need(name, Colon);
    assert Onward(name, colon) && Onward(colon, r);
    assert Quietly(name, colon) && Quietly(colon, r);
    NeedTaken(name, Colon);
    var t := TypeWas(colon);
    assert Added(d, r) == [Leaf(d.rest[0]), Leaf(Colon), t];
  }

  lemma {:induction false} VariantWas(d: Draft)
    requires Quiet(d, OneItem(d, Variants))
    ensures var r := OneItem(d, Variants).d;
            d.kids < r.kids && ItemForm(Added(d, r), Variants, r.rest)
    decreases |d.rest|, 7
  {
    hide Items, Take, Text, Listed, From, Name;
    var r := OneItem(d, Variants).d;
    NameWas(d);
    var name := Take(d);
    StartsAt(r, LParen);
    if At(name, LParen) {
      TakeOnward(name);
      var open := Take(name);
      RightShuts();
      ItemsWas(open, Types, RParen);
      AddedSplit(d, open, r);
      ListedSome(Added(open, r), Types, RParen, r.rest);
      assert Added(d, r)[..2] == [Leaf(d.rest[0]), Leaf(LParen)];
    } else {
      assert Added(d, r) == [Leaf(d.rest[0])];
    }
  }

  lemma {:induction false} FieldPatternWas(d: Draft)
    requires Quiet(d, OneItem(d, FieldPatterns))
    ensures var r := OneItem(d, FieldPatterns).d;
            d.kids < r.kids && ItemForm(Added(d, r), FieldPatterns, r.rest)
    decreases |d.rest|, 7
  {
    hide Pattern, Take, Text, PatternForm, From, Name;
    var r := OneItem(d, FieldPatterns).d;
    NameWas(d);
    var name := Take(d);
    StartsAt(r, Colon);
    if At(name, Colon) {
      TakeOnward(name);
      var t := PatternWas(Take(name));
      assert Added(d, r) == [Leaf(d.rest[0]), Leaf(Colon), t];
    } else {
      assert Added(d, r) == [Leaf(d.rest[0])];
    }
  }

  // ----- types -----

  lemma {:induction false} TypeWas(d: Draft) returns (t: Tree)
    requires Quiet(d, TypeOf(d))
    ensures TypeOf(d).d.kids == d.kids + [t] && TypeForm(t, TypeOf(d).d.rest)
    decreases |d.rest|, 7
  {
    hide NamedType, UnionLoop, FunctionType, Take, Text, Join, Wrap, NamedForm, UnionForm, Listed, Tokens, TokensOf;
    hide TypeForm;
    var f := Fresh(d);
    if AtKey(d, Fn) {
      var r := FunctionType(f);
      FunctionTypeWas(f);
      t := Node(FnType, r.d.kids);
      WholeIs(FnType, d, r);
    } else {
      var first := NamedType(f).d;
      if At(first, Bar) {
        var r := UnionLoop(first);
        t := Node(TypeUnion, r.d.kids);
        WholeIs(TypeUnion, d, r);
        UnionTypeWas(f);
      } else {
        JoinIs(d, first);
        t := NamedWas(f);
        StartsAt(first, Bar);
        NamedAlone(t, first.rest);
      }
    }
  }

  lemma NamedAlone(t: Tree, rest: seq<Token>)
    requires NamedForm(t, rest) && !Starts(rest, Bar)
    ensures TypeForm(t, rest)
  {
    hide UnionForm, Listed, ParamsForm, Starts;
  }

  lemma {:induction false} FunctionTypeWas(d: Draft)
    requires d.rest != [] && AtKey(d, Fn) && d.kids == [] && Quiet(d, FunctionType(d))
    ensures TypeForm(Node(FnType, FunctionType(d).d.kids), FunctionType(d).d.rest)
    decreases |d.rest|, 6
  {
    hide TypeOf, Items, Take, Need, Text, Listed, Tokens, TokensOf, TypeForm, FunctionType, AtKind;
    FunctionTypeIs(d);
    TakeOnward(d);
    var s := Take(d);
    var open := Need(s, LParen);
    var params := Items(open, Types, RParen).d;
    var arrow := Need(params, Arrow);
    var r := TypeOf(arrow).d;
    assert Onward(s, open) && Onward(open, params) && Onward(params, arrow) && Onward(arrow, r);
    assert Quietly(s, open) && Quietly(open, params) && Quietly(params, arrow) && Quietly(arrow, r);
    NeedTaken(s, LParen);
    NeedTaken(params, Arrow);
    RightShuts();
    ItemsWas(open, Types, RParen);
    var t := TypeWas(arrow);
    FunctionTypeForm(open, params, r, t);
  }

  lemma FunctionTypeForm(open: Draft, params: Draft, r: Draft, t: Tree)
    requires open.kids == [Leaf(Key(Fn)), Leaf(LParen)] && open.kids <= params.kids && Quietly(params, r)
    requires r.kids == params.kids + [Leaf(Arrow)] + [t] && TypeForm(t, r.rest)
    requires Listed(Added(open, params), Types, RParen, params.rest)
    ensures TypeForm(Node(FnType, r.kids), r.rest)
  {
    hide Listed, NamedForm, UnionForm, Starts, Quietly, From;
    var kids, n := r.kids, |params.kids|;
    ListedSome(Added(open, params), Types, RParen, params.rest);
    Behind(params, r, 0);
    assert kids[0..] == kids && kids[2..n] == Added(open, params) && n + 2 == |kids| && n >= 3;
    assert kids[0] == Leaf(Key(Fn)) && kids[1] == Leaf(LParen) && kids[n] == Leaf(Arrow) && kids[n + 1] == t;
  }

  lemma {:induction false} NamedWas(d: Draft) returns (t: Tree)
    requires Quiet(d, NamedType(d))
    ensures NamedType(d).d.kids == d.kids + [t] && NamedForm(t, NamedType(d).d.rest)
    decreases |d.rest|, 5
  {
    hide TypeParams, Take, Text, ParamsForm, Name;
    var f := Fresh(d);
    NameWas(f);
    var name := Take(f);
    var r := TypeParams(name, Types);
    WholeIs(TypeName, d, r);
    ParamsWas(name, Types);
    t := Node(TypeName, r.d.kids);
    assert Added(name, r.d) == r.d.kids[1..] && r.d.kids[0] == Leaf(f.rest[0]);
  }

  lemma {:induction false} ParamsWas(d: Draft, kind: ItemKind)
    requires Quiet(d, TypeParams(d, kind))
    ensures var r := TypeParams(d, kind).d;
            d.kids <= r.kids && ParamsForm(Added(d, r), kind, r.rest)
    decreases |d.rest|, 11
  {
    hide Items, Take, Text, Listed;
    var r := TypeParams(d, kind).d;
    if At(d, Op(Pratt.Lt)) {
      TakeOnward(d);
      RightShuts();
      ItemsWas(Take(d), kind, Op(Pratt.Gt));
      AddedSplit(d, Take(d), r);
      assert Added(d, r)[0] == Take(d).kids[|d.kids|];
    } else {
      assert Added(d, r) == [];
    }
  }

  /** A union, behind its first member. */
  lemma {:induction false} UnionTypeWas(f: Draft)
    requires f.kids == [] && NamedType(f).Ok? && At(NamedType(f).d, Bar)
    requires Quietly(f, NamedType(f).d) && Quiet(NamedType(f).d, UnionLoop(NamedType(f).d))
    ensures var r := UnionLoop(NamedType(f).d).d; TypeForm(Node(TypeUnion, r.kids), r.rest)
    decreases |f.rest|, 6
  {
    hide NamedType, UnionLoop, Text, NamedForm, UnionForm, Listed, From;
    var first := NamedType(f).d;
    var r := UnionLoop(first).d;
    var t := NamedWas(f);
    UnionWas(first);
    Behind(first, r, 0);
    UnionSome(Added(first, r), first, r);
    assert r.kids[0..] == r.kids && r.kids[0] == t && r.kids[1..] == Added(first, r);
  }

  /** What is left does not change while nothing is parsed. */
  lemma NothingAdded(d: Draft, r: Draft)
    requires d.kids <= r.kids && Quietly(d, r) && Added(d, r) == []
    ensures d.rest == r.rest
  {
    hide Quietly, TokensOf;
    Behind(d, r, 0);
    ToTheEnd(r.kids, 0, r.rest);
    assert r.kids == d.kids && r.kids[0..] == r.kids;
  }

  lemma UnionSome(ks: seq<Tree>, first: Draft, r: Draft)
    requires first.kids <= r.kids && ks == Added(first, r) && UnionForm(ks, r.rest) && At(first, Bar)
    requires Quietly(first, r)
    ensures |ks| >= 2
  {
    hide NamedForm, Quietly, Starts;
    StartsAt(first, Bar);
    if ks == [] {
      NothingAdded(first, r);
    }
  }

  lemma {:induction false} UnionWas(d: Draft)
    requires Quiet(d, UnionLoop(d))
    ensures var r := UnionLoop(d).d; d.kids <= r.kids && UnionForm(Added(d, r), r.rest)
    decreases |d.rest|, 0
  {
    hide NamedType, UnionLoop, Take, Text, NamedForm, Starts, From;
    UnionLoopIs(d);
    var r := UnionLoop(d).d;
    StartsAt(r, Bar);
    if At(d, Bar) {
      TakeOnward(d);
      var next := NamedType(Take(d)).d;
      assert Quietly(Take(d), next) && Quietly(next, r);
      var t := NamedWas(Take(d));
      UnionWas(next);
      Behind(next, r, |d.kids|);
      AddedSplit(d, next, r);
      assert Added(d, r)[..2] == [Leaf(Bar), t];
    } else {
      assert Added(d, r) == [];
    }
  }

  // ----- patterns -----

  lemma {:induction false} PatternWas(d: Draft) returns (t: Tree)
    requires Quiet(d, Pattern(d))
    ensures Pattern(d).d.kids == d.kids + [t] && PatternForm(t, Pattern(d).d.rest)
    decreases |d.rest|, 7
  {
    hide AtomicPattern, PatternLoop, Take, Text, Join, Wrap, AtomForm, AlternativesForm, From;
    var f := Fresh(d);
    var first := AtomicPattern(f).d;
    if At(first, Bar) {
      var r := PatternLoop(first);
      t := Node(PatternOr, r.d.kids);
      WholeIs(PatternOr, d, r);
      var a := AtomWas(f);
      AlternativesWas(first);
      Behind(first, r.d, 0);
      AlternativesSome(Added(first, r.d), first, r.d);
      assert r.d.kids[0..] == r.d.kids && r.d.kids[0] == a && r.d.kids[1..] == Added(first, r.d);
    } else {
      JoinIs(d, first);
      t := AtomWas(f);
      StartsAt(first, Bar);
      AtomAlone(t, first.rest);
    }
  }

  lemma AtomAlone(t: Tree, rest: seq<Token>)
    requires AtomForm(t, rest) && !Starts(rest, Bar)
    ensures PatternForm(t, rest)
  {
    hide AlternativesForm, Listed, UpperForm, Starts;
  }

  lemma AlternativesSome(ks: seq<Tree>, first: Draft, r: Draft)
    requires first.kids <= r.kids && ks == Added(first, r) && AlternativesForm(ks, r.rest) && At(first, Bar)
    requires Quietly(first, r)
    ensures |ks| >= 2
  {
    hide AtomForm, Quietly, Starts;
    StartsAt(first, Bar);
    if ks == [] {
      NothingAdded(first, r);
    }
  }

  lemma {:induction false} AlternativesWas(d: Draft)
    requires Quiet(d, PatternLoop(d))
    ensures var r := PatternLoop(d).d; d.kids <= r.kids && AlternativesForm(Added(d, r), r.rest)
    decreases |d.rest|, 0
  {
    hide AtomicPattern, PatternLoop, Take, Text, AtomForm, Starts, From;
    PatternLoopIs(d);
    var r := PatternLoop(d).d;
    StartsAt(r, Bar);
    if At(d, Bar) {
      TakeOnward(d);
      var next := AtomicPattern(Take(d)).d;
      assert Quietly(Take(d), next) && Quietly(next, r);
      var t := AtomWas(Take(d));
      AlternativesWas(next);
      Behind(next, r, |d.kids|);
      AddedSplit(d, next, r);
      assert Added(d, r)[..2] == [Leaf(Bar), t];
    } else {
      assert Added(d, r) == [];
    }
  }

  lemma {:induction false} AtomWas(d: Draft) returns (t: Tree)
    requires Quiet(d, AtomicPattern(d))
    ensures AtomicPattern(d).d.kids == d.kids + [t] && AtomForm(t, AtomicPattern(d).d.rest)
    decreases |d.rest|, 6
  {
    hide Items, UpperPattern, Take, Text, Join, Wrap, Whole, UpperForm, Listed;
    var f, token := Fresh(d), d.rest[0];
    TakeOnward(d);
    if token.Underscore? || IsLiteral(token) || token.Str? || (token.Ident? && !token.upper) {
      t := Leaf(token);
    } else {
      TakeOnward(f);
      var s := Take(f);
      if token == Op(Pratt.Minus) {
        TakeOnward(s);
        var both := Take(s);
        WrapIs(PatternAtom, both);
        JoinIs(d, Wrap(PatternAtom, both));
        t := Node(PatternAtom, both.kids);
      } else if token.Ident? {
        WholeIs(PatternAtom, d, UpperPattern(s));
        assert Quiet(s, UpperPattern(s));
        UpperWas(s);
        t := Node(PatternAtom, UpperPattern(s).d.kids);
      } else {
        var kind := if token.LBracket? then ElementPatterns else FieldPatterns;
        var closer := if token.LBracket? then RBracket else RBrace;
        var r := Items(s, kind, closer);
        WholeIs(PatternAtom, d, r);
        assert Quiet(s, r);
        RightShuts();
        ItemsWas(s, kind, closer);
        t := Node(PatternAtom, r.d.kids);
        ListedSome(Added(s, r.d), kind, closer, r.d.rest);
        assert Added(s, r.d) == r.d.kids[1..] && r.d.kids[0] == Leaf(token);
      }
    }
  }

  lemma {:induction false} UpperWas(d: Draft)
    requires |d.kids| == 1 && Quiet(d, UpperPattern(d))
    ensures var r := UpperPattern(d).d; d.kids <= r.kids && UpperForm(r.kids, r.rest)
    decreases |d.rest|, 11
  {
    hide Items, Take, Text, Listed;
    var r := UpperPattern(d).d;
    StartsAt(d, LBrace);
    StartsAt(d, LParen);
    if At(d, LBrace) || At(d, LParen) {
      TakeOnward(d);
      var s, kind, closer := Take(d), Patterns, RParen;
      if At(d, LBrace) {
        kind, closer := FieldPatterns, RBrace;
      }
      RightShuts();
      ItemsWas(s, kind, closer);
      ListedSome(Added(s, r), kind, closer, r.rest);
      assert Added(s, r) == r.kids[2..] && r.kids[1] == s.kids[1];
    }
  }

  // ----- operators -----

  lemma {:induction false} ExprWas(d: Draft, min: nat) returns (t: Tree)
    requires Quiet(d, Expr(d, min))
    ensures Expr(d, min).d.kids == d.kids + [t] && Expression(t, min, Expr(d, min).d.rest)
    decreases |d.rest|, 7
  {
    hide Expr, Prefix, InfixLoop, Text, Join, Chain, Prefixed, Expression;
    ExprIs(d, min);
    var f := Fresh(d);
    var lhs := Prefix(f).d;
    var whole := InfixLoop(lhs, min).d;
    JoinIs(d, whole);
    assert Quietly(f, lhs) && Quietly(lhs, whole);
    var first := PrefixWas(f);
    PrefixedIsChain(first, min, lhs.rest);
    t := ChainWas(lhs, min, first);
  }

  lemma PrefixedIsChain(t: Tree, min: nat, rest: seq<Token>)
    requires Prefixed(t, rest)
    ensures Chain(t, min, rest)
  {
    hide Expression, Applied, Starts;
    NoInfixOperand(t, rest);
  }

  lemma NoInfixOperand(t: Tree, rest: seq<Token>)
    ensures t.Node? && t.kind.Infix? ==> !Applied(t, rest)
    ensures t.Node? && t.kind.Unary? ==> !Applied(t, rest)
  {
  }

  /** `d` holds the left operand `t0`. */
  lemma {:induction false} ChainWas(d: Draft, min: nat, t0: Tree) returns (t: Tree)
    requires d.kids == [t0] && Chain(t0, min, d.rest) && Quiet(d, InfixLoop(d, min))
    ensures InfixLoop(d, min).d.kids == [t] && Expression(t, min, InfixLoop(d, min).d.rest)
    decreases |d.rest|, 0
  {
    hide Expr, InfixLoop, Text, Take, Chain, Expression, Wrap;
    InfixLoopIs(d, min);
    if GoesOn(d.rest, min) {
      TakeOnward(d);
      var op, sym := Take(d), d.rest[0].sym;
      var both := Expr(op, Pratt.Rbp(sym)).d;
      WrapIs(Infix, both);
      var w := Wrap(Infix, both);
      assert Quietly(op, both) && Quiet(w, InfixLoop(w, min));
      var e := ExprWas(op, Pratt.Rbp(sym));
      var t1 := Node(Infix, both.kids);
      assert Quietly(d, both);
      Behind(d, both, 0);
      assert both.kids[0..] == both.kids && both.kids == [t0, Leaf(Op(sym)), e];
      ChainOn(both.kids, sym, min, both.rest);
      t := ChainWas(w, min, t1);
    } else {
      t := t0;
      ExpressionIs(t, min, d.rest);
    }
  }

  lemma ChainOn(kids: seq<Tree>, sym: Pratt.Symbol, min: nat, rest: seq<Token>)
    requires |kids| == 3 && kids[1] == Leaf(Op(sym)) && Pratt.Lbp(sym) >= min
    requires Chain(kids[0], min, From(kids, 1, rest)) && Expression(kids[2], Pratt.Rbp(sym), rest)
    ensures Chain(Node(Infix, kids), min, rest)
  {
    hide Expression, From, Prefixed;
  }

  lemma {:induction false} PrefixWas(d: Draft) returns (t: Tree)
    requires Quiet(d, Prefix(d))
    ensures Prefix(d).d.kids == d.kids + [t] && Prefixed(t, Prefix(d).d.rest)
    decreases |d.rest|, 6
  {
    hide Expr, Primary, Prefix, PostfixLoop, Text, Take, Applied, Expression, Join, Whole, Starts, Prefixed;
    PrefixIs(d);
    var f := Fresh(d);
    if AtPrefix(d) {
      TakeOnward(f);
      var s := Take(f);
      var r := Expr(s, Pratt.PREFIX_POWER);
      WholeIs(Unary, d, r);
      assert Quiet(s, r);
      var e := ExprWas(s, Pratt.PREFIX_POWER);
      t := Node(Unary, r.d.kids);
      assert r.d.kids == [Leaf(d.rest[0]), e];
      UnaryIsPrefixed(r.d.kids, r.d.rest);
    } else {
      var first := Primary(f).d;
      var all := PostfixLoop(first).d;
      JoinIs(d, all);
      assert Quietly(f, first) && Quietly(first, all);
      var t0 := PrimaryWas(f);
      OperandIsApplied(t0, first.rest);
      t := AppliedWas(first, t0);
      AppliedIsPrefixed(t, all.rest);
    }
  }

  lemma UnaryIsPrefixed(kids: seq<Tree>, rest: seq<Token>)
    requires |kids| == 2 && kids[0] in {Leaf(Op(Pratt.Minus)), Leaf(Key(Not))}
    requires Expression(kids[1], Pratt.PREFIX_POWER, rest)
    ensures Prefixed(Node(Unary, kids), rest)
  {
    hide Expression, Applied;
  }

  lemma AppliedIsPrefixed(t: Tree, rest: seq<Token>)
    requires Applied(t, rest) && !Starts(rest, LParen) && !Starts(rest, LBracket) && !Starts(rest, Dot)
    ensures Prefixed(t, rest)
  {
    NoInfixOperand(t, rest);
    hide Expression, Applied, Starts;
  }

  /** `d` holds `t0`, which may be called, indexed or asked for a field. */
  lemma {:induction false} AppliedWas(d: Draft, t0: Tree) returns (t: Tree)
    requires d.kids == [t0] && Applied(t0, d.rest) && Quiet(d, PostfixLoop(d))
    ensures var r := PostfixLoop(d).d;
            && r.kids == [t] && Applied(t, r.rest)
            && !Starts(r.rest, LParen) && !Starts(r.rest, LBracket) && !Starts(r.rest, Dot)
    decreases |d.rest|, 0
  {
    hide Expr, Items, PostfixLoop, Text, Take, Need, Applied, Expression, Listed, Wrap, Starts, Selected;
    PostfixLoopIs(d);
    StartsAt(d, LParen);
    StartsAt(d, LBracket);
    StartsAt(d, Dot);
    if At(d, LParen) {
      var next := CallWas(d, t0);
      t := AppliedWas(next, next.kids[0]);
    } else if At(d, LBracket) {
      var next := IndexWas(d, t0);
      t := AppliedWas(next, next.kids[0]);
    } else if At(d, Dot) {
      var next := SelectedWas(d, t0);
      t := AppliedWas(next, next.kids[0]);
    } else {
      t := t0;
    }
  }

  lemma {:induction false} CallWas(d: Draft, t0: Tree) returns (next: Draft)
    requires d.kids == [t0] && Applied(t0, d.rest) && At(d, LParen) && Quiet(d, PostfixLoop(d))
    ensures PostfixLoop(d) == PostfixLoop(next) && Quiet(next, PostfixLoop(next)) && |next.rest| < |d.rest|
    ensures |next.kids| == 1 && Applied(next.kids[0], next.rest)
    decreases |d.rest|, -1
  {
    hide Items, PostfixLoop, Text, Take, Applied, Listed, Wrap, Expr, Selected;
    PostfixLoopIs(d);
    TakeOnward(d);
    var open := Take(d);
    var call := Items(open, Exprs, RParen).d;
    WrapIs(Call, call);
    next := Wrap(Call, call);
    assert Quietly(open, call) && Quietly(d, call) && Quiet(next, PostfixLoop(next));
    RightShuts();
    ItemsWas(open, Exprs, RParen);
    Behind(d, call, 0);
    ListedSome(Added(open, call), Exprs, RParen, call.rest);
    var kids := call.kids;
    assert kids[0..] == kids && kids[2..] == Added(open, call) && kids[0] == t0 && kids[1] == open.kids[1];
    CallIsApplied(kids, call.rest);
  }

  lemma CallIsApplied(kids: seq<Tree>, rest: seq<Token>)
    requires |kids| > 2 && Applied(kids[0], From(kids, 1, rest)) && kids[1] == Leaf(LParen)
    requires Listed(kids[2..], Exprs, RParen, rest)
    ensures Applied(Node(Call, kids), rest)
  {
    hide Listed, From, Operand;
  }

  lemma {:induction false} IndexWas(d: Draft, t0: Tree) returns (next: Draft)
    requires d.kids == [t0] && Applied(t0, d.rest) && At(d, LBracket) && Quiet(d, PostfixLoop(d))
    ensures PostfixLoop(d) == PostfixLoop(next) && Quiet(next, PostfixLoop(next)) && |next.rest| < |d.rest|
    ensures |next.kids| == 1 && Applied(next.kids[0], next.rest)
    decreases |d.rest|, -1
  {
    hide Items, PostfixLoop, Text, Take, Need, Applied, Listed, Wrap, Expr, Selected, Expression, AtKind;
    PostfixLoopIs(d);
    TakeOnward(d);
    var open := Take(d);
    var index := Expr(open, 0).d;
    var all := Need(index, RBracket);
    WrapIs(Index, all);
    next := Wrap(Index, all);
    assert Onward(open, index) && Onward(index, all);
    assert Quietly(open, index) && Quietly(index, all) && Quietly(d, all) && Quiet(next, PostfixLoop(next));
    NeedTaken(index, RBracket);
    var e := ExprWas(open, 0);
    Behind(d, all, 0);
    Behind(index, all, 0);
    var kids := all.kids;
    assert kids == [t0, Leaf(LBracket), e, Leaf(RBracket)] && kids[0..] == kids;
    IndexIsApplied(kids, all.rest);
  }

  lemma IndexIsApplied(kids: seq<Tree>, rest: seq<Token>)
    requires |kids| == 4 && Applied(kids[0], From(kids, 1, rest)) && kids[1] == Leaf(LBracket)
    requires Expression(kids[2], 0, From(kids, 3, rest)) && kids[3] == Leaf(RBracket)
    ensures Applied(Node(Index, kids), rest)
  {
    hide Expression, From, Operand;
  }

  lemma {:induction false} SelectedWas(d: Draft, t0: Tree) returns (next: Draft)
    requires d.kids == [t0] && Applied(t0, d.rest) && At(d, Dot) && Quiet(d, PostfixLoop(d))
    ensures PostfixLoop(d) == PostfixLoop(next) && Quiet(next, PostfixLoop(next)) && |next.rest| < |d.rest|
    ensures |next.kids| == 1 && Applied(next.kids[0], next.rest)
    decreases |d.rest|, -1
  {
    hide Items, PostfixLoop, Text, Take, Applied, Listed, Wrap, Expr, Selected, Starts, AtFieldName;
    PostfixLoopIs(d);
    SelectedIs(d);
    TakeOnward(d);
    var dot := Take(d);
    FieldLeads(dot);
    TakeOnward(dot);
    var name := Take(dot);
    next := Selected(d).d;
    if At(name, LParen) {
      TakeOnward(name);
      var open := Take(name);
      var call := Items(open, Exprs, RParen).d;
      WrapIs(Method, call);
      assert Quietly(open, call) && Quietly(d, call) && Quiet(next, PostfixLoop(next));
      RightShuts();
      ItemsWas(open, Exprs, RParen);
      Behind(d, call, 0);
      ListedSome(Added(open, call), Exprs, RParen, call.rest);
      var kids := call.kids;
      assert kids[0..] == kids && kids[4..] == Added(open, call) && kids[0] == t0 && kids[1] == open.kids[1];
      assert kids[2] == open.kids[2] && kids[3] == open.kids[3];
      MethodIsApplied(kids, call.rest);
    } else {
      WrapIs(Field, name);
      assert Quietly(d, name) && Quiet(next, PostfixLoop(next));
      Behind(d, name, 0);
      StartsAt(name, LParen);
      var kids := name.kids;
      assert kids == [t0, Leaf(Dot), Leaf(dot.rest[0])] && kids[0..] == kids;
      FieldIsApplied(kids, name.rest);
    }
  }

  lemma FieldLeads(d: Draft)
    ensures AtFieldName(d) ==> d.rest != [] && IsField([Leaf(d.rest[0])], 0)
  {
  }

  lemma FieldIsApplied(kids: seq<Tree>, rest: seq<Token>)
    requires |kids| == 3 && Applied(kids[0], From(kids, 1, rest)) && kids[1] == Leaf(Dot) && !Starts(rest, LParen)
    requires IsField([kids[2]], 0)
    ensures Applied(Node(Field, kids), rest)
  {
    hide From, Operand, Starts;
  }

  lemma MethodIsApplied(kids: seq<Tree>, rest: seq<Token>)
    requires |kids| > 4 && Applied(kids[0], From(kids, 1, rest)) && kids[1] == Leaf(Dot) && IsField([kids[2]], 0)
    requires kids[3] == Leaf(LParen) && Listed(kids[4..], Exprs, RParen, rest)
    ensures Applied(Node(Method, kids), rest)
  {
    hide From, Operand, Listed;
  }

  // ----- operands -----

  lemma OperandIsApplied(t: Tree, rest: seq<Token>)
    requires Operand(t, rest)
    ensures Applied(t, rest)
  {
    hide ParenForm, MapForm, BlockForm, MarkedForm, JumpForm, FunctionForm, IfForm, MatchForm, WhileForm, ForForm;
    hide TryForm, SpawnForm, Listed, Expression, From;
  }

  lemma {:induction false} PrimaryWas(d: Draft) returns (t: Tree)
    requires Quiet(d, Primary(d))
    ensures Primary(d).d.kids == d.kids + [t] && Operand(t, Primary(d).d.rest)
    decreases |d.rest|, 5
  {
    hide Primary, Take, Whole, Items, Parenthesised, Brace, KeywordExpr, LooksLikeArrowFn, Text, Operand, Listed, Join;
    hide Wrap;
    SomeLeft(d);
    PrimaryUnfolds(d);
    var f, token := Fresh(d), d.rest[0];
    TakeOnward(d);
    TakeOnward(f);
    if IsLiteral(token) || token.Ident? || token.Str? {
      t := Leaf(token);
      LeafIsOperand(token, Primary(d).d.rest);
    } else if token.LParen? {
      var r := Parenthesised(Take(f));
      WholeIs(Paren, d, r);
      ParenWas(f);
      t := Node(Paren, r.d.kids);
      ParenIsOperand(r.d.kids, r.d.rest);
    } else if token.LBracket? || token.HashBrace? {
      t := CollectionWas(d);
    } else if token.LBrace? {
      t := BraceWas(d);
    } else {
      t := KeywordWas(d, token.word);
    }
  }

  lemma SomeLeft(d: Draft)
    requires Primary(d).Ok?
    ensures d.rest != []
  {
  }

  lemma LeafIsOperand(t: Token, rest: seq<Token>)
    requires IsLiteral(t) || t.Ident? || (t.Str? && t.sound)
    ensures Operand(Leaf(t), rest)
  {
  }

  lemma ParenIsOperand(kids: seq<Tree>, rest: seq<Token>)
    requires ParenForm(kids, rest)
    ensures Operand(Node(Paren, kids), rest)
  {
    hide ParenForm;
  }

  lemma {:induction false} CollectionWas(d: Draft) returns (t: Tree)
    requires d.rest != [] && (d.rest[0].LBracket? || d.rest[0].HashBrace?) && Quiet(d, Primary(d))
    ensures Primary(d).d.kids == d.kids + [t] && Operand(t, Primary(d).d.rest)
    decreases |d.rest|, 4
  {
    hide Primary, Take, Whole, Items, Parenthesised, Brace, KeywordExpr, LooksLikeArrowFn, Text, Operand, Listed;
    PrimaryUnfolds(d);
    var f, token := Fresh(d), d.rest[0];
    TakeOnward(f);
    var s, kind := Take(f), if token.LBracket? then Vector else Set;
    var closer := if token.LBracket? then RBracket else RBrace;
    var r := Items(s, Exprs, closer);
    WholeIs(kind, d, r);
    assert Quiet(s, r);
    RightShuts();
    ItemsWas(s, Exprs, closer);
    ListedSome(Added(s, r.d), Exprs, closer, r.d.rest);
    assert Added(s, r.d) == r.d.kids[1..] && r.d.kids[0] == Leaf(token);
    t := Node(kind, r.d.kids);
    CollectionIsOperand(r.d.kids, r.d.rest);
  }

  lemma CollectionIsOperand(kids: seq<Tree>, rest: seq<Token>)
    requires |kids| > 1 && kids[0] in {Leaf(LBracket), Leaf(HashBrace)}
    requires Listed(kids[1..], Exprs, if kids[0] == Leaf(LBracket) then RBracket else RBrace, rest)
    ensures Operand(Node(if kids[0] == Leaf(LBracket) then Vector else Set, kids), rest)
  {
    hide Listed;
  }

  lemma {:induction false} ParenWas(f: Draft)
    requires f.kids == [] && At(f, LParen) && !LooksLikeArrowFn(f.rest[1..])
    requires Quiet(f, Parenthesised(Take(f)))
    ensures var r := Parenthesised(Take(f)).d; ParenForm(r.kids, r.rest)
    decreases |f.rest|, 4
  {
    hide Take, Need, Expr, LooksLikeArrowFn, Text, Expression, From, AtKind, Starts;
    TakeOnward(f);
    TakeIs(f);
    var s := Take(f);
    var inner := Expr(s, 0).d;
    var r := Need(inner, RParen);
    assert Onward(s, inner) && Onward(inner, r);
    assert Quietly(s, inner) && Quietly(inner, r) && Quietly(s, r);
    NeedTaken(inner, RParen);
    var e := ExprWas(s, 0);
    Behind(inner, r, 0);
    Behind(s, r, 0);
    var kids := r.kids;
    assert kids == [Leaf(LParen), e, Leaf(RParen)] && kids[0..] == kids;
    if e.Leaf? && e.t.Ident? && Starts(r.rest, FatArrow) {
      NameThenArrow(e.t, kids, r.rest);
      assert false;
    }
  }

  lemma NameThenArrow(name: Token, kids: seq<Tree>, rest: seq<Token>)
    requires name.Ident? && kids == [Leaf(LParen), Leaf(name), Leaf(RParen)] && Starts(rest, FatArrow)
    ensures LooksLikeArrowFn(From(kids, 1, rest))
  {
    TokensSplit(kids[1..]);
    TokensSplit(kids[2..]);
    TokensSplit([]);
    NodeTokens(kids[1]);
    NodeTokens(kids[2]);
    hide TokensOf, Tokens;
    assert kids[1..][1..] == kids[2..] && kids[2..][1..] == [];
    var ts := From(kids, 1, rest);
    assert ts == [name, RParen] + rest && ts[2] == rest[0];
  }

  // ----- operands that begin with a keyword -----

  lemma {:induction false} KeywordWas(d: Draft, word: Keyword) returns (t: Tree)
    requires AtKey(d, word) && Quiet(d, KeywordExpr(d, word))
    ensures var r := KeywordExpr(d, word).d; r.kids == d.kids + [t] && Operand(t, r.rest)
    decreases |d.rest|, 4
  {
    hide Take, Whole, Expr, NoValueHere, Join, Wrap, FunctionBody, ControlExpr, Text, KeywordExpr, Operand, Expression;
    hide FunctionForm;
    var f := Fresh(d);
    TakeOnward(f);
    var s := Take(f);
    KeywordUnfolds(d, word);
    if word in {Raise, Reply, Await, Shared, Transact, Loop} {
      var r := Expr(s, 0);
      WholeIs(Marked, d, r);
      assert Quiet(s, r);
      var e := ExprWas(s, 0);
      t := Node(Marked, r.d.kids);
      assert r.d.kids == [Leaf(Key(word)), e];
      MarkedIsOperand(word, r.d.kids, r.d.rest);
    } else if word in {Return, Break} && !NoValueHere(s) {
      var r := Expr(s, 0);
      WholeIs(Jump, d, r);
      assert Quiet(s, r);
      var e := ExprWas(s, 0);
      t := Node(Jump, r.d.kids);
      assert r.d.kids == [Leaf(Key(word)), e];
      JumpIsOperand(word, r.d.kids, r.d.rest);
    } else if word in {Return, Break, Yield, Retry, Continue} {
      WrapIs(Jump, s);
      JoinIs(d, Wrap(Jump, s));
      t := Node(Jump, s.kids);
      NoValueIs(s);
      JumpIsOperand(word, s.kids, s.rest);
    } else if word.Fn? {
      var r := FunctionBody(s);
      WholeIs(LambdaExpr, d, r);
      assert Quiet(s, r);
      FunctionWas(s);
      t := Node(LambdaExpr, r.d.kids);
      assert Added(s, r.d) == r.d.kids[1..] && r.d.kids[0] == Leaf(Key(word));
      LambdaIsOperand(r.d.kids, r.d.rest);
    } else {
      t := ControlWas(d, word);
    }
  }

  lemma MarkedIsOperand(word: Keyword, kids: seq<Tree>, rest: seq<Token>)
    requires |kids| == 2 && kids[0] == Leaf(Key(word)) && word in {Raise, Reply, Await, Shared, Transact, Loop}
    requires Expression(kids[1], 0, rest)
    ensures Operand(Node(Marked, kids), rest)
  {
    hide Expression;
  }

  lemma JumpIsOperand(word: Keyword, kids: seq<Tree>, rest: seq<Token>)
    requires (|kids| == 1 || |kids| == 2) && kids[0] == Leaf(Key(word))
    requires if |kids| == 2 then word in {Return, Break} && Expression(kids[1], 0, rest)
             else word in {Yield, Retry, Continue}
                  || (word in {Return, Break} && (rest == [] || rest[0] in {Semicolon, RBrace, Comma}))
    ensures Operand(Node(Jump, kids), rest)
  {
    hide Expression;
  }

  lemma LambdaIsOperand(kids: seq<Tree>, rest: seq<Token>)
    requires kids != [] && kids[0] == Leaf(Key(Fn)) && FunctionForm(kids[1..], rest)
    ensures Operand(Node(LambdaExpr, kids), rest)
  {
    hide Expression, Listed, TypeForm;
  }

  lemma {:induction false} FunctionWas(d: Draft)
    requires Quiet(d, FunctionBody(d))
    ensures var r := FunctionBody(d).d; d.kids <= r.kids && FunctionForm(Added(d, r), r.rest)
    decreases |d.rest|, 11
  {
    hide Take, Need, Expr, Items, TypeOf, Text, Expression, TypeForm, Listed, From, AtKind, FunctionForm, FunctionBody;
    FunctionBodyIs(d);
    var open := Need(d, LParen);
    var params := Items(open, Params, RParen).d;
    MaybeResultIs(params);
    var result := MaybeResult(params).d;
    var r := Expr(result, 0).d;
    assert Onward(d, open) && Onward(open, params) && Onward(params, result) && Onward(result, r);
    assert Quietly(d, open) && Quietly(open, params) && Quietly(params, result) && Quietly(result, r);
    assert Quietly(params, r);
    NeedTaken(d, LParen);
    RightShuts();
    ItemsWas(open, Params, RParen);
    var t := Leaf(LParen);
    if At(params, Arrow) {
      TakeOnward(params);
      t := TypeWas(Take(params));
      assert result.kids == params.kids + [Leaf(Arrow)] + [t];
    }
    var e := ExprWas(result, 0);
    AfterParams(d, open, params, result, r, t, e);
  }

  lemma AfterParams(d: Draft, open: Draft, params: Draft, result: Draft, r: Draft, t: Tree, e: Tree)
    requires open.kids == d.kids + [Leaf(LParen)] && open.kids <= params.kids && r.kids == result.kids + [e]
    requires Listed(Added(open, params), Params, RParen, params.rest) && Expression(e, 0, r.rest)
    requires Quietly(params, r) && Quietly(result, r)
    requires || result == params
             || (result.kids == params.kids + [Leaf(Arrow)] + [t] && TypeForm(t, result.rest))
    ensures d.kids <= r.kids && FunctionForm(Added(d, r), r.rest)
  {
    hide Listed, TypeForm, Expression, From, Quietly;
    var ks, n, m := Added(d, r), |params.kids| - |d.kids|, |d.kids|;
    ListedSome(Added(open, params), Params, RParen, params.rest);
    Behind(params, r, m);
    Behind(result, r, m);
    assert ks[1..n] == Added(open, params);
    assert ks[0] == Leaf(LParen) && ks[|ks| - 1] == e;
    if result != params {
      assert ks[n] == Leaf(Arrow) && ks[n + 1] == t && |ks| == n + 3;
    }
  }

  /** Operands with several parts. */
  lemma {:induction false} ControlWas(d: Draft, word: Keyword) returns (t: Tree)
    requires AtKey(d, word) && Quiet(d, ControlExpr(d, Take(Fresh(d)), word))
    ensures var r := ControlExpr(d, Take(Fresh(d)), word).d; r.kids == d.kids + [t] && Operand(t, r.rest)
    decreases |d.rest|, 3
  {
    hide Take, Whole, IfBody, MatchBody, TwoExprs, ForBody, TryBody, SpawnBody, Text, ControlExpr, Operand;
    hide IfForm, MatchForm, WhileForm, ForForm, TryForm, SpawnForm;
    var f := Fresh(d);
    TakeOnward(f);
    var s := Take(f);
    ControlUnfolds(d, word);
    var kind, r := IfExpr, IfBody(s);
    match word {
      case If => WholeIs(kind, d, r); assert Quiet(s, r); IfWas(s);
      case Match => kind, r := MatchExpr, MatchBody(s); WholeIs(kind, d, r); assert Quiet(s, r); MatchWas(s);
      case While => kind, r := WhileExpr, TwoExprs(s); WholeIs(kind, d, r); assert Quiet(s, r); WhileWas(s);
      case For => kind, r := ForExpr, ForBody(s); WholeIs(kind, d, r); assert Quiet(s, r); ForWas(s);
      case Try => kind, r := TryExpr, TryBody(s); WholeIs(kind, d, r); assert Quiet(s, r); TryWas(s);
      case Spawn => kind, r := SpawnExpr, SpawnBody(s); WholeIs(kind, d, r); assert Quiet(s, r); SpawnWas(s);
      case _ =>
    }
    t := Node(kind, r.d.kids);
    FormIsOperand(t, r.d.rest);
  }

  lemma FormIsOperand(t: Tree, rest: seq<Token>)
    requires t.Node?
    requires match t.kind
             case IfExpr => IfForm(t.kids, rest)
             case MatchExpr => MatchForm(t.kids, rest)
             case WhileExpr => WhileForm(t.kids, rest)
             case ForExpr => ForForm(t.kids, rest)
             case TryExpr => TryForm(t.kids, rest)
             case SpawnExpr => SpawnForm(t.kids, rest)
             case MapLit => MapForm(t.kids, rest)
             case Block => BlockForm(t.kids, rest)
             case _ => false
    ensures Operand(t, rest)
  {
    hide IfForm, MatchForm, WhileForm, ForForm, TryForm, SpawnForm, MapForm, BlockForm;
  }

  /** Two expressions, one behind the other. */
  lemma {:induction false} TwoWas(d: Draft) returns (a: Tree, b: Tree)
    requires Quiet(d, TwoExprs(d))
    ensures var r := TwoExprs(d).d;
            && r.kids == d.kids + [a] + [b] && Expression(b, 0, r.rest)
            && Expression(a, 0, From(r.kids, |d.kids| + 1, r.rest))
    decreases |d.rest|, 8
  {
    hide Expr, Text, Expression, From, TwoExprs;
    TwoExprsIs(d);
    var first := Expr(d, 0).d;
    var r := Expr(first, 0).d;
    assert Onward(d, first) && Onward(first, r);
    assert Quietly(d, first) && Quietly(first, r);
    a := ExprWas(d, 0);
    b := ExprWas(first, 0);
    Behind(first, r, 0);
    assert r.kids[0..] == r.kids;
  }

  lemma {:induction false} WhileWas(s: Draft)
    requires s.kids == [Leaf(Key(While))] && Quiet(s, TwoExprs(s))
    ensures WhileForm(TwoExprs(s).d.kids, TwoExprs(s).d.rest)
    decreases |s.rest|, 9
  {
    hide TwoExprs, Text, Expression, From;
    var a, b := TwoWas(s);
    assert TwoExprs(s).d.kids == [Leaf(Key(While)), a, b];
  }

  lemma {:induction false} ForWas(s: Draft)
    requires s.kids == [Leaf(Key(For))] && Quiet(s, ForBody(s))
    ensures ForForm(ForBody(s).d.kids, ForBody(s).d.rest)
    decreases |s.rest|, 9
  {
    hide TwoExprs, Text, Expression, From, Take, NeedKey, ForBody, Name;
    ForBodyIs(s);
    NameWas(s);
    var name := Take(s);
    var inside := NeedKey(name, In);
    var r := TwoExprs(inside).d;
    assert Onward(name, inside) && Onward(inside, r);
    assert Quietly(name, inside) && Quietly(inside, r);
    NeedKeyTaken(name, In);
    var a, b := TwoWas(inside);
    assert r.kids == [Leaf(Key(For)), Leaf(s.rest[0]), Leaf(Key(In)), a, b];
  }

  lemma NeedKeyTaken(d: Draft, k: Keyword)
    requires Quietly(d, NeedKey(d, k))
    ensures d.rest != [] && d.rest[0] == Key(k) && NeedKey(d, k).kids == d.kids + [Leaf(Key(k))]
    ensures |NeedKey(d, k).rest| < |d.rest|
  {
    if AtKey(d, k) {
      TakeIs(d);
    }
    hide Take, Text;
  }

  lemma {:induction false} SpawnWas(s: Draft)
    requires s.kids == [Leaf(Key(Spawn))] && Quiet(s, SpawnBody(s))
    ensures SpawnForm(SpawnBody(s).d.kids, SpawnBody(s).d.rest)
    decreases |s.rest|, 9
  {
    hide Items, Text, Listed, Take, Need, SpawnBody, Name, AtKind;
    SpawnBodyIs(s);
    NameWas(s);
    var name := Take(s);
    var open := Need(name, LParen);
    var r := Items(open, Exprs, RParen).d;
    assert Onward(name, open) && Onward(open, r);
    assert Quietly(name, open) && Quietly(open, r);
    NeedTaken(name, LParen);
    RightShuts();
    ItemsWas(open, Exprs, RParen);
    ListedSome(Added(open, r), Exprs, RParen, r.rest);
    assert Added(open, r) == r.kids[3..] && r.kids[..3] == open.kids;
    assert r.kids[0] == open.kids[0] && r.kids[1] == open.kids[1] && r.kids[2] == open.kids[2];
  }

  lemma {:induction false} IfWas(s: Draft)
    requires s.kids == [Leaf(Key(If))] && Quiet(s, IfBody(s))
    ensures s.kids <= IfBody(s).d.kids && IfForm(IfBody(s).d.kids, IfBody(s).d.rest)
    decreases |s.rest|, 9
  {
    hide TwoExprs, Expr, Whole, Text, Expression, From, Take, IfBody, ElseForm, Starts;
    IfBodyIs(s);
    var both := TwoExprs(s).d;
    var r := IfBody(s).d;
    StartsAt(both, Key(Else));
    if At(both, Key(Else)) {
      TakeOnward(both);
      var els := Take(both);
      assert Onward(s, both) && Onward(els, r);
      assert Quietly(s, both) && Quietly(els, r) && Quietly(both, r);
      var t := ElseWas(els);
      var a, b := TwoWas(s);
      Behind(both, r, 0);
      assert both.kids[0..] == both.kids && r.kids[0..] == r.kids;
      var kids := r.kids;
      assert kids == [Leaf(Key(If)), a, b, Leaf(Key(Else)), t];
      Behind(both, r, 0);
      FirstOfTwo(s, both, r, a, b);
    } else {
      var a, b := TwoWas(s);
      assert both.kids == [Leaf(Key(If)), a, b];
      ToTheEnd(both.kids, 3, both.rest);
    }
  }

  /** The first of two expressions is followed by the second and by what was parsed behind it. */
  lemma FirstOfTwo(d: Draft, both: Draft, r: Draft, a: Tree, b: Tree)
    requires both.kids == d.kids + [a] + [b] && both.kids <= r.kids && Quietly(both, r)
    requires Expression(a, 0, From(both.kids, |d.kids| + 1, both.rest)) && Expression(b, 0, both.rest)
    ensures Expression(a, 0, From(r.kids, |d.kids| + 1, r.rest)) && Expression(b, 0, From(r.kids, |d.kids| + 2, r.rest))
  {
    hide Expression, Quietly;
    var n := |d.kids|;
    Behind(both, r, 0);
    assert r.kids[0..] == r.kids && both.kids[n + 1..] == [b] && r.kids[n + 1..] == [b] + r.kids[n + 2..];
    TokensJoin([b], r.kids[n + 2..]);
    hide TokensOf;
    Assoc(TokensOf([b]), TokensOf(r.kids[n + 2..]), r.rest);
  }

  lemma {:induction false} ElseWas(els: Draft) returns (t: Tree)
    requires Quiet(els, if AtKey(els, If) then Whole(IfExpr, els, IfBody(Take(Fresh(els)))) else Expr(els, 0))
    ensures var r := if AtKey(els, If) then Whole(IfExpr, els, IfBody(Take(Fresh(els)))) else Expr(els, 0);
            r.d.kids == els.kids + [t] && ElseForm(t, r.d.rest)
    decreases |els.rest|, 8
  {
    hide Expr, Whole, Text, Expression, IfForm, From, Take, IfBody, Starts, Tokens;
    if AtKey(els, If) {
      var f := Fresh(els);
      TakeOnward(f);
      var r := IfBody(Take(f));
      WholeIs(IfExpr, els, r);
      assert Quiet(Take(f), r);
      IfWas(Take(f));
      t := Node(IfExpr, r.d.kids);
      StartsWithIf(r.d.kids);
    } else {
      t := ExprWas(els, 0);
      var r := Expr(els, 0).d;
      Behind(els, r, |els.kids|);
      NoIf(els, r, t);
    }
  }

  lemma StartsWithIf(kids: seq<Tree>)
    requires kids != [] && kids[0] == Leaf(Key(If))
    ensures Starts(Tokens(Node(IfExpr, kids)), Key(If))
  {
    NodeTokens(Node(IfExpr, kids));
    TokensSplit(kids);
    NodeTokens(kids[0]);
    hide Tokens, TokensOf;
  }

  lemma NoIf(els: Draft, r: Draft, t: Tree)
    requires !AtKey(els, If) && r.kids == els.kids + [t] && Quietly(els, r)
    ensures !Starts(Tokens(t), Key(If))
  {
    hide Quietly;
    Behind(els, r, |els.kids|);
    TokensSplit([t]);
    TokensSplit([]);
    hide TokensOf, Tokens;
    assert r.kids[|els.kids|..] == [t] && [t][0..] == [t] && [t][1..] == [];
    assert Tokens(t) + [] == Tokens(t);
    if Tokens(t) != [] {
      assert els.rest[0] == Tokens(t)[0];
    }
  }

  lemma {:induction false} MatchWas(s: Draft)
    requires s.kids == [Leaf(Key(Match))] && Quiet(s, MatchBody(s))
    ensures MatchForm(MatchBody(s).d.kids, MatchBody(s).d.rest)
    decreases |s.rest|, 9
  {
    hide Expr, ArmsLoop, Text, Expression, From, Need, MatchBody, ArmsForm, AtKind, Take;
    MatchBodyIs(s);
    var scrutinee := Expr(s, 0).d;
    var open := Need(scrutinee, LBrace);
    var arms := ArmsLoop(open).d;
    var r := Need(arms, RBrace);
    assert Onward(s, scrutinee) && Onward(scrutinee, open) && Onward(open, arms) && Onward(arms, r);
    assert Quietly(s, scrutinee) && Quietly(scrutinee, open) && Quietly(open, arms) && Quietly(arms, r);
    assert Quietly(scrutinee, r);
    NeedTaken(scrutinee, LBrace);
    NeedTaken(arms, RBrace);
    var e := ExprWas(s, 0);
    ArmsWas(open);
    Behind(scrutinee, r, 0);
    Behind(arms, r, 0);
    var kids, n := r.kids, |arms.kids|;
    assert kids[0..] == kids && kids[3..n] == Added(open, arms) && n + 1 == |kids|;
    assert kids[0] == open.kids[0] && kids[1] == open.kids[1] && kids[2] == open.kids[2];
  }

  lemma {:induction false} ArmsWas(d: Draft)
    requires Quiet(d, ArmsLoop(d))
    ensures var r := ArmsLoop(d).d; d.kids <= r.kids && ArmsForm(Added(d, r), r.rest)
    decreases |d.rest|, 9
  {
    hide ArmsLoop, Arm, Text, ArmForm, From, Take;
    ArmsLoopIs(d);
    var r := ArmsLoop(d).d;
    if AtEnd(d) {
      assert Added(d, r) == [];
    } else {
      var f := Fresh(d);
      var arm := Arm(f).d;
      var one := Draft(d.kids + [Node(ArmOf, arm.kids)], arm.rest, arm.errors);
      WholeIs(ArmOf, d, Arm(f));
      var next := one;
      if At(one, Comma) {
        TakeOnward(one);
        next := Take(one);
      }
      assert Onward(next, r);
      assert Quietly(f, arm) && Quietly(one, next) && Quietly(next, r) && Quietly(one, r);
      ArmWas(f);
      ArmsWas(next);
      ArmsMore(d, one, next, r);
    }
  }

  lemma ArmsMore(d: Draft, one: Draft, next: Draft, r: Draft)
    requires |one.kids| == |d.kids| + 1 && d.kids <= one.kids <= next.kids <= r.kids && Quietly(one, r)
    requires one.kids[|d.kids|].Node? && one.kids[|d.kids|].kind.ArmOf? && ArmForm(one.kids[|d.kids|].kids, one.rest)
    requires if At(one, Comma) then next.kids == one.kids + [Leaf(Comma)] else next == one
    requires ArmsForm(Added(next, r), r.rest)
    ensures ArmsForm(Added(d, r), r.rest)
  {
    hide ArmForm, Quietly;
    var ks, n := Added(d, r), |d.kids|;
    AddedSplit(d, next, r);
    Behind(one, r, n);
    assert ks[0] == one.kids[n];
    if At(one, Comma) {
      assert ks[1] == Leaf(Comma);
    } else if Is(ks, 1, Comma) {
      CommaThere(one, r, ks);
      assert false;
    }
  }

  /** A comma among the parts stood among the tokens. */
  lemma CommaThere(one: Draft, r: Draft, ks: seq<Tree>)
    requires Is(ks, 1, Comma) && one.rest == From(ks, 1, r.rest)
    ensures At(one, Comma)
  {
    TokensSplit(ks[1..]);
    NodeTokens(ks[1]);
    hide TokensOf, Tokens;
  }

  lemma {:induction false} ArmWas(d: Draft)
    requires d.kids == [] && Quiet(d, Arm(d))
    ensures ArmForm(Arm(d).d.kids, Arm(d).d.rest)
    decreases |d.rest|, 8
  {
    hide Pattern, Expr, Text, PatternForm, Expression, From, Take, Need, Arm, AtKind;
    ArmUnfolds(d);
    var pattern := Pattern(d).d;
    var guarded := pattern;
    if AtKey(pattern, If) {
      TakeOnward(pattern);
      guarded := Expr(Take(pattern), 0).d;
      assert Onward(pattern, guarded);
    }
    var arrow := Need(guarded, FatArrow);
    var r := Expr(arrow, 0).d;
    assert Onward(d, pattern) && Onward(guarded, arrow) && Onward(arrow, r);
    assert Quietly(d, pattern) && Quietly(pattern, guarded) && Quietly(guarded, arrow) && Quietly(arrow, r);
    assert Quietly(pattern, r) && Quietly(guarded, r);
    NeedTaken(guarded, FatArrow);
    var p := PatternWas(d);
    var e := ExprWas(arrow, 0);
    var kids := r.kids;
    assert kids[0..] == kids;
    if AtKey(pattern, If) {
      var g := ExprWas(Take(pattern), 0);
      Behind(pattern, r, 0);
      assert kids == [p, Leaf(Key(If)), g, Leaf(FatArrow), e];
      Behind(guarded, r, 0);
    } else {
      Behind(pattern, r, 0);
      assert kids == [p, Leaf(FatArrow), e];
    }
  }

  lemma {:induction false} TryWas(s: Draft)
    requires s.kids == [Leaf(Key(Try))] && Quiet(s, TryBody(s))
    ensures TryForm(TryBody(s).d.kids, TryBody(s).d.rest)
    decreases |s.rest|, 9
  {
    hide Expr, RescueLoop, Text, Expression, From, Take, TryBody, RescuesForm;
    TryBodyIs(s);
    var body := Expr(s, 0).d;
    assert Onward(s, body) && Quiet(s, TryBody(s));
    assert Quietly(s, body);
    var e := ExprWas(s, 0);
    RescuesWas(body);
    var r := TryBody(s).d;
    Behind(body, r, 0);
    var kids := r.kids;
    assert kids[0..] == kids && kids[2..] == Added(body, r) && kids[0] == body.kids[0] && kids[1] == body.kids[1];
  }

  /** Rescues, and what is ensured. */
  function RescueAll(d: Draft): Outcome {
    var rescued := RescueLoop(d);
    if rescued.Err? then rescued
    else if AtKey(rescued.d, Ensure) then Expr(Take(rescued.d), 0) else rescued
  }

  lemma RescueAllIs(d: Draft)
    ensures RescueAll(d) ==
              if !AtKey(d, Rescue) then if AtKey(d, Ensure) then Expr(Take(d), 0) else Ok(d)
              else
                var one := RescueClause(Take(Fresh(d)));
                if one.Err? then one
                else RescueAll(Draft(d.kids + [Node(RescueOf, one.d.kids)], one.d.rest, one.d.errors))
  {
    RescueLoopIs(d);
    hide RescueLoop, Expr, Take, RescueClause;
  }

  lemma RescueAllFollows(d: Draft)
    ensures Follows(d, RescueAll(d))
  {
    hide RescueLoop, Expr, Take, Text, RescueClause;
  }

  lemma {:induction false} RescuesWas(d: Draft)
    requires Quiet(d, RescueAll(d))
    ensures var r := RescueAll(d).d; d.kids <= r.kids && RescuesForm(Added(d, r), r.rest)
    decreases |d.rest|, 8
  {
    hide RescueAll, Expr, Take, Text, RescueForm, Expression, RescueClause, From, Starts;
    RescueAllIs(d);
    var r := RescueAll(d).d;
    StartsAt(r, Key(Rescue));
    StartsAt(r, Key(Ensure));
    if AtKey(d, Rescue) {
      var f := Fresh(d);
      TakeOnward(f);
      var one := RescueClause(Take(f)).d;
      var next := Draft(d.kids + [Node(RescueOf, one.kids)], one.rest, one.errors);
      RescueAllFollows(next);
      assert Onward(Take(f), one) && Onward(next, r);
      assert Quietly(Take(f), one) && Quietly(next, r);
      RescueWas(Take(f));
      RescuesWas(next);
      AddedSplit(d, next, r);
      Behind(next, r, |d.kids|);
      assert Added(d, r)[0] == Node(RescueOf, one.kids);
    } else if AtKey(d, Ensure) {
      TakeOnward(d);
      var e := ExprWas(Take(d), 0);
      assert Added(d, r) == [Leaf(Key(Ensure)), e];
    } else {
      assert Added(d, r) == [];
    }
  }

  lemma {:induction false} RescueWas(s: Draft)
    requires s.kids == [Leaf(Key(Rescue))] && Quiet(s, RescueClause(s))
    ensures RescueForm(RescueClause(s).d.kids, RescueClause(s).d.rest)
    decreases |s.rest|, 8
  {
    hide Expr, Take, Text, Expression, RescueClause, Name, Tokens, StartsName;
    RescueUnfolds(s);
    var named := s;
    if AtName(s) {
      TakeOnward(s);
      named := Take(s);
    }
    var bound := named;
    if AtKey(named, As) {
      TakeOnward(named);
      NameWas(Take(named));
      bound := Take(Take(named));
    }
    var r := Expr(bound, 0).d;
    assert Quietly(s, bound) && Onward(bound, r) && Quietly(bound, r);
    var e := ExprWas(bound, 0);
    assert r.kids == bound.kids + [e];
    if bound == s {
      NoNameFirst(s, r, e);
    }
  }

  lemma NoNameFirst(d: Draft, r: Draft, t: Tree)
    requires !AtName(d) && r.kids == d.kids + [t] && Quietly(d, r)
    ensures !StartsName(Tokens(t))
  {
    hide Quietly;
    Behind(d, r, |d.kids|);
    TokensSplit([t]);
    TokensSplit([]);
    hide TokensOf, Tokens;
    assert r.kids[|d.kids|..] == [t] && [t][0..] == [t] && [t][1..] == [];
    assert Tokens(t) + [] == Tokens(t);
    if Tokens(t) != [] {
      assert d.rest[0] == Tokens(t)[0];
    }
  }

  // ----- braces -----

  lemma {:induction false} BraceWas(d: Draft) returns (t: Tree)
    requires At(d, LBrace) && Quiet(d, Brace(d))
    ensures Brace(d).d.kids == d.kids + [t] && Operand(t, Brace(d).d.rest)
    decreases |d.rest|, 4
  {
    hide Take, Need, BlockLoop, Expr, MapBody, Text, StartsStmt, Brace, Operand, MapForm, BlockForm, BraceDecides;
    hide AtKind;
    BraceIs(d);
    var f := Fresh(d);
    TakeOnward(f);
    var s := Take(f);
    if At(s, RBrace) {
      TakeOnward(s);
      t := Node(MapLit, Take(s).kids);
      EmptyMap(Take(s).kids, Take(s).rest);
      FormIsOperand(t, Take(s).rest);
    } else if s.rest != [] && StartsStmt(s.rest[0]) {
      t := DeclaredWas(d, s);
    } else {
      t := DecidedWas(d, s);
    }
  }

  lemma EmptyMap(kids: seq<Tree>, rest: seq<Token>)
    requires kids == [Leaf(LBrace), Leaf(RBrace)]
    ensures MapForm(kids, rest)
  {
    hide Entries;
  }

  /** The first token of what was parsed. */
  lemma FirstParsed(d: Draft, r: Draft)
    requires d.kids < r.kids && Quietly(d, r) && Tokens(r.kids[|d.kids|]) != []
    ensures d.rest != [] && d.rest[0] == Tokens(r.kids[|d.kids|])[0]
  {
    hide Quietly;
    Behind(d, r, |d.kids|);
    var ks := r.kids[|d.kids|..];
    TokensSplit(ks);
    hide TokensOf, Tokens;
    assert ks[0..] == ks;
  }

  /** A block that begins with a declaration. */
  lemma {:induction false} DeclaredWas(d: Draft, s: Draft) returns (t: Tree)
    requires At(d, LBrace) && s == Take(Fresh(d)) && Quiet(d, Brace(d))
    requires s.rest != [] && StartsStmt(s.rest[0])
    ensures Brace(d).d.kids == d.kids + [t] && Operand(t, Brace(d).d.rest)
    decreases |d.rest|, 3
  {
    hide Take, Need, BlockLoop, Expr, MapBody, Text, StartsStmt, Brace, Operand, BlockForm, BraceDecides, BodyForm;
    hide AtKind, Declared, Tokens, From;
    BraceIs(d);
    TakeOnward(Fresh(d));
    NoBraceStarts(s);
    var body := BlockLoop(s);
    var closed := Need(body, RBrace);
    assert Onward(s, body) && Onward(body, closed);
    assert Quietly(s, body) && Quietly(body, closed) && Quietly(s, closed);
    NeedTaken(body, RBrace);
    BodyWas(s);
    t := Node(Block, closed.kids);
    NotNothing(s, body);
    var kids, n := closed.kids, |body.kids|;
    Behind(body, closed, 0);
    assert kids[0..] == kids && kids[1..n] == Added(s, body) && kids[0] == s.kids[0];
    FirstStmt(s, body, closed);
    BlockIf(kids, closed.rest);
    FormIsOperand(t, closed.rest);
  }

  lemma NoBraceStarts(d: Draft)
    requires d.rest != [] && StartsStmt(d.rest[0])
    ensures !At(d, RBrace) && !AtEnd(d)
  {
  }

  /** A body that does not end at once has a part. */
  lemma NotNothing(s: Draft, body: Draft)
    requires s.kids <= body.kids && Quietly(s, body) && body.rest != [] && body.rest[0] == RBrace
    requires s.rest != [] && s.rest[0] != RBrace
    ensures s.kids < body.kids
  {
    hide Quietly;
    if s.kids == body.kids {
      assert Added(s, body) == [];
      NothingAdded(s, body);
    }
  }

  /** The first part of the body begins where the body does. */
  lemma FirstStmt(s: Draft, body: Draft, closed: Draft)
    requires s.kids < body.kids <= closed.kids && BodyForm(Added(s, body), body.rest) && Quietly(s, closed)
    requires s.rest != [] && StartsStmt(s.rest[0])
    ensures Declared(Tokens(closed.kids[|s.kids|]))
  {
    hide Quietly, Statement, Tokens, StartsStmt, From;
    var t := Added(s, body)[0];
    assert t == closed.kids[|s.kids|];
    var more := From(Added(s, body), 1, body.rest);
    StmtBegins(t, more);
    FirstParsed(s, closed);
    StartsAre(s.rest[0]);
  }

  lemma BlockIf(kids: seq<Tree>, rest: seq<Token>)
    requires |kids| >= 3 && kids[0] == Leaf(LBrace) && kids[|kids| - 1] == Leaf(RBrace)
    requires var n := |kids| - 1;
             if Declared(Tokens(kids[1])) then BodyForm(kids[1..n], From(kids, n, rest))
             else
               || (n == 2 && Expression(kids[1], 0, From(kids, n, rest)))
               || (&& kids[1].Node? && kids[1].kind.Semi? && Statement(kids[1], From(kids, 2, rest))
                   && BodyForm(kids[2..n], From(kids, n, rest)))
    ensures BlockForm(kids, rest)
  {
    hide BodyForm, Expression, Statement, Declared, Tokens, From;
  }

  /** A block or a map, as its first expression decides. */
  lemma {:induction false} DecidedWas(d: Draft, s: Draft) returns (t: Tree)
    requires At(d, LBrace) && s == Take(Fresh(d)) && Quiet(d, Brace(d))
    requires !At(s, RBrace) && !(s.rest != [] && StartsStmt(s.rest[0]))
    ensures Brace(d).d.kids == d.kids + [t] && Operand(t, Brace(d).d.rest)
    decreases |d.rest|, 3
  {
    hide Take, Need, BlockLoop, Expr, MapBody, Text, StartsStmt, Brace, Operand, BlockForm, MapForm, FirstDecides;
    hide BraceDecides, AtKind, Expression, Declared, Tokens;
    BraceIs(d);
    TakeOnward(Fresh(d));
    var f := Fresh(s);
    var first := Expr(f, 0).d;
    BraceIsDecided(d, s);
    DecidesQuiet(d.kids, s.kids, first);
    assert Quietly(f, first);
    var e := ExprWas(f, 0);
    assert first.kids == [e];
    Undeclared(f, first, e);
    if At(first, Colon) {
      t := MapWas(d, s, first, e);
    } else {
      t := BlockWas(d, s, first, e);
    }
  }

  lemma BraceIsDecided(d: Draft, s: Draft)
    requires At(d, LBrace) && s == Take(Fresh(d)) && Quiet(d, Brace(d))
    requires !At(s, RBrace) && !(s.rest != [] && StartsStmt(s.rest[0]))
    ensures var first := Expr(Fresh(s), 0);
            first.Ok? && Onward(Fresh(s), first.d) && Brace(d) == BraceDecides(d.kids, s.kids, first.d)
  {
    BraceIs(d);
    hide Take, Expr, Text, StartsStmt, Brace, BraceDecides;
  }

  /** Nothing that was recorded is taken back. */
  lemma DecidesQuiet(kids: seq<Tree>, s: seq<Tree>, first: Draft)
    ensures var r := BraceDecides(kids, s, first); r.Ok? ==> |first.errors| <= |r.d.errors|
  {
    hide MapBody, BlockLoop, Take, Need, Text;
  }

  lemma Undeclared(d: Draft, r: Draft, t: Tree)
    requires d.kids == [] && r.kids == [t] && Quietly(d, r) && !(d.rest != [] && StartsStmt(d.rest[0]))
    ensures !Declared(Tokens(t))
  {
    hide Quietly, StartsStmt, Tokens;
    DeclaredIs(Tokens(t));
    if Tokens(t) != [] {
      FirstParsed(d, r);
      StartsAre(d.rest[0]);
    }
  }

  lemma {:induction false} MapWas(d: Draft, s: Draft, first: Draft, e: Tree) returns (t: Tree)
    requires At(d, LBrace) && s == Take(Fresh(d)) && first.kids == [e] && At(first, Colon)
    requires |first.rest| < |d.rest| && |first.errors| == |d.errors| && !Declared(Tokens(e))
    requires Expression(e, 0, first.rest) && Quiet(d, BraceDecides(d.kids, s.kids, first))
    ensures var r := BraceDecides(d.kids, s.kids, first).d; r.kids == d.kids + [t] && Operand(t, r.rest)
    decreases |d.rest|, 2
  {
    hide Take, Need, Expr, MapBody, Text, Operand, MapForm, FirstDecides, BraceDecides, Expression, Declared, Tokens;
    hide MapLoop, EntriesEnd, From, AtKind, BlockLoop;
    BraceMap(d.kids, s.kids, first);
    TakeOnward(Fresh(d));
    var behind := Draft(s.kids + first.kids, first.rest, first.errors);
    TakeOnward(behind);
    var colon := Take(behind);
    MapBodyIs(colon);
    var value := Expr(colon, 0).d;
    var entries := MapLoop(value).d;
    var r := Need(entries, RBrace);
    assert Onward(colon, value) && Onward(value, entries) && Onward(entries, r);
    assert Quietly(colon, value) && Quietly(value, entries) && Quietly(entries, r);
    assert Quietly(behind, r) && Quietly(value, r);
    var v := ExprWas(colon, 0);
    EntriesWas(value);
    assert r.kids[..4] == [Leaf(LBrace), e, Leaf(Colon), v];
    Behind(behind, r, 1);
    Behind(value, r, 1);
    assert r.kids[1..][3..] == Added(value, r);
    EntriesIf(r.kids[1..], r.rest);
    MapIf(r.kids, r.rest);
    t := Node(MapLit, r.kids);
    FormIsOperand(t, r.rest);
  }

  lemma EntriesIf(ks: seq<Tree>, rest: seq<Token>)
    requires |ks| > 3 && Expression(ks[0], 0, From(ks, 1, rest)) && ks[1] == Leaf(Colon)
    requires Expression(ks[2], 0, From(ks, 3, rest)) && EntriesEnd(ks[3..], rest)
    ensures Entries(ks, rest)
  {
    hide Expression, From, EntriesEnd;
  }

  lemma MapIf(kids: seq<Tree>, rest: seq<Token>)
    requires |kids| > 1 && kids[0] == Leaf(LBrace) && !Declared(Tokens(kids[1])) && Entries(kids[1..], rest)
    ensures MapForm(kids, rest)
  {
    hide Declared, Tokens, Entries;
  }

  /** The entries but the first, and the closing brace. */
  lemma {:induction false} EntriesWas(d: Draft)
    requires MapLoop(d).Ok? && Quietly(d, Need(MapLoop(d).d, RBrace))
    ensures var r := Need(MapLoop(d).d, RBrace);
            d.kids < r.kids && EntriesEnd(Added(d, r), r.rest)
    decreases |d.rest|, 0
  {
    hide Take, Need, Expr, Text, MapLoop, Entries, From, AtKind, Expression;
    MapLoopIs(d);
    var entries := MapLoop(d).d;
    var r := Need(entries, RBrace);
    assert Onward(d, entries) && Onward(entries, r);
    assert Quietly(entries, r);
    NeedTaken(entries, RBrace);
    if !At(d, Comma) {
      assert Added(d, r) == [Leaf(RBrace)];
    } else {
      TakeOnward(d);
      var comma := Take(d);
      if At(comma, RBrace) {
        assert Added(d, r) == [Leaf(Comma), Leaf(RBrace)];
      } else {
        EntryWas(d, comma, r);
      }
    }
  }

  lemma {:induction false} EntryWas(d: Draft, comma: Draft, r: Draft)
    requires MapLoop(d).Ok? && r == Need(MapLoop(d).d, RBrace) && Quietly(d, r)
    requires At(d, Comma) && comma == Take(d) && !At(comma, RBrace)
    ensures d.kids < r.kids && EntriesEnd(Added(d, r), r.rest)
    decreases |d.rest|, -1
  {
    hide Take, Need, Expr, Text, MapLoop, From, AtKind, Expression, Entries;
    MapLoopIs(d);
    TakeOnward(d);
    var key := Expr(comma, 0).d;
    var colon := Need(key, Colon);
    var value := Expr(colon, 0).d;
    assert Onward(comma, key) && Onward(key, colon) && Onward(colon, value) && Follows(value, MapLoop(value));
    assert Onward(MapLoop(value).d, r);
    assert Quietly(comma, key) && Quietly(key, colon) && Quietly(colon, value) && Quietly(value, r) && Quietly(key, r);
    NeedTaken(key, Colon);
    var k := ExprWas(comma, 0);
    var v := ExprWas(colon, 0);
    EntriesWas(value);
    var ks, m := r.kids[|comma.kids|..], |comma.kids|;
    Behind(key, r, m);
    Behind(value, r, m);
    assert ks[3..] == Added(value, r) && ks[0] == k && ks[1] == Leaf(Colon) && ks[2] == v;
    EntriesIf(ks, r.rest);
    AddedSplit(d, comma, r);
    EndIf(Added(d, r), r.rest);
  }

  lemma EndIf(ks: seq<Tree>, rest: seq<Token>)
    requires |ks| > 1 && ks[0] == Leaf(Comma) && Entries(ks[1..], rest)
    ensures EntriesEnd(ks, rest)
  {
    hide Entries;
  }

  lemma {:induction false} BlockWas(d: Draft, s: Draft, first: Draft, e: Tree) returns (t: Tree)
    requires At(d, LBrace) && s == Take(Fresh(d)) && first.kids == [e] && !At(first, Colon)
    requires |first.rest| < |d.rest| && |first.errors| == |d.errors| && !Declared(Tokens(e))
    requires Expression(e, 0, first.rest) && Quiet(d, BraceDecides(d.kids, s.kids, first))
    requires Quietly(Fresh(s), first)
    ensures var r := BraceDecides(d.kids, s.kids, first).d; r.kids == d.kids + [t] && Operand(t, r.rest)
    decreases |d.rest|, 2
  {
    hide Take, Need, Expr, MapBody, Text, Operand, BlockForm, FirstDecides, BraceDecides, Expression, Declared, Tokens;
    hide BlockLoop, From, AtKind, BodyForm;
    TakeOnward(Fresh(d));
    if At(first, Semicolon) {
      t := SemiBlockWas(d, s, first, e);
    } else {
      NoSeparatorLoud(d.kids, s.kids, first);
      t := SingleWas(d.kids, s, first, e);
    }
  }

  /** A block of a single expression. */
  lemma SingleWas(kids: seq<Tree>, s: Draft, first: Draft, e: Tree) returns (t: Tree)
    requires s.kids == [Leaf(LBrace)] && first.kids == [e] && At(first, RBrace)
    requires !Declared(Tokens(e)) && Expression(e, 0, first.rest)
    ensures var r := BraceDecides(kids, s.kids, first);
            r.Ok? && r.d.kids == kids + [t] && Operand(t, r.d.rest)
  {
    hide Take, Need, Text, Operand, BlockForm, BraceDecides, Expression, Declared, Tokens, From, AtKind, BodyForm;
    BlockDecides(kids, s.kids, first);
    var body := Draft(s.kids + first.kids, first.rest, first.errors);
    TakeOnward(body);
    NeedHere(body, RBrace);
    var closed := Take(body);
    Behind(body, closed, 0);
    assert closed.kids == [Leaf(LBrace), e, Leaf(RBrace)] && closed.kids[0..] == closed.kids;
    t := Node(Block, closed.kids);
    BlockIf(closed.kids, closed.rest);
    FormIsOperand(t, closed.rest);
  }

  /** What follows a first expression is a semicolon or the closing brace, or a report. */
  lemma NoSeparatorLoud(kids: seq<Tree>, s: seq<Tree>, first: Draft)
    requires !At(first, Colon) && !At(first, Semicolon)
    ensures var r := BraceDecides(kids, s, first);
            r.Ok? && (!At(first, RBrace) ==> |r.d.errors| > |first.errors|)
  {
    hide MapBody, BlockLoop, Take, Text, AtKind;
  }

  lemma SemiIf(e: Tree, rest: seq<Token>)
    requires Expression(e, 0, [Semicolon] + rest) && !Declared(Tokens(e)) && Tokens(e) != []
    ensures Statement(Node(Semi, [e, Leaf(Semicolon)]), rest) && !Declared(Tokens(Node(Semi, [e, Leaf(Semicolon)])))
  {
    var kids := [e, Leaf(Semicolon)];
    SemiTokens(e, rest);
    hide Expression, Tokens, TokensOf;
    assert kids[1] == Leaf(Semicolon);
  }

  lemma SemiTokens(e: Tree, rest: seq<Token>)
    ensures var kids := [e, Leaf(Semicolon)];
            && From(kids, 1, rest) == [Semicolon] + rest && Tokens(Node(Semi, kids)) == Tokens(e) + [Semicolon]
            && From(kids, 0, rest) == Tokens(e) + ([Semicolon] + rest)
  {
    var kids := [e, Leaf(Semicolon)];
    NodeTokens(Node(Semi, kids));
    TokensSplit(kids);
    TokensSplit(kids[1..]);
    TokensSplit([]);
    NodeTokens(kids[1]);
    hide TokensOf, Tokens;
    assert kids[1..][1..] == [] && kids[0..] == kids && [Semicolon] + [] == [Semicolon];
    Assoc(Tokens(e), [Semicolon], rest);
  }

  lemma {:induction false} SemiBlockWas(d: Draft, s: Draft, first: Draft, e: Tree) returns (t: Tree)
    requires At(d, LBrace) && s == Take(Fresh(d)) && first.kids == [e] && At(first, Semicolon)
    requires |first.rest| < |d.rest| && |first.errors| == |d.errors| && !Declared(Tokens(e))
    requires Expression(e, 0, first.rest) && Quiet(d, BraceDecides(d.kids, s.kids, first))
    ensures var r := BraceDecides(d.kids, s.kids, first).d; r.kids == d.kids + [t] && Operand(t, r.rest)
    decreases |d.rest|, 1
  {
    hide Take, Need, Expr, MapBody, Text, Operand, BlockForm, FirstDecides, BraceDecides, Expression, Declared, Tokens;
    hide BlockLoop, From, AtKind, BodyForm, Statement;
    SemiDecides(d.kids, s.kids, first);
    TakeOnward(Fresh(d));
    TakeOnward(first);
    var semi := Take(first);
    var stmt := Node(Semi, semi.kids);
    var next := Draft(s.kids + [stmt], semi.rest, semi.errors);
    var body := BlockLoop(next);
    var closed := Need(body, RBrace);
    assert Onward(next, body) && Onward(body, closed);
    assert Quietly(next, body) && Quietly(body, closed) && Quietly(next, closed);
    NeedTaken(body, RBrace);
    BodyWas(next);
    assert semi.kids == [e, Leaf(Semicolon)] && first.rest == [Semicolon] + semi.rest;
    ExprBegins(e, 0, first.rest);
    SproutSome(Tokens(e));
    SemiIf(e, semi.rest);
    var kids, n := closed.kids, |body.kids|;
    Behind(next, closed, 0);
    Behind(body, closed, 0);
    assert kids[0..] == kids && kids[2..n] == Added(next, body) && kids[0] == next.kids[0] && kids[1] == next.kids[1];
    t := Node(Block, kids);
    BlockIf(kids, closed.rest);
    FormIsOperand(t, closed.rest);
  }

  lemma {:induction false} BodyWas(d: Draft)
    requires Quietly(d, BlockLoop(d))
    ensures var r := BlockLoop(d); d.kids <= r.kids && BodyForm(Added(d, r), r.rest)
    decreases |d.rest|, 13
  {
    hide Stmt, BlockLoop, Resynced, Take, Text, BodyForm, Statement, EndsBare, IsBare;
    BlockLoopIs(d);
    var r := BlockLoop(d);
    if AtEnd(d) {
      assert Added(d, r) == [];
      NoBody(r.rest);
    } else {
      StmtQuiet(d);
      var one := Stmt(d).d;
      var t := StmtWas(d);
      LastBare(d.kids, t);
      var next := one;
      if !EndsBare(one.kids) {
        if At(one, Semicolon) {
          TakeOnward(one);
          next := Take(one);
        }
        assert Onward(next, r);
        assert Quietly(next, r) && Quietly(one, r);
        BodyWas(next);
        BodyMore(d, one, next, r, t);
      } else {
        assert Added(d, r) == [t];
        BodyLast(t, r.rest);
      }
    }
  }

  lemma StmtQuiet(d: Draft)
    requires Quietly(d, BlockLoop(d)) && !AtEnd(d)
    ensures d.rest != [] && Quiet(d, Stmt(d)) && |Stmt(d).d.rest| < |d.rest|
  {
    BlockLoopIs(d);
    hide Stmt, BlockLoop, Resynced, Take, Text, EndsBare;
  }

  lemma NoBody(rest: seq<Token>)
    ensures BodyForm([], rest)
  {
  }

  lemma BodyLast(t: Tree, rest: seq<Token>)
    requires Statement(t, rest) && IsBare(t)
    ensures BodyForm([t], rest)
  {
    ToTheEnd([t], 1, rest);
    hide Statement;
  }

  lemma BodyMore(d: Draft, one: Draft, next: Draft, r: Draft, t: Tree)
    requires one.kids == d.kids + [t] && next.kids <= r.kids && Quietly(one, r)
    requires Statement(t, one.rest) && !IsBare(t) && BodyForm(Added(next, r), r.rest)
    requires if At(one, Semicolon) then next.kids == one.kids + [Leaf(Semicolon)] else next == one
    ensures d.kids <= r.kids && BodyForm(Added(d, r), r.rest)
  {
    var ks := Added(d, r);
    Behind(one, r, |d.kids|);
    StartsAt(one, Semicolon);
    AddedSplit(d, next, r);
    assert ks[0] == t;
    assert At(one, Semicolon) ==> ks[1] == Leaf(Semicolon);
    hide Statement, Quietly, IsBare, Starts, From, At;
  }

  // ----- statements -----

  /** What begins like no declaration is an expression. */
  predicate NoDeclaration(d: Draft)
    requires d.rest != []
  {
    || !StartsStmt(d.rest[0])
    || (d.rest[0] == Key(Shared) && !DeclaresShared(d.rest))
    || (d.rest[0] == Key(Fn) && !AtName(Take(Fresh(d))))
  }

  lemma {:induction false} StmtWas(d: Draft) returns (t: Tree)
    requires d.rest != [] && Quiet(d, Stmt(d))
    ensures Stmt(d).d.kids == d.kids + [t] && Statement(t, Stmt(d).d.rest)
    decreases |d.rest|, 12
  {
    hide ExprStmt, Take, Whole, Binding, NamedFunction, TypeDef, EnumDef, ActorDef, ImportPath, Need, Text, Stmt;
    hide DeclaresShared, AtName, Statement, Declaration;
    StmtUnfolds(d);
    if NoDeclaration(d) {
      t := ExprStmtWas(d);
    } else {
      t := DeclarationWas(d, d.rest[0].word);
    }
  }

  lemma NotDeclared(d: Draft)
    requires d.rest != [] && NoDeclaration(d)
    ensures !Declaration(d.rest)
  {
    hide AtName;
  }

  lemma {:induction false} ExprStmtWas(d: Draft) returns (t: Tree)
    requires d.rest != [] && NoDeclaration(d) && Quiet(d, ExprStmt(d))
    ensures ExprStmt(d).d.kids == d.kids + [t] && Statement(t, ExprStmt(d).d.rest)
    decreases |d.rest|, 8
  {
    hide ExprStmt, Take, Expr, Text, Statement, Declaration, NoDeclaration, Expression, Tokens;
    ExprStmtIs(d);
    NotDeclared(d);
    var f := Fresh(d);
    var first := Expr(f, 0).d;
    assert Onward(f, first);
    var semi := At(first, Semicolon);
    if semi {
      TakeOnward(first);
    }
    assert Quietly(f, first);
    var e := ExprWas(f, 0);
    assert first.kids == [e];
    WholeText(f, first, e);
    if semi {
      var all := Take(first);
      assert first.rest == [Semicolon] + all.rest && all.kids == [e, Leaf(Semicolon)];
      t := Node(Semi, all.kids);
      SemiStatement(e, all.rest);
    } else {
      t := Node(Bare, first.kids);
      StartsAt(first, Semicolon);
      BareStatement(e, first.rest);
    }
  }

  lemma WholeText(f: Draft, first: Draft, e: Tree)
    requires f.kids == [] && first.kids == [e] && Quietly(f, first)
    ensures f.rest == Tokens(e) + first.rest
  {
    hide Quietly, Tokens;
    Behind(f, first, 0);
    TokensOfOne(e);
    assert [e][0..] == [e];
  }

  lemma SemiStatement(e: Tree, rest: seq<Token>)
    requires Expression(e, 0, [Semicolon] + rest) && !Declaration(Tokens(e) + ([Semicolon] + rest))
    ensures Statement(Node(Semi, [e, Leaf(Semicolon)]), rest)
  {
    SemiTokens(e, rest);
    hide Expression, Tokens, TokensOf, Declaration, From;
    var kids := [e, Leaf(Semicolon)];
    assert kids[1] == Leaf(Semicolon);
  }

  lemma BareStatement(e: Tree, rest: seq<Token>)
    requires Expression(e, 0, rest) && !Declaration(Tokens(e) + rest) && !Starts(rest, Semicolon)
    ensures Statement(Node(Bare, [e]), rest)
  {
    TokensOfOne(e);
    hide Expression, Tokens, TokensOf, Declaration, Starts;
    assert [e][0..] == [e];
  }

  /** Declarations, by their first word. */
  lemma {:induction false} DeclarationWas(d: Draft, word: Keyword) returns (t: Tree)
    requires AtKey(d, word) && !NoDeclaration(d) && Quiet(d, Stmt(d))
    ensures Stmt(d).d.kids == d.kids + [t] && Statement(t, Stmt(d).d.rest)
    decreases |d.rest|, 11
  {
    hide ExprStmt, Take, Whole, Binding, NamedFunction, TypeDef, EnumDef, ActorDef, ImportPath, Need, Text, Stmt;
    hide DeclaresShared, AtName, Statement, LetForm, FunctionForm, TypeDefForm, EnumForm, ActorForm, ImportForm, From;
    StmtUnfolds(d);
    var f := Fresh(d);
    TakeOnward(f);
    var s := Take(f);
    if word in {Let, State, Shared} {
      var r := Binding(s);
      WholeIs(LetStmt, d, r);
      assert Quiet(s, r);
      LetWas(s, word);
      t := Node(LetStmt, r.d.kids);
      FormIsStatement(t, word, r.d.rest);
    } else if word in {Fn, On} {
      var kind, r := if word.Fn? then FnStmt else OnStmt, NamedFunction(s);
      WholeIs(kind, d, r);
      assert Quiet(s, r);
      NamedFunctionWas(s);
      t := Node(kind, r.d.kids);
      FormIsStatement(t, word, r.d.rest);
    } else {
      t := DefinitionWas(d, s, word);
    }
  }

  lemma {:induction false} DefinitionWas(d: Draft, s: Draft, word: Keyword) returns (t: Tree)
    requires AtKey(d, word) && s == Take(Fresh(d)) && Quiet(d, Stmt(d)) && StartsStmt(Key(word))
    requires word !in {Let, State, Shared, Fn, On}
    ensures Stmt(d).d.kids == d.kids + [t] && Statement(t, Stmt(d).d.rest)
    decreases |d.rest|, 10
  {
    hide Stmt, Statement, Take, Text;
    DefinitionWords(word);
    if word.Type? || word.Enum? {
      t := TypeWordWas(d, s, word);
    } else if word.Actor? {
      t := ActorWordWas(d, s);
    } else {
      t := ImportWordWas(d, s, word);
    }
  }

  lemma DefinitionWords(word: Keyword)
    requires StartsStmt(Key(word)) && word !in {Let, State, Shared, Fn, On}
    ensures word in {Type, Enum, Actor, Import, Lazy}
  {
  }

  lemma WordStmtIs(d: Draft, word: Keyword)
    requires AtKey(d, word)
    ensures var s := Take(Fresh(d));
            && (word.Type? ==> Stmt(d) == Whole(TypeStmt, d, TypeDef(s)))
            && (word.Enum? ==> Stmt(d) == Whole(EnumStmt, d, EnumDef(s)))
            && (word.Actor? ==> Stmt(d) == Whole(ActorStmt, d, ActorDef(s)))
            && (word.Import? || word.Lazy? ==>
                  Stmt(d) == Whole(ImportStmt, d, ImportPath(if word.Lazy? then Need(s, Key(Import)) else s)))
  {
    hide ExprStmt, Take, Whole, Binding, NamedFunction, TypeDef, EnumDef, ActorDef, ImportPath, Need, Text, Stmt;
    hide DeclaresShared, AtName;
    StmtUnfolds(d);
  }

  lemma {:induction false} TypeWordWas(d: Draft, s: Draft, word: Keyword) returns (t: Tree)
    requires AtKey(d, word) && s == Take(Fresh(d)) && Quiet(d, Stmt(d)) && word in {Type, Enum}
    ensures Stmt(d).d.kids == d.kids + [t] && Statement(t, Stmt(d).d.rest)
    decreases |d.rest|, 9
  {
    hide ExprStmt, Take, Whole, TypeDef, EnumDef, Text, Stmt, Statement, TypeDefForm, EnumForm, From;
    WordStmtIs(d, word);
    TakeOnward(Fresh(d));
    if word.Type? {
      var r := TypeDef(s);
      WholeIs(TypeStmt, d, r);
      TypeDefWas(s);
      t := Node(TypeStmt, r.d.kids);
      FormIsStatement(t, word, r.d.rest);
    } else {
      var r := EnumDef(s);
      WholeIs(EnumStmt, d, r);
      EnumWas(s);
      t := Node(EnumStmt, r.d.kids);
      FormIsStatement(t, word, r.d.rest);
    }
  }

  lemma {:induction false} ActorWordWas(d: Draft, s: Draft) returns (t: Tree)
    requires AtKey(d, Actor) && s == Take(Fresh(d)) && Quiet(d, Stmt(d))
    ensures Stmt(d).d.kids == d.kids + [t] && Statement(t, Stmt(d).d.rest)
    decreases |d.rest|, 9
  {
    hide ExprStmt, Take, Whole, ActorDef, Text, Stmt, Statement, ActorForm, From;
    WordStmtIs(d, Actor);
    TakeOnward(Fresh(d));
    var r := ActorDef(s);
    WholeIs(ActorStmt, d, r);
    assert Quiet(s, r);
    ActorWas(s);
    t := Node(ActorStmt, r.d.kids);
    FormIsStatement(t, Actor, r.d.rest);
  }

  lemma ImportWordWas(d: Draft, s: Draft, word: Keyword) returns (t: Tree)
    requires AtKey(d, word) && s == Take(Fresh(d)) && Quiet(d, Stmt(d)) && word in {Import, Lazy}
    ensures Stmt(d).d.kids == d.kids + [t] && Statement(t, Stmt(d).d.rest)
  {
    hide ExprStmt, Take, Whole, ImportPath, Need, Text, Stmt, Statement, ImportForm, From;
    WordStmtIs(d, word);
    TakeOnward(Fresh(d));
    var r := ImportPath(if word.Lazy? then Need(s, Key(Import)) else s);
    WholeIs(ImportStmt, d, r);
    ImportWas(s, word);
    t := Node(ImportStmt, r.d.kids);
    FormIsStatement(t, word, r.d.rest);
  }

  lemma FormIsStatement(t: Tree, word: Keyword, rest: seq<Token>)
    requires t.Node? && t.kids != [] && t.kids[0] == Leaf(Key(word))
    requires match t.kind
             case LetStmt => LetForm(t.kids, rest)
             case FnStmt => word.Fn? && IsName(t.kids, 1) && FunctionForm(t.kids[2..], rest)
             case OnStmt => word.On? && IsName(t.kids, 1) && FunctionForm(t.kids[2..], rest)
             case TypeStmt => TypeDefForm(t.kids, rest)
             case EnumStmt => EnumForm(t.kids, rest)
             case ActorStmt => ActorForm(t.kids, rest)
             case ImportStmt => ImportForm(t.kids, rest)
             case _ => false
    ensures Statement(t, rest)
  {
    if t.kind in {FnStmt, OnStmt} {
      FunctionSome(t.kids[2..], rest);
    }
    hide LetForm, FunctionForm, TypeDefForm, EnumForm, ActorForm, ImportForm;
  }

  lemma FunctionSome(kids: seq<Tree>, rest: seq<Token>)
    requires FunctionForm(kids, rest)
    ensures |kids| > 2
  {
    hide Listed, Expression, TypeForm;
  }

  lemma {:induction false} LetWas(s: Draft, word: Keyword)
    requires s.kids == [Leaf(Key(word))] && word in {Let, State, Shared} && Quiet(s, Binding(s))
    ensures var r := Binding(s).d; s.kids < r.kids && LetForm(r.kids, r.rest)
    decreases |s.rest|, 9
  {
    hide Take, Need, Name, Expr, TypeOf, MaybeType, Binding, Text, TypeForm, Expression, AtKind, From, LetForm;
    BindingIs(s);
    NameWas(s);
    var name := Take(s);
    MaybeTypeIs(name);
    var typed := MaybeType(name).d;
    var equals := Need(typed, Op(Pratt.Set));
    var r := Expr(equals, 0).d;
    assert Onward(name, typed) && Onward(typed, equals) && Onward(equals, r);
    assert Quietly(name, typed) && Quietly(typed, equals) && Quietly(equals, r) && Quietly(typed, r);
    NeedTaken(typed, Op(Pratt.Set));
    var e := ExprWas(equals, 0);
    var kids := r.kids;
    if At(name, Colon) {
      TakeOnward(name);
      var t := TypeWas(Take(name));
      Behind(typed, r, 0);
      assert kids == [Leaf(Key(word)), Leaf(s.rest[0]), Leaf(Colon), t, Leaf(Op(Pratt.Set)), e] && kids[0..] == kids;
      TypedLet(kids, word, r.rest);
    } else {
      assert kids == [Leaf(Key(word)), Leaf(s.rest[0]), Leaf(Op(Pratt.Set)), e];
      PlainLet(kids, word, r.rest);
    }
  }

  lemma TypedLet(kids: seq<Tree>, word: Keyword, rest: seq<Token>)
    requires |kids| == 6 && kids[0] == Leaf(Key(word)) && word in {Let, State, Shared} && IsName(kids, 1)
    requires kids[2] == Leaf(Colon) && TypeForm(kids[3], From(kids, 4, rest)) && kids[4] == Leaf(Op(Pratt.Set))
    requires Expression(kids[5], 0, rest)
    ensures LetForm(kids, rest)
  {
    hide TypeForm, Expression, From, IsName;
  }

  lemma PlainLet(kids: seq<Tree>, word: Keyword, rest: seq<Token>)
    requires |kids| == 4 && kids[0] == Leaf(Key(word)) && word in {Let, State, Shared} && IsName(kids, 1)
    requires kids[2] == Leaf(Op(Pratt.Set)) && Expression(kids[3], 0, rest)
    ensures LetForm(kids, rest)
  {
    hide TypeForm, Expression, From, IsName;
  }

  lemma {:induction false} NamedFunctionWas(s: Draft)
    requires |s.kids| == 1 && Quiet(s, NamedFunction(s))
    ensures var r := NamedFunction(s).d;
            s.kids < r.kids && IsName(r.kids, 1) && FunctionForm(r.kids[2..], r.rest)
    decreases |s.rest|, 12
  {
    hide Take, Name, FunctionBody, NamedFunction, Text, FunctionForm;
    NamedFunctionIs(s);
    NameWas(s);
    var name := Take(s);
    var r := FunctionBody(name).d;
    assert Quietly(name, r);
    FunctionWas(name);
    assert Added(name, r) == r.kids[2..] && r.kids[1] == name.kids[1];
  }

  lemma {:induction false} TypeDefWas(s: Draft)
    requires s.kids == [Leaf(Key(Type))] && Quiet(s, TypeDef(s))
    ensures var r := TypeDef(s).d; s.kids < r.kids && TypeDefForm(r.kids, r.rest)
    decreases |s.rest|, 12
  {
    hide Take, Need, Name, TypeParams, Items, TypeDef, Text, ParamsForm, Listed, AtKind, From;
    TypeDefIs(s);
    NameWas(s);
    var name := Take(s);
    var params := TypeParams(name, Names).d;
    var equals := Need(params, Op(Pratt.Set));
    var open := Need(equals, LBrace);
    var r := Items(open, FieldDecls, RBrace).d;
    assert Onward(name, params) && Onward(params, equals) && Onward(equals, open) && Onward(open, r);
    assert Quietly(name, params) && Quietly(params, equals) && Quietly(equals, open) && Quietly(open, r);
    assert Quietly(params, r);
    NeedTaken(params, Op(Pratt.Set));
    NeedTaken(equals, LBrace);
    ParamsWas(name, Names);
    RightShuts();
    ItemsWas(open, FieldDecls, RBrace);
    ListedSome(Added(open, r), FieldDecls, RBrace, r.rest);
    Behind(params, r, 0);
    var kids, n := r.kids, |params.kids|;
    assert kids[0..] == kids && kids[2..n] == Added(name, params) && kids[n + 2..] == Added(open, r);
    assert kids[0] == open.kids[0] && kids[1] == open.kids[1];
    assert kids[n] == open.kids[n] && kids[n + 1] == open.kids[n + 1];
    assert 2 <= n < |kids| - 2 && ParamsForm(kids[2..n], Names, From(kids, n, r.rest));
  }

  lemma {:induction false} EnumWas(s: Draft)
    requires s.kids == [Leaf(Key(Enum))] && Quiet(s, EnumDef(s))
    ensures var r := EnumDef(s).d; s.kids < r.kids && EnumForm(r.kids, r.rest)
    decreases |s.rest|, 12
  {
    hide Take, Need, Name, TypeParams, Items, EnumDef, Text, ParamsForm, Listed, AtKind, From;
    EnumDefIs(s);
    NameWas(s);
    var name := Take(s);
    var params := TypeParams(name, Names).d;
    var open := Need(params, LBrace);
    var r := Items(open, Variants, RBrace).d;
    assert Onward(name, params) && Onward(params, open) && Onward(open, r);
    assert Quietly(name, params) && Quietly(params, open) && Quietly(open, r) && Quietly(params, r);
    NeedTaken(params, LBrace);
    ParamsWas(name, Names);
    RightShuts();
    ItemsWas(open, Variants, RBrace);
    ListedSome(Added(open, r), Variants, RBrace, r.rest);
    Behind(params, r, 0);
    var kids, n := r.kids, |params.kids|;
    assert kids[0..] == kids && kids[2..n] == Added(name, params) && kids[n + 1..] == Added(open, r);
    assert kids[0] == open.kids[0] && kids[1] == open.kids[1] && kids[n] == open.kids[n];
    assert 2 <= n < |kids| - 1 && ParamsForm(kids[2..n], Names, From(kids, n, r.rest));
  }

  lemma {:induction false} ActorWas(s: Draft)
    requires s.kids == [Leaf(Key(Actor))] && Quiet(s, ActorDef(s))
    ensures var r := ActorDef(s).d; s.kids < r.kids && ActorForm(r.kids, r.rest)
    decreases |s.rest|, 12
  {
    hide Take, Need, Name, StmtList, ActorDef, Text, ListForm, AtKind, From;
    ActorDefIs(s);
    NameWas(s);
    var name := Take(s);
    var open := Need(name, LBrace);
    var body := StmtList(open, false);
    var r := Need(body, RBrace);
    assert Onward(name, open) && Onward(open, body) && Onward(body, r);
    assert Quietly(name, open) && Quietly(open, body) && Quietly(body, r);
    NeedTaken(name, LBrace);
    NeedTaken(body, RBrace);
    ListWas(open, false);
    Behind(body, r, 0);
    var kids, n := r.kids, |body.kids|;
    assert kids[0..] == kids && kids[3..n] == Added(open, body);
    assert kids[0] == open.kids[0] && kids[1] == open.kids[1] && kids[2] == open.kids[2];
  }

  lemma ImportWas(s: Draft, word: Keyword)
    requires s.kids == [Leaf(Key(word))] && word in {Import, Lazy}
    requires Quiet(s, ImportPath(if word.Lazy? then Need(s, Key(Import)) else s))
    ensures var r := ImportPath(if word.Lazy? then Need(s, Key(Import)) else s).d;
            s.kids < r.kids && ImportForm(r.kids, r.rest)
  {
    hide Take, Need, ImportPath, Text, PathForm, AtKind;
    var start := if word.Lazy? then Need(s, Key(Import)) else s;
    var r := ImportPath(start).d;
    assert Onward(s, start) && Onward(start, r);
    assert Quietly(s, start) && Quietly(start, r);
    PathWas(start);
    if word.Lazy? {
      NeedQuiet(s, Key(Import));
      KeywordThere(s);
      TakeOnward(s);
      assert Added(start, r) == r.kids[2..] && r.kids[0] == s.kids[0] && r.kids[1] == start.kids[1];
      PathSome(r.kids[2..], r.rest);
    } else {
      assert Added(start, r) == r.kids[1..] && r.kids[0] == s.kids[0];
      PathSome(r.kids[1..], r.rest);
    }
  }

  lemma KeywordThere(d: Draft)
    requires AtKind(d, Key(Import))
    ensures d.rest != [] && !d.rest[0].Ident? && IsField([Leaf(d.rest[0])], 0)
  {
  }

  lemma {:induction false} PathWas(d: Draft)
    requires Quiet(d, ImportPath(d))
    ensures var r := ImportPath(d).d; d.kids <= r.kids && PathForm(Added(d, r), r.rest)
    decreases |d.rest|
  {
    hide Take, Name, ImportPath, Text, Starts, PathForm;
    ImportPathIs(d);
    NameWas(d);
    var name := Take(d);
    PathThenIs(name);
    var r := ImportPath(d).d;
    StartsAt(r, Dot);
    StartsAt(r, Key(As));
    var token := Leaf(d.rest[0]);
    if At(name, Dot) {
      TakeOnward(name);
      var next := Take(name);
      assert Quietly(next, r);
      PathWas(next);
      AddedSplit(d, next, r);
      assert Added(d, r)[..2] == [token, Leaf(Dot)];
      PathOn(Added(d, r), r.rest);
    } else if At(name, Key(As)) {
      TakeOnward(name);
      NameWas(Take(name));
      assert Added(d, r) == [token, Leaf(Key(As)), Leaf(Take(name).rest[0])];
      PathEnds(Added(d, r), r.rest);
    } else {
      assert Added(d, r) == [token];
      PathEnds(Added(d, r), r.rest);
    }
  }

  lemma PathOn(ks: seq<Tree>, rest: seq<Token>)
    requires |ks| >= 2 && IsName(ks[..2], 0) && ks[..2][1] == Leaf(Dot) && PathForm(ks[2..], rest)
    ensures PathForm(ks, rest)
  {
    PathSome(ks[2..], rest);
    hide Starts;
  }

  lemma PathEnds(ks: seq<Tree>, rest: seq<Token>)
    requires IsName(ks, 0)
    requires || (|ks| == 1 && !Starts(rest, Dot) && !Starts(rest, Key(As)))
             || (|ks| == 3 && ks[1] == Leaf(Key(As)) && IsName(ks, 2))
    ensures PathForm(ks, rest)
  {
    hide Starts;
  }

  /** Nothing that was recorded is taken back. */
  lemma ListQuiet(d: Draft, topLevel: bool)
    requires Quietly(d, StmtList(d, topLevel)) && d.rest != [] && !At(d, Semicolon) && (topLevel || !At(d, RBrace))
    ensures Quiet(d, Stmt(d)) && StmtList(d, topLevel) == StmtList(Stmt(d).d, topLevel)
    ensures |Stmt(d).d.rest| < |d.rest| && Quietly(Stmt(d).d, StmtList(d, topLevel))
  {
    StmtListIs(d, topLevel);
    SkipsNone(d);
    hide StmtList, Stmt, Text, SkipSemicolons;
    if Stmt(d).Err? {
      FailureRecorded(d, topLevel);
    } else {
      assert Onward(d, Stmt(d).d) && Onward(Stmt(d).d, StmtList(Stmt(d).d, topLevel));
    }
  }

  /** A statement that fails is reported. */
  lemma FailureRecorded(d: Draft, topLevel: bool)
    requires d.rest != [] && !At(d, Semicolon) && (topLevel || !At(d, RBrace)) && Stmt(d).Err?
    ensures |StmtList(d, topLevel).errors| > |d.errors|
  {
    StmtListIs(d, topLevel);
    SkipsNone(d);
    hide StmtList, Stmt, Resynced, Text, SkipSemicolons;
    var next := Resynced(d, Stmt(d), topLevel);
    assert Onward(next, StmtList(next, topLevel));
  }

  lemma {:induction false} ListWas(d: Draft, topLevel: bool)
    requires Quietly(d, StmtList(d, topLevel))
    ensures var r := StmtList(d, topLevel); d.kids <= r.kids && ListForm(Added(d, r), topLevel, r.rest)
    decreases |d.rest|, 14
  {
    hide StmtList, Stmt, Take, Text, ListForm, Statement;
    var r := StmtList(d, topLevel);
    if At(d, Semicolon) {
      TakeOnward(d);
      var next := Take(d);
      Recovery.ListSkips(d, topLevel);
      assert Onward(next, r);
      assert Quietly(next, r);
      ListWas(next, topLevel);
      SemicolonMore(d, next, r, topLevel);
    } else if d.rest == [] || (!topLevel && At(d, RBrace)) {
      StmtListIs(d, topLevel);
      SkipsNone(d);
      assert Added(d, r) == [];
      NoList(topLevel, r.rest);
    } else {
      ListQuiet(d, topLevel);
      var one := Stmt(d).d;
      var t := StmtWas(d);
      ListWas(one, topLevel);
      ListMore(d, one, r, t, topLevel);
    }
  }

  lemma NoList(topLevel: bool, rest: seq<Token>)
    requires rest == [] || (!topLevel && rest[0] == RBrace)
    ensures ListForm([], topLevel, rest)
  {
  }

  lemma SemicolonMore(d: Draft, next: Draft, r: Draft, topLevel: bool)
    requires next.kids == d.kids + [Leaf(Semicolon)] && next.kids <= r.kids
    requires ListForm(Added(next, r), topLevel, r.rest)
    ensures d.kids <= r.kids && ListForm(Added(d, r), topLevel, r.rest)
  {
    hide Statement;
    AddedSplit(d, next, r);
    assert Added(d, r)[0] == Leaf(Semicolon);
  }

  lemma ListMore(d: Draft, one: Draft, r: Draft, t: Tree, topLevel: bool)
    requires one.kids == d.kids + [t] && one.kids <= r.kids && Quietly(one, r) && Statement(t, one.rest)
    requires ListForm(Added(one, r), topLevel, r.rest)
    ensures d.kids <= r.kids && ListForm(Added(d, r), topLevel, r.rest)
  {
    hide Statement, Quietly, From;
    AddedSplit(d, one, r);
    Behind(one, r, |d.kids|);
    assert Added(d, r)[0] == t;
  }

  /** A file without reports is a program. */
  lemma ProgramWas(ts: seq<Token>)
    requires Parse(ts).errors == []
    ensures Program(Parse(ts).kids) && TokensOf(Parse(ts).kids) == ts
  {
    hide StmtList, ListForm;
    var d := Draft([], ts, []);
    NothingLost(ts);
    assert Onward(d, StmtList(d, true));
    ListWas(d, true);
    assert Added(d, Parse(ts)) == Parse(ts).kids;
  }

  /**
   A file is parsed without a report, as `kids`, exactly when `kids` is a program
   of the grammar whose tokens are those of the file.
   */
  lemma ParsesExactly(ts: seq<Token>, kids: seq<Tree>)
    ensures Parse(ts) == Draft(kids, [], []) <==> Program(kids) && TokensOf(kids) == ts
  {
    hide *;
    if Parse(ts) == Draft(kids, [], []) {
      ProgramWas(ts);
    }
    if Program(kids) && TokensOf(kids) == ts {
      ProgramParses(kids);
    }
  }

  /** A file is parsed without a report exactly when it is a program. */
  lemma AcceptsExactly(ts: seq<Token>)
    ensures Parse(ts).errors == [] <==> exists kids :: Program(kids) && TokensOf(kids) == ts
  {
    hide *;
    if Parse(ts).errors == [] {
      ProgramWas(ts);
    }
    forall kids | Program(kids) && TokensOf(kids) == ts
      ensures Parse(ts).errors == []
    {
      ProgramParses(kids);
    }
  }
}
