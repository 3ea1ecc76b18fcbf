/**
 The parser builds the one right tree: a token list parses without an error
 exactly to the tree that respects the binding powers and whose tokens are the
 longest such prefix.
 */
module PrattLaws {
  import opened Values
  import opened Pratt

  // ----- trees and their tokens -----

  function Yield(t: Tree): (ts: seq<Token>)
    decreases t, 0
  {
    match t
    case Atom(a) => [a]
    case Paren(e) => [LParen] + (Yield(e) + [RParen])
    case Vector(items) => [LBracket] + YieldItems(items, RBracket)
    case Unary(op, e) => [op] + Yield(e)
    case Infix(sym, l, r) => Yield(l) + ([Operator(sym)] + Yield(r))
    case Call(target, items) => Yield(target) + ([LParen] + YieldItems(items, RParen))
    case Index(target, e) => Yield(target) + ([LBracket] + (Yield(e) + [RBracket]))
    case Field(target, name) => Yield(target) + [Dot, name]
    case Method(target, name, items) => Yield(target) + ([Dot, name, LParen] + YieldItems(items, RParen))
  }

  /** The items with commas between them and `closer` at the end. */
  function YieldItems(items: seq<Tree>, closer: Token): (ts: seq<Token>)
    ensures ts != []
    decreases items, 1
  {
    if items == [] then [closer]
    else if |items| == 1 then Yield(items[0]) + [closer]
    else Yield(items[0]) + ([Comma] + YieldItems(items[1..], closer))
  }

  /** Trees that need no parentheses as the target of a call, index or field. */
  predicate IsPostfix(t: Tree) {
    !t.Unary? && !t.Infix?
  }

  /**
   Every operator has the operands its binding powers claim: a left operand
   whose own operator would not take this operator as part of its right
   operand, and a right operand whose operator binds at least as tightly as
   this one's right binding power. The call of a field is a method call.
   */
  predicate Fits(t: Tree)
    decreases t
  {
    match t
    case Atom(a) => IsAtom(a)
    case Paren(e) => Fits(e)
    case Vector(items) => forall i :: 0 <= i < |items| ==> Fits(items[i])
    case Unary(op, e) => IsPrefix(op) && Fits(e) && !e.Infix?
    case Infix(sym, l, r) =>
      Fits(l) && Fits(r) && (l.Infix? ==> Lbp(sym) < Rbp(l.sym)) && (r.Infix? ==> Rbp(sym) <= Lbp(r.sym))
    case Call(target, items) =>
      Fits(target) && IsPostfix(target) && !target.Field? && forall i :: 0 <= i < |items| ==> Fits(items[i])
    case Index(target, e) => Fits(target) && IsPostfix(target) && Fits(e)
    case Field(target, name) => Fits(target) && IsPostfix(target) && IsName(name)
    case Method(target, name, items) =>
      Fits(target) && IsPostfix(target) && IsName(name) && forall i :: 0 <= i < |items| ==> Fits(items[i])
  }

  /** The tree's operator, if any, binds at least as tightly as `min`. */
  predicate AtLeast(t: Tree, min: nat) {
    t.Infix? ==> min <= Lbp(t.sym)
  }

  /** No infix operator binding as tightly as `bound` comes next. */
  predicate Below(ts: seq<Token>, bound: nat) {
    ts != [] && ts[0].Operator? ==> Lbp(ts[0].sym) < bound
  }

  predicate NoPostfix(ts: seq<Token>) {
    ts != [] ==> !ts[0].LParen? && !ts[0].LBracket? && !ts[0].Dot?
  }

  /** What follows does not extend the tree to the right. */
  predicate Closed(t: Tree, rest: seq<Token>) {
    NoPostfix(rest) && (t.Infix? ==> Below(rest, Rbp(t.sym)))
  }

  // ----- arrow functions taken for granted -----

  /** The tree's last tokens are a name in parentheses. */
  predicate EndsInName(t: Tree) {
    match t
    case Paren(e) => e.Atom? && e.t.Ident?
    case Unary(_, e) => EndsInName(e)
    case Infix(_, _, r) => EndsInName(r)
    case _ => false
  }

  /** A name in parentheses before `=>` reads as an arrow function. */
  predicate Trapped(t: Tree, rest: seq<Token>) {
    EndsInName(t) && StartsWith(rest, FatArrow)
  }

  predicate BeginsExpr(t: Token) {
    IsAtom(t) || IsPrefix(t) || t == LParen || t == LBracket
  }

  /** How a tree's tokens begin. */
  lemma {:induction false} FirstTokens(t: Tree)
    requires Fits(t)
    ensures Yield(t) != [] && BeginsExpr(Yield(t)[0])
    ensures IsPostfix(t) ==> !IsPrefix(Yield(t)[0])
    ensures |Yield(t)| == 1 <==> t.Atom?
    ensures |Yield(t)| > 1 && Yield(t)[0].Ident? ==> Yield(t)[1] !in {Comma, RParen}
    decreases t
  {
    match t
    case Atom(_) =>
    case Paren(_) =>
    case Vector(items) =>
    case Unary(_, e) => FirstTokens(e);
    case Infix(_, l, r) => FirstTokens(l);
    case Call(target, _) => FirstTokens(target);
    case Index(target, _) => FirstTokens(target);
    case Field(target, _) => FirstTokens(target);
    case Method(target, _, _) => FirstTokens(target);
  }

  lemma ArrowAfter(e: Tree, rest: seq<Token>)
    requires Fits(e)
    ensures LooksLikeArrowFn(Yield(e) + [RParen] + rest) == Trapped(Paren(e), rest)
  {
    FirstTokens(e);
    var ts := Yield(e) + [RParen] + rest;
    if e.Atom? {
      assert ts[2..] == rest;
    }
    hide Yield;
  }

  lemma BeforeNothing<T>(r: Outcome<T>)
    ensures Before([], r) == r
  {
  }

  // ----- every fitting tree is what its tokens parse to -----

  lemma InfixStops(t: Tree, rest: seq<Token>, min: nat)
    requires Below(rest, min)
    ensures InfixLoop(t, rest, min) == Parsed(t, rest, [])
  {
  }

  lemma PostfixStops(t: Tree, rest: seq<Token>)
    requires NoPostfix(rest)
    ensures PostfixLoop(t, rest) == Parsed(t, rest, [])
  {
  }

  /** After the left operand, the operator and its right operand. */
  lemma InfixGoes(l: Tree, sym: Symbol, ts: seq<Token>, r: Tree, rest: seq<Token>, min: nat)
    requires min <= Lbp(sym) && ParseExpr(ts, Rbp(sym)) == Parsed(r, rest, [])
    ensures InfixLoop(l, [Operator(sym)] + ts, min) == InfixLoop(Infix(sym, l, r), rest, min)
  {
    assert ([Operator(sym)] + ts)[1..] == ts;
    BeforeNothing(InfixLoop(Infix(sym, l, r), rest, min));
    hide ParseExpr, Before;
  }

  lemma PrefixGoes(op: Token, ts: seq<Token>, e: Tree, rest: seq<Token>)
    requires IsPrefix(op) && ParseExpr(ts, PREFIX_POWER) == Parsed(e, rest, [])
    ensures ParsePrefix([op] + ts) == Parsed(Unary(op, e), rest, [])
  {
    assert ([op] + ts)[1..] == ts;
    hide ParseExpr;
  }

  lemma PrimaryGoes(ts: seq<Token>, t: Tree, rest: seq<Token>)
    requires ts != [] && !IsPrefix(ts[0]) && ParsePrimary(ts) == Parsed(t, rest, [])
    ensures ParsePrefix(ts) == PostfixLoop(t, rest)
  {
    BeforeNothing(PostfixLoop(t, rest));
    hide ParseExpr, ParsePrimary, PostfixLoop, Before;
  }

  lemma ExprGoes(ts: seq<Token>, min: nat, t: Tree, rest: seq<Token>)
    requires ParsePrefix(ts) == Parsed(t, rest, [])
    ensures ParseExpr(ts, min) == InfixLoop(t, rest, min)
  {
    BeforeNothing(InfixLoop(t, rest, min));
    hide ParsePrefix, InfixLoop, Before;
  }

  lemma {:induction false} Completes(t: Tree, rest: seq<Token>, min: nat)
    requires Fits(t) && AtLeast(t, min) && Closed(t, rest) && !Trapped(t, rest)
    ensures ParseExpr(Yield(t) + rest, min) == InfixLoop(t, rest, min)
    decreases t, 2
  {
    hide ParseExpr, ParsePrefix, InfixLoop, PostfixLoop;
    if t.Infix? {
      var after := Yield(t.r) + rest;
      assert Yield(t) + rest == Yield(t.l) + ([Operator(t.sym)] + after);
      Completes(t.l, [Operator(t.sym)] + after, min);
      Completes(t.r, rest, Rbp(t.sym));
      InfixStops(t.r, rest, Rbp(t.sym));
      InfixGoes(t.l, t.sym, after, t.r, rest, min);
    } else if t.Unary? {
      assert Yield(t) + rest == [t.t] + (Yield(t.e) + rest);
      Completes(t.e, rest, PREFIX_POWER);
      InfixStops(t.e, rest, PREFIX_POWER);
      PrefixGoes(t.t, Yield(t.e) + rest, t.e, rest);
      ExprGoes(Yield(t) + rest, min, t, rest);
    } else {
      PostfixCompletes(t, rest);
      PostfixStops(t, rest);
      ExprGoes(Yield(t) + rest, min, t, rest);
    }
  }

  lemma {:induction false} PostfixCompletes(t: Tree, rest: seq<Token>)
    requires Fits(t) && IsPostfix(t) && !Trapped(t, rest) && (t.Field? ==> !StartsWith(rest, LParen))
    ensures ParsePrefix(Yield(t) + rest) == PostfixLoop(t, rest)
    decreases t, 1
  {
    FirstTokens(t);
    match t
    case Atom(a) =>
      assert (Yield(t) + rest)[1..] == rest;
      PrimaryGoes(Yield(t) + rest, t, rest);
    case Paren(e) => ParenCompletes(t, rest);
    case Vector(items) => VectorCompletes(t, rest);
    case Call(target, items) =>
      assert Yield(t) + rest == Yield(target) + ([LParen] + (YieldItems(items, RParen) + rest));
      PostfixCompletes(target, [LParen] + (YieldItems(items, RParen) + rest));
      ItemsComplete(items, rest, RParen);
      CallGoes(target, items, YieldItems(items, RParen) + rest, rest);
    case Index(target, e) => IndexCompletes(t, rest);
    case Field(target, name) => FieldCompletes(t, rest);
    case Method(target, name, items) =>
      assert Yield(t) + rest == Yield(target) + ([Dot, name, LParen] + (YieldItems(items, RParen) + rest));
      PostfixCompletes(target, [Dot, name, LParen] + (YieldItems(items, RParen) + rest));
      ItemsComplete(items, rest, RParen);
      MethodGoes(target, name, items, YieldItems(items, RParen) + rest, rest);
  }

  lemma CallGoes(target: Tree, items: seq<Tree>, ts: seq<Token>, rest: seq<Token>)
    requires ParseItems(ts, RParen) == Parsed(items, rest, [])
    ensures PostfixLoop(target, [LParen] + ts) == PostfixLoop(Call(target, items), rest)
  {
    assert ([LParen] + ts)[1..] == ts;
    BeforeNothing(PostfixLoop(Call(target, items), rest));
    hide ParseItems, Before;
  }

  lemma MethodGoes(target: Tree, name: Token, items: seq<Tree>, ts: seq<Token>, rest: seq<Token>)
    requires ParseItems(ts, RParen) == Parsed(items, rest, []) && IsName(name)
    ensures PostfixLoop(target, [Dot, name, LParen] + ts) == PostfixLoop(Method(target, name, items), rest)
  {
    var all := [Dot, name, LParen] + ts;
    assert all[2..][0] == LParen && all[3..] == ts;
    BeforeNothing(PostfixLoop(Method(target, name, items), rest));
    hide ParseItems, Before;
  }

  lemma {:induction false} ParenCompletes(t: Tree, rest: seq<Token>)
    requires Fits(t) && t.Paren? && !Trapped(t, rest)
    ensures ParsePrefix(Yield(t) + rest) == PostfixLoop(t, rest)
    decreases t, 0
  {
    var inner := Yield(t.e) + ([RParen] + rest);
    assert Yield(t) + rest == [LParen] + inner && inner == Yield(t.e) + [RParen] + rest;
    ArrowAfter(t.e, rest);
    ItemParses(t.e, RParen, rest);
    assert ([LParen] + inner)[1..] == inner && ([RParen] + rest)[1..] == rest;
    assert ParsePrimary([LParen] + inner) == Parsed(t, rest, []) by {
      hide ParseExpr, LooksLikeArrowFn, Yield;
    }
    PrimaryGoes([LParen] + inner, t, rest);
  }

  lemma {:induction false} VectorCompletes(t: Tree, rest: seq<Token>)
    requires Fits(t) && t.Vector?
    ensures ParsePrefix(Yield(t) + rest) == PostfixLoop(t, rest)
    decreases t, 0
  {
    var inner := YieldItems(t.items, RBracket) + rest;
    assert Yield(t) + rest == [LBracket] + inner;
    ItemsComplete(t.items, rest, RBracket);
    assert ([LBracket] + inner)[1..] == inner;
    assert ParsePrimary([LBracket] + inner) == Parsed(t, rest, []) by {
      hide ParseItems, YieldItems;
    }
    PrimaryGoes([LBracket] + inner, t, rest);
  }

  lemma {:induction false} IndexCompletes(t: Tree, rest: seq<Token>)
    requires Fits(t) && t.Index?
    ensures ParsePrefix(Yield(t) + rest) == PostfixLoop(t, rest)
    decreases t, 0
  {
    var inner := Yield(t.e) + ([RBracket] + rest);
    assert Yield(t) + rest == Yield(t.target) + ([LBracket] + inner);
    PostfixCompletes(t.target, [LBracket] + inner);
    ItemParses(t.e, RBracket, rest);
    assert ([LBracket] + inner)[1..] == inner && ([RBracket] + rest)[1..] == rest;
    BeforeNothing(PostfixLoop(t, rest));
    hide ParseExpr, Before, Yield;
  }

  lemma {:induction false} FieldCompletes(t: Tree, rest: seq<Token>)
    requires Fits(t) && t.Field? && !StartsWith(rest, LParen)
    ensures ParsePrefix(Yield(t) + rest) == PostfixLoop(t, rest)
    decreases t, 0
  {
    var after := [Dot, t.name] + rest;
    assert Yield(t) + rest == Yield(t.target) + after && after[2..] == rest;
    PostfixCompletes(t.target, after);
    hide Yield, ParsePrefix;
  }

  /** A list of items parses to those items. */
  lemma {:induction false} ItemsComplete(items: seq<Tree>, rest: seq<Token>, closer: Token)
    requires closer in {RParen, RBracket} && forall i :: 0 <= i < |items| ==> Fits(items[i])
    ensures ParseItems(YieldItems(items, closer) + rest, closer) == Parsed(items, rest, [])
    decreases items, 2
  {
    var ts := YieldItems(items, closer) + rest;
    if items == [] {
      assert ts[1..] == rest;
    } else {
      FirstTokens(items[0]);
      ItemsLoopCompletes([], items, rest, closer);
      assert [] + items == items;
      hide ItemsLoop;
    }
  }

  lemma {:induction false} ItemsLoopCompletes(done: seq<Tree>, items: seq<Tree>, rest: seq<Token>, closer: Token)
    requires items != [] && closer in {RParen, RBracket} && forall i :: 0 <= i < |items| ==> Fits(items[i])
    ensures ItemsLoop(done, YieldItems(items, closer) + rest, closer) == Parsed(done + items, rest, [])
    decreases items, 1
  {
    hide *;
    ItemsLayout(items, rest, closer);
    var first, tail := items[0], items[1..];
    if |items| == 1 {
      ItemParses(first, closer, rest);
      LastItem(done, first, Yield(first) + ([closer] + rest), closer, rest);
      assert items == [first];
    } else {
      var more := YieldItems(tail, closer) + rest;
      ItemParses(first, Comma, more);
      NextItem(done, first, Yield(first) + ([Comma] + more), more, closer);
      ItemsLoopCompletes(done + [first], tail, rest, closer);
      assert items == [first] + tail;
      Regroup(done, first, tail);
    }
  }

  lemma Regroup(done: seq<Tree>, first: Tree, tail: seq<Tree>)
    ensures done + [first] + tail == done + ([first] + tail)
  {
  }

  /** An expression parses up to the comma or closer after it. */
  lemma {:induction false} ItemParses(t: Tree, next: Token, rest: seq<Token>)
    requires Fits(t) && next in {Comma, RParen, RBracket}
    ensures ParseExpr(Yield(t) + ([next] + rest), 0) == Parsed(t, [next] + rest, [])
    decreases t, 3
  {
    hide ParseExpr, InfixLoop, Yield, Fits;
    Completes(t, [next] + rest, 0);
    InfixStops(t, [next] + rest, 0);
  }

  /** The tokens of a list of items begin with those of the first. */
  lemma ItemsLayout(items: seq<Tree>, rest: seq<Token>, closer: Token)
    requires items != []
    ensures YieldItems(items, closer) + rest ==
              Yield(items[0])
              + (if |items| == 1 then [closer] + rest else [Comma] + (YieldItems(items[1..], closer) + rest))
  {
    hide Yield;
  }

  lemma LastItem(done: seq<Tree>, t: Tree, ts: seq<Token>, closer: Token, rest: seq<Token>)
    requires ParseExpr(ts, 0) == Parsed(t, [closer] + rest, []) && closer != Comma
    ensures ItemsLoop(done, ts, closer) == Parsed(done + [t], rest, [])
  {
    assert ([closer] + rest)[1..] == rest;
    hide ParseExpr;
  }

  lemma NextItem(done: seq<Tree>, t: Tree, ts: seq<Token>, rest: seq<Token>, closer: Token)
    requires ParseExpr(ts, 0) == Parsed(t, [Comma] + rest, [])
    ensures ItemsLoop(done, ts, closer) == ItemsLoop(done + [t], rest, closer)
  {
    hide ItemsLoop, ParseExpr, Before, Expect;
    assert ([Comma] + rest)[1..] == rest;
    BeforeNothing(ItemsLoop(done + [t], rest, closer));
    ItemsLoopStep(done, ts, closer);
  }

  lemma ItemsLoopStep(done: seq<Tree>, ts: seq<Token>, closer: Token)
    ensures var r := ParseExpr(ts, 0);
            r.Parsed? && StartsWith(r.rest, Comma) ==>
              ItemsLoop(done, ts, closer) == Before(r.errors, ItemsLoop(done + [r.v], r.rest[1..], closer))
  {
    hide ParseExpr, Before, Expect;
  }
}
