/**
 Printing with as few parentheses as possible: parsing the printed tokens gives
 the tree back, and no other way of parenthesising needs fewer.
 */
module PrattPrinting {
  import opened Values
  import opened Pratt
  import opened PrattLaws
  import opened PrattSoundness

  /** Leaves, operators and names are tokens of the right kind; the shape is free. */
  predicate Sane(t: Tree)
    decreases t
  {
    match t
    case Atom(a) => IsAtom(a)
    case Paren(e) => Sane(e)
    case Vector(items) => forall i :: 0 <= i < |items| ==> Sane(items[i])
    case Unary(op, e) => IsPrefix(op) && Sane(e)
    case Infix(_, l, r) => Sane(l) && Sane(r)
    case Call(target, items) => Sane(target) && forall i :: 0 <= i < |items| ==> Sane(items[i])
    case Index(target, e) => Sane(target) && Sane(e)
    case Field(target, name) => Sane(target) && IsName(name)
    case Method(target, name, items) =>
      Sane(target) && IsName(name) && forall i :: 0 <= i < |items| ==> Sane(items[i])
  }

  /** The tree without its parentheses. */
  function Strip(t: Tree): (r: Tree)
    ensures !r.Paren?
    decreases t, 0
  {
    match t
    case Atom(_) => t
    case Paren(e) => Strip(e)
    case Vector(items) => Vector(StripAll(items))
    case Unary(op, e) => Unary(op, Strip(e))
    case Infix(sym, l, r) => Infix(sym, Strip(l), Strip(r))
    case Call(target, items) => Call(Strip(target), StripAll(items))
    case Index(target, e) => Index(Strip(target), Strip(e))
    case Field(target, name) => Field(Strip(target), name)
    case Method(target, name, items) => Method(Strip(target), name, StripAll(items))
  }

  function StripAll(items: seq<Tree>): seq<Tree>
    decreases items, 1
  {
    if items == [] then [] else [Strip(items[0])] + StripAll(items[1..])
  }

  function Wrap(needed: bool, t: Tree): Tree {
    if needed then Paren(t) else t
  }

  function Target(t: Tree): Tree {
    Wrap(!IsPostfix(t), t)
  }

  /** Parentheses only where the bare operand would be taken apart. */
  function Minimal(t: Tree): (r: Tree)
    ensures !r.Paren?
    decreases t, 0
  {
    match t
    case Atom(_) => t
    case Paren(e) => Minimal(e)
    case Vector(items) => Vector(MinimalAll(items))
    case Unary(op, e) =>
      var e1 := Minimal(e);
      Unary(op, Wrap(e1.Infix?, e1))
    case Infix(sym, l, r) =>
      var l1, r1 := Minimal(l), Minimal(r);
      Infix(sym, Wrap(l1.Infix? && Rbp(l1.sym) <= Lbp(sym), l1), Wrap(r1.Infix? && Lbp(r1.sym) < Rbp(sym), r1))
    case Call(target, items) =>
      var t1 := Minimal(target);
      Call(Wrap(!IsPostfix(t1) || t1.Field?, t1), MinimalAll(items))
    case Index(target, e) => Index(Target(Minimal(target)), Minimal(e))
    case Field(target, name) => Field(Target(Minimal(target)), name)
    case Method(target, name, items) => Method(Target(Minimal(target)), name, MinimalAll(items))
  }

  function MinimalAll(items: seq<Tree>): (r: seq<Tree>)
    ensures |r| == |items|
    decreases items, 1
  {
    if items == [] then [] else [Minimal(items[0])] + MinimalAll(items[1..])
  }

  /** How many pairs of parentheses the tree has. */
  function Parens(t: Tree): nat
    decreases t, 0
  {
    match t
    case Atom(_) => 0
    case Paren(e) => 1 + Parens(e)
    case Vector(items) => ParensAll(items)
    case Unary(_, e) => Parens(e)
    case Infix(_, l, r) => Parens(l) + Parens(r)
    case Call(target, items) => Parens(target) + ParensAll(items)
    case Index(target, e) => Parens(target) + Parens(e)
    case Field(target, _) => Parens(target)
    case Method(target, _, items) => Parens(target) + ParensAll(items)
  }

  function ParensAll(items: seq<Tree>): nat
    decreases items, 1
  {
    if items == [] then 0 else Parens(items[0]) + ParensAll(items[1..])
  }

  // ----- printing is parsed back -----

  lemma WrapFits(needed: bool, t: Tree)
    requires Fits(t)
    ensures var w := Wrap(needed, t);
            && Fits(w) && Strip(w) == Strip(t)
            && if needed then w.Paren? else w == t
  {
  }

  lemma {:induction false} MinimalFits(t: Tree)
    requires Sane(t)
    ensures Fits(Minimal(t)) && Strip(Minimal(t)) == Strip(t)
    decreases t, 1
  {
    match t
    case Atom(_) =>
    case Paren(e) => MinimalFits(e);
    case Vector(items) => MinimalAllFit(items);
    case Unary(_, e) =>
      MinimalFits(e);
      WrapFits(Minimal(e).Infix?, Minimal(e));
      hide Wrap;
    case Infix(_, _, _) => MinimalInfixFits(t);
    case Call(_, _) => MinimalCallFits(t);
    case Index(target, e) =>
      MinimalFits(target);
      MinimalFits(e);
      WrapFits(!IsPostfix(Minimal(target)), Minimal(target));
      hide Wrap;
    case Field(target, _) =>
      MinimalFits(target);
      WrapFits(!IsPostfix(Minimal(target)), Minimal(target));
      hide Wrap;
    case Method(_, _, _) => MinimalMethodFits(t);
  }

  lemma {:induction false} MinimalInfixFits(t: Tree)
    requires Sane(t) && t.Infix?
    ensures Fits(Minimal(t)) && Strip(Minimal(t)) == Strip(t)
    decreases t, 0
  {
    MinimalFits(t.l);
    MinimalFits(t.r);
    var l1, r1 := Minimal(t.l), Minimal(t.r);
    WrapFits(l1.Infix? && Rbp(l1.sym) <= Lbp(t.sym), l1);
    WrapFits(r1.Infix? && Lbp(r1.sym) < Rbp(t.sym), r1);
    hide Wrap, Lbp, Rbp;
  }

  lemma {:induction false} MinimalCallFits(t: Tree)
    requires Sane(t) && t.Call?
    ensures Fits(Minimal(t)) && Strip(Minimal(t)) == Strip(t)
    decreases t, 0
  {
    MinimalFits(t.target);
    MinimalAllFit(t.items);
    var t1 := Minimal(t.target);
    WrapFits(!IsPostfix(t1) || t1.Field?, t1);
    hide Wrap, StripAll, MinimalAll;
  }

  lemma {:induction false} MinimalMethodFits(t: Tree)
    requires Sane(t) && t.Method?
    ensures Fits(Minimal(t)) && Strip(Minimal(t)) == Strip(t)
    decreases t, 0
  {
    MinimalFits(t.target);
    MinimalAllFit(t.items);
    WrapFits(!IsPostfix(Minimal(t.target)), Minimal(t.target));
    hide Wrap, StripAll, MinimalAll;
  }

  lemma {:induction false} MinimalAllFit(items: seq<Tree>)
    requires forall i :: 0 <= i < |items| ==> Sane(items[i])
    ensures forall i :: 0 <= i < |items| ==> Fits(MinimalAll(items)[i])
    ensures StripAll(MinimalAll(items)) == StripAll(items)
    decreases items, 1
  {
    if items != [] {
      MinimalFits(items[0]);
      MinimalAllFit(items[1..]);
      assert MinimalAll(items)[1..] == MinimalAll(items[1..]);
      forall i | 0 <= i < |items|
        ensures Fits(MinimalAll(items)[i])
      {
        if i > 0 {
          assert MinimalAll(items)[i] == MinimalAll(items[1..])[i - 1];
        }
      }
    }
  }

  /** Printing an expression and parsing it back gives the expression, up to parentheses. */
  lemma PrintParse(t: Tree)
    requires Sane(t)
    ensures ParseExpr(Yield(Minimal(t)), 0) == Parsed(Minimal(t), [], [])
    ensures Strip(Minimal(t)) == Strip(t)
  {
    MinimalFits(t);
    hide Yield, Fits, ParseExpr, Minimal, Strip;
    var m := Minimal(t);
    assert Yield(m) + [] == Yield(m);
    ParsesExactly(Yield(m), 0, m, []);
  }

  // ----- no parenthesis is superfluous -----

  /** Any fitting tree for the same expression has at least as many parentheses. */
  lemma {:induction false} MinimalIsLeast(u: Tree, t: Tree)
    requires Fits(u) && Strip(u) == Strip(t)
    ensures Parens(Minimal(t)) <= Parens(u)
  {
    LeastFor(u);
    SameMinimal(u, t);
  }

  /** The minimal form depends on the expression, not on the parentheses it came with. */
  lemma {:induction false} SameMinimal(u: Tree, t: Tree)
    requires Strip(u) == Strip(t)
    ensures Minimal(u) == Minimal(t)
  {
    MinimalOfStrip(u);
    MinimalOfStrip(t);
  }

  lemma {:induction false} MinimalOfStrip(t: Tree)
    ensures Minimal(Strip(t)) == Minimal(t)
    decreases t, 0
  {
    match t
    case Atom(_) =>
    case Paren(e) => MinimalOfStrip(e);
    case Vector(items) => MinimalOfStripAll(items);
    case Unary(_, e) => MinimalOfStrip(e);
    case Infix(_, l, r) =>
      MinimalOfStrip(l);
      MinimalOfStrip(r);
    case Call(target, items) =>
      MinimalOfStrip(target);
      MinimalOfStripAll(items);
    case Index(target, e) =>
      MinimalOfStrip(target);
      MinimalOfStrip(e);
    case Field(target, _) => MinimalOfStrip(target);
    case Method(target, _, items) =>
      MinimalOfStrip(target);
      MinimalOfStripAll(items);
  }

  lemma {:induction false} MinimalOfStripAll(items: seq<Tree>)
    ensures MinimalAll(StripAll(items)) == MinimalAll(items)
    decreases items, 1
  {
    if items != [] {
      MinimalOfStrip(items[0]);
      MinimalOfStripAll(items[1..]);
      assert StripAll(items)[1..] == StripAll(items[1..]);
    }
  }

  /** A fitting tree and its minimal form: the same operator at the root unless the tree is in parentheses. */
  lemma {:induction false} SameRoot(u: Tree)
    requires !u.Paren?
    ensures u.Infix? == Minimal(u).Infix? && (u.Infix? ==> u.sym == Minimal(u).sym)
    ensures u.Unary? == Minimal(u).Unary? && u.Field? == Minimal(u).Field?
  {
    hide Wrap, Target, MinimalAll;
  }

  lemma {:induction false} LeastFor(u: Tree)
    requires Fits(u)
    ensures Parens(Minimal(u)) <= Parens(u)
    ensures u.Paren? ==> Parens(Minimal(u)) < Parens(u)
    decreases u, 0
  {
    match u
    case Atom(_) =>
    case Paren(e) => LeastFor(e);
    case Vector(items) => LeastForAll(items);
    case Unary(_, e) => LeastOperand(e);
    case Infix(_, l, r) =>
      LeastOperand(l);
      LeastOperand(r);
    case Call(target, items) =>
      LeastOperand(target);
      LeastForAll(items);
    case Index(target, e) =>
      LeastOperand(target);
      LeastFor(e);
    case Field(target, _) => LeastOperand(target);
    case Method(target, _, items) =>
      LeastOperand(target);
      LeastForAll(items);
  }

  lemma {:induction false} LeastOperand(u: Tree)
    requires Fits(u)
    ensures Parens(Minimal(u)) <= Parens(u)
    ensures u.Paren? ==> Parens(Minimal(u)) < Parens(u)
    ensures !u.Paren? ==>
              u.Infix? == Minimal(u).Infix? && u.Unary? == Minimal(u).Unary? && u.Field? == Minimal(u).Field?
    ensures !u.Paren? && u.Infix? ==> u.sym == Minimal(u).sym
    decreases u, 1
  {
    LeastFor(u);
    if !u.Paren? {
      SameRoot(u);
    }
  }

  lemma {:induction false} LeastForAll(items: seq<Tree>)
    requires forall i :: 0 <= i < |items| ==> Fits(items[i])
    ensures ParensAll(MinimalAll(items)) <= ParensAll(items)
    decreases items, 1
  {
    if items != [] {
      LeastFor(items[0]);
      LeastForAll(items[1..]);
      assert MinimalAll(items)[1..] == MinimalAll(items[1..]);
    }
  }
}
