/**
 The operators in layers, from the tightest to the loosest, as a grammar that
 names them and knows no binding powers; and the proof that the parser's
 binding powers say the same.
 */
module PrecedenceGrammar {
  import opened Pratt
  import opened PrattLaws
  import opened PrattSoundness
  import GrammarLaws
  import Grammar
  import OperatorAgreement

  // ----- the grammar -----

  /** What stands without operators around it: leaves, brackets, and what is called, indexed or asked for a field. */
  predicate Postfix(t: Tree)
    decreases t, 0
  {
    match t
    case Atom(a) => a.Ident? || a.Literal? || a.Constant?
    case Paren(e) => Expression(e)
    case Vector(items) => forall i :: 0 <= i < |items| ==> Expression(items[i])
    case Call(target, items) =>
      Postfix(target) && !target.Field? && forall i :: 0 <= i < |items| ==> Expression(items[i])
    case Index(target, e) => Postfix(target) && Expression(e)
    case Field(target, name) => Postfix(target) && FieldName(name)
    case Method(target, name, items) =>
      Postfix(target) && FieldName(name) && forall i :: 0 <= i < |items| ==> Expression(items[i])
    case _ => false
  }

  predicate FieldName(t: Token) {
    match t
    case Ident(_) | Constant(_) | Word(_) | NotWord | LetWord => true
    case Operator(sym) => sym.OrWord? || sym.AndWord?
    case _ => false
  }

  /** `-e` and `not e`, any number of times. */
  predicate Prefixed(t: Tree)
    decreases t, 1
  {
    Postfix(t) || (t.Unary? && t.t in {Operator(Minus), NotWord} && Prefixed(t.e))
  }

  /** `a * b / c % d`: products of operands, to the left. */
  predicate Product(t: Tree)
    decreases t, 2
  {
    Prefixed(t) || (t.Infix? && t.sym in {Star, Slash, Percent} && Product(t.l) && Prefixed(t.r))
  }

  /** `a + b - c` */
  predicate Sum(t: Tree)
    decreases t, 3
  {
    Product(t) || (t.Infix? && t.sym in {Plus, Minus} && Sum(t.l) && Product(t.r))
  }

  /** `a == b < c` */
  predicate Comparison(t: Tree)
    decreases t, 4
  {
    Sum(t) || (t.Infix? && t.sym in {Eq, Neq, Lt, Gt, Lte, Gte} && Comparison(t.l) && Sum(t.r))
  }

  /** `a and b && c` */
  predicate Conjunction(t: Tree)
    decreases t, 5
  {
    Comparison(t) || (t.Infix? && t.sym in {AndWord, AndSign} && Conjunction(t.l) && Comparison(t.r))
  }

  /** `a or b || c` */
  predicate Disjunction(t: Tree)
    decreases t, 6
  {
    Conjunction(t) || (t.Infix? && t.sym in {OrWord, OrSign} && Disjunction(t.l) && Conjunction(t.r))
  }

  /** `actor ! message` and `actor ? request` */
  predicate Sending(t: Tree)
    decreases t, 7
  {
    Disjunction(t) || (t.Infix? && t.sym in {Bang, Question} && Sending(t.l) && Disjunction(t.r))
  }

  /** `a |> f |> g` */
  predicate Piped(t: Tree)
    decreases t, 8
  {
    Sending(t) || (t.Infix? && t.sym == Pipe && Piped(t.l) && Sending(t.r))
  }

  /** `a = b += c`, alone to the right. */
  predicate Expression(t: Tree)
    decreases t, 9
  {
    Piped(t) || (t.Infix? && (t.sym.Set? || t.sym.SetOp?) && Piped(t.l) && Expression(t.r))
  }

  // ----- the binding powers say the same -----

  /** A tree respects the binding powers, and its operator binds at least as tightly as `min`. */
  predicate FitsAt(t: Tree, min: nat) {
    Fits(t) && AtLeast(t, min)
  }

  /** The layers above the postfix ones, on trees with an operator at their root. */
  lemma {:induction false} InfixLayers(t: Tree)
    requires t.Infix?
    ensures !Postfix(t) && !Prefixed(t)
    ensures Product(t) <==> FitsAt(t, 13)
    ensures Sum(t) <==> FitsAt(t, 11)
    ensures Comparison(t) <==> FitsAt(t, 9)
    ensures Conjunction(t) <==> FitsAt(t, 7)
    ensures Disjunction(t) <==> FitsAt(t, 5)
    ensures Sending(t) <==> FitsAt(t, 3)
    ensures Piped(t) <==> FitsAt(t, 1)
    ensures Expression(t) <==> FitsAt(t, 0)
    decreases t, 1
  {
    hide Fits, Postfix;
    InfixFits(t);
    Layers(t.l);
    Layers(t.r);
  }

  lemma InfixFits(t: Tree)
    requires t.Infix?
    ensures !Postfix(t)
    ensures Fits(t) <==>
              && Fits(t.l) && Fits(t.r)
              && (t.l.Infix? ==> Lbp(t.sym) < Rbp(t.l.sym)) && (t.r.Infix? ==> Rbp(t.sym) <= Lbp(t.r.sym))
  {
    hide Lbp, Rbp;
  }

  /** Every layer is what fits at its binding power; the last is everything that fits. */
  lemma {:induction false} Layers(t: Tree)
    ensures Postfix(t) <==> Fits(t) && IsPostfix(t)
    ensures Prefixed(t) <==> Fits(t) && !t.Infix?
    ensures Product(t) <==> FitsAt(t, 13)
    ensures Sum(t) <==> FitsAt(t, 11)
    ensures Comparison(t) <==> FitsAt(t, 9)
    ensures Conjunction(t) <==> FitsAt(t, 7)
    ensures Disjunction(t) <==> FitsAt(t, 5)
    ensures Sending(t) <==> FitsAt(t, 3)
    ensures Piped(t) <==> FitsAt(t, 1)
    ensures Expression(t) <==> FitsAt(t, 0)
    decreases t, 2
  {
    if t.Infix? {
      InfixLayers(t);
    } else {
      OperandLayers(t);
    }
  }

  lemma {:induction false} OperandLayers(t: Tree)
    requires !t.Infix?
    ensures Postfix(t) <==> Fits(t) && IsPostfix(t)
    ensures Prefixed(t) <==> Fits(t)
    decreases t, 1
  {
    match t
    case Atom(_) =>
    case Paren(e) => Layers(e);
    case Vector(items) => ItemsLayers(items);
    case Unary(_, e) => Layers(e);
    case Call(target, items) => Layers(target); ItemsLayers(items);
    case Index(target, e) => Layers(target); Layers(e);
    case Field(target, _) => Layers(target);
    case Method(target, _, items) => Layers(target); ItemsLayers(items);
  }

  lemma {:induction false} ItemsLayers(items: seq<Tree>)
    ensures forall i :: 0 <= i < |items| ==> (Expression(items[i]) <==> Fits(items[i]))
    decreases items, 0
  {
    forall i | 0 <= i < |items|
      ensures Expression(items[i]) <==> Fits(items[i])
    {
      Layers(items[i]);
    }
  }

  /** A tree respects the binding powers if and only if the grammar derives it. */
  lemma FitsIffDerivable(t: Tree)
    ensures Fits(t) <==> Expression(t)
  {
    Layers(t);
  }

  // ----- what is parsed, by the grammar -----

  /** What follows does not go on with the expression. */
  predicate Ends(rest: seq<Token>) {
    rest == [] || !(rest[0].Operator? || rest[0].LParen? || rest[0].LBracket? || rest[0].Dot?)
  }

  /** `t` is derivable from the tokens of `ts` before `rest`, which does not go on with it. */
  predicate Derives(ts: seq<Token>, t: Tree, rest: seq<Token>) {
    Expression(t) && ts == Yield(t) + rest && Ends(rest)
  }

  lemma RightIsDerived(ts: seq<Token>, t: Tree, rest: seq<Token>)
    ensures Right(t, ts, rest, 0) <==> Derives(ts, t, rest)
  {
    FitsIffDerivable(t);
    hide Fits, Expression, Yield, Lbp, Rbp;
  }

  /**
   Parsing decided by the grammar: a token list parses, without an error, to `t`
   with `rest` left over exactly when the grammar derives `t` from the tokens
   before `rest`, `rest` does not go on with it, and it is not taken for the
   parameters of an arrow function.
   */
  lemma ParsesWhatIsDerived(ts: seq<Token>, t: Tree, rest: seq<Token>)
    ensures ParseExpr(ts, 0) == Parsed(t, rest, []) <==> Derives(ts, t, rest) && !Trapped(t, rest)
  {
    hide *;
    RightIsDerived(ts, t, rest);
    ParsesExactly(ts, 0, t, rest);
  }

  /** The grammar is unambiguous. */
  lemma DerivationUnique(a: Tree, b: Tree)
    requires Expression(a) && Expression(b) && Yield(a) == Yield(b)
    ensures a == b
  {
    hide *;
    FitsIffDerivable(a);
    FitsIffDerivable(b);
    FittingTreeUnique(a, b);
  }

  /** The whole parser accepts without an error exactly what the grammar derives, and yields that tree. */
  lemma AcceptsWhatIsDerived(ts: seq<Token>)
    ensures var s := Grammar.Expr(Grammar.Draft([], GrammarLaws.FullAll(ts), []), 0);
            && (s.Ok? && s.d.errors == [] <==> exists t, rest :: Derives(ts, t, rest) && !Trapped(t, rest))
            && forall t, rest :: Derives(ts, t, rest) && !Trapped(t, rest) ==>
                 s == Grammar.Ok(Grammar.Draft([GrammarLaws.Cst(t)], GrammarLaws.FullAll(rest), []))
  {
    hide *;
    forall t, rest
      ensures Right(t, ts, rest, 0) <==> Derives(ts, t, rest)
    {
      RightIsDerived(ts, t, rest);
    }
    OperatorAgreement.AcceptsExactly(ts, 0);
  }
}
