/**
 The parser object of `src/parser/mod.rs`: a cursor into the tokens and a list
 of recorded errors, advanced by loops, against the functions of `Grammar`.
 The cursor stands past the last token when the end of the file comes next.
 */
module SourceParser {
  import opened Values
  import G = Grammar
  import Pratt
  import opened GrammarUnfoldings
  import GrammarLaws

  /** A construct of its own, behind `kids`. */
  function Within(kids: seq<G.Tree>, kind: G.Kind, r: Result<seq<G.Tree>, G.Problem>): Result<seq<G.Tree>, G.Problem> {
    match r
    case Ok(parts) => Ok(kids + [G.Node(kind, parts)])
    case Err(why) => Err(why)
  }

  class Parser {
    const tokens: seq<G.Token>
    var idx: nat
    var errors: seq<G.Problem>

    ghost predicate Valid()
      reads `idx
    {
      idx <= |tokens|
    }

    ghost function Rest(): (ts: seq<G.Token>)
      requires Valid()
      reads `idx
      ensures |ts| == |tokens| - idx
    {
      tokens[idx..]
    }

    /** What was parsed so far of a construct, and where the parser stands. */
    ghost function Here(kids: seq<G.Tree>): (d: G.Draft)
      requires Valid()
      reads this
      ensures d.kids == kids && |d.rest| == |tokens| - idx
    {
      G.Draft(kids, Rest(), errors)
    }

    /** The parser stands where the outcome says, and returned what it says. */
    ghost predicate Came(o: G.Outcome, r: Result<seq<G.Tree>, G.Problem>)
      reads this
    {
      && Valid()
      && match o
         case Ok(d) => r.Ok? && Here(r.value) == d
         case Err(why, rest, errs) => r == Err(why) && Rest() == rest && errors == errs
    }

    constructor (ts: seq<G.Token>)
      ensures Valid() && tokens == ts && Rest() == ts && errors == []
    {
      tokens, idx, errors := ts, 0, [];
      new;
      assert tokens[0..] == ts;
    }

    // ----- the cursor -----

    function Peek(): (t: Option<G.Token>)
      requires Valid()
      reads this
      ensures t == if Rest() == [] then None else Some(Rest()[0])
    {
      if idx < |tokens| then Some(tokens[idx]) else None
    }

    /** The token at the cursor as a leaf. */
    method Take(kids: seq<G.Tree>) returns (more: seq<G.Tree>)
      requires Valid() && Rest() != []
      modifies `idx
      ensures Valid() && Here(more) == G.Take(old(Here(kids))) && idx == old(idx) + 1
    {
      more := kids + [G.Leaf(tokens[idx])];
      idx := idx + 1;
    }

    /** The token at the cursor if it is of the kind of `t`, or a record that it is missing. */
    method Need(kids: seq<G.Tree>, t: G.Token) returns (more: seq<G.Tree>)
      requires Valid()
      modifies this
      ensures Valid() && Here(more) == G.Need(old(Here(kids)), t) && idx >= old(idx)
    {
      hide G.Take;
      var here := Peek();
      if here.Some? && (here.value == t || (t.Key? && G.IsKeyword(here.value))) {
        more := Take(kids);
      } else {
        errors := errors + [G.Missing(t)];
        more := kids;
      }
    }

    method NeedKey(kids: seq<G.Tree>, k: G.Keyword) returns (more: seq<G.Tree>)
      requires Valid()
      modifies this
      ensures Valid() && Here(more) == G.NeedKey(old(Here(kids)), k) && idx >= old(idx)
    {
      hide G.Take;
      if Peek() == Some(G.Key(k)) {
        more := Take(kids);
      } else {
        errors := errors + [G.Missing(G.Key(k))];
        more := kids;
      }
    }

    method Name(kids: seq<G.Tree>) returns (r: Result<seq<G.Tree>, G.Problem>)
      requires Valid()
      modifies this
      ensures Came(G.Name(old(Here(kids))), r) && idx >= old(idx) && (r.Ok? ==> idx > old(idx))
    {
      hide G.Take;
      var here := Peek();
      if here.Some? && here.value.Ident? {
        var more := Take(kids);
        r := Ok(more);
      } else {
        r := Err(G.NoName);
      }
    }

    /** Look for `)` `=>` or `name, ..., name ) =>` without consuming anything. */
    method ArrowAhead() returns (arrow: bool)
      requires Valid()
      ensures arrow == G.LooksLikeArrowFn(Rest())
    {
      if idx < |tokens| && tokens[idx] == G.RParen {
        return idx + 1 < |tokens| && tokens[idx + 1] == G.FatArrow;
      }
      var i := idx;
      while true
        invariant idx <= i <= |tokens|
        invariant G.LooksLikeArrowFn(Rest()) == G.ParamsThenArrow(tokens[i..])
        decreases |tokens| - i
      {
        if i >= |tokens| || !tokens[i].Ident? {
          return false;
        }
        i := i + 1;
        if i >= |tokens| {
          return false;
        } else if tokens[i] == G.Comma {
          i := i + 1;
        } else if tokens[i] == G.RParen {
          break;
        } else {
          return false;
        }
      }
      arrow := i + 1 < |tokens| && tokens[i + 1] == G.FatArrow;
    }

    // ----- lists with commas -----

    /** Items separated by commas, and the closing token. */
    method Items(kids: seq<G.Tree>, kind: G.ItemKind, closer: G.Token) returns (r: Result<seq<G.Tree>, G.Problem>)
      requires Valid()
      modifies this
      ensures Came(G.Items(old(Here(kids)), kind, closer), r) && idx >= old(idx)
      decreases |tokens| - idx, 10
    {
      hide G.ItemsLoop, G.Take, G.Text, G.Onward, G.Follows;
      if Peek() == Some(closer) {
        var done := Take(kids);
        return Ok(done);
      }
      ghost var start := Here(kids);
      var items := kids;
      while true
        invariant Valid() && idx >= old(idx)
        invariant G.ItemsLoop(Here(items), kind, closer) == G.ItemsLoop(start, kind, closer)
        decreases |tokens| - idx
      {
        var last;
        r, last := NextItem(items, kind, closer);
        if last { return; }
        items := r.value;
      }
    }

    /** One more item and the comma behind it, or the end of the list. */
    method NextItem(kids: seq<G.Tree>, kind: G.ItemKind, closer: G.Token)
      returns (r: Result<seq<G.Tree>, G.Problem>, last: bool)
      requires Valid()
      modifies this
      ensures Valid() && idx >= old(idx)
      ensures last ==> Came(G.ItemsLoop(old(Here(kids)), kind, closer), r)
      ensures !last ==> r.Ok? && idx > old(idx)
      ensures !last ==> G.ItemsLoop(old(Here(kids)), kind, closer) == G.ItemsLoop(Here(r.value), kind, closer)
      decreases |tokens| - idx, 9
    {
      hide G.ItemsLoop, G.OneItem, G.Take, G.Need, G.Text, G.Onward, G.Follows, G.Consumes;
      ItemsLoopIs(Here(kids), kind, closer);
      last := true;
      if Peek() == Some(G.DotDot) && (kind.FieldPatterns? || kind.ElementPatterns?) {
        var rest := RestPattern(kids, kind, closer);
        return Ok(rest), true;
      }
      r := OneItem(kids, kind);
      if r.Err? { return; }
      var item := r.value;
      if Peek() == Some(G.Comma) {
        item := Take(item);
        last := false;
      } else {
        item := Need(item, closer);
      }
      r := Ok(item);
    }

    /** `..`, perhaps with a name, ends a list of patterns. */
    method RestPattern(kids: seq<G.Tree>, kind: G.ItemKind, closer: G.Token) returns (more: seq<G.Tree>)
      requires Valid() && Rest() != []
      modifies this
      ensures Valid() && idx >= old(idx)
      ensures var rest := G.Take(old(Here(kids)));
              Here(more) == G.Need(if kind.ElementPatterns? && G.AtName(rest) then G.Take(rest) else rest, closer)
    {
      hide G.Take, G.Need, G.Text, G.Onward;
      more := Take(kids);
      if kind.ElementPatterns? && Peek().Some? && Peek().value.Ident? {
        more := Take(more);
      }
      more := Need(more, closer);
    }

    method OneItem(kids: seq<G.Tree>, kind: G.ItemKind) returns (r: Result<seq<G.Tree>, G.Problem>)
      requires Valid()
      modifies this
      ensures Came(G.OneItem(old(Here(kids)), kind), r) && idx >= old(idx) && (r.Ok? ==> idx > old(idx))
      decreases |tokens| - idx, 8
    {
      hide G.Expr, G.TypeOf, G.Name, G.Items, G.Pattern, G.MaybeType, G.Need, G.Take, G.TokensOf;
      match kind
      case Exprs => r := Expr(kids, 0);
      case Types => r := TypeOf(kids);
      case Names => r := Name(kids);
      case Params =>
        r := Name(kids);
        if r.Ok? { r := MaybeType(r.value); }
      case FieldDecls =>
        r := Name(kids);
        if r.Ok? {
          var colon := Need(r.value, G.Colon);
          r := TypeOf(colon);
        }
      case Variants =>
        r := Name(kids);
        if r.Ok? && Peek() == Some(G.LParen) {
          var open := Take(r.value);
          r := Items(open, G.Types, G.RParen);
        }
      case FieldPatterns =>
        r := Name(kids);
        if r.Ok? && Peek() == Some(G.Colon) {
          var colon := Take(r.value);
          r := Pattern(colon);
        }
      case _ => r := Pattern(kids);
    }

    // ----- types -----

    method MaybeType(kids: seq<G.Tree>) returns (r: Result<seq<G.Tree>, G.Problem>)
      requires Valid()
      modifies this
      ensures Came(G.MaybeType(old(Here(kids))), r) && idx >= old(idx)
      decreases |tokens| - idx, 8
    {
      hide G.Take, G.Text, G.Onward, G.Follows, G.Consumes, G.TypeOf;
      r := Ok(kids);
      if Peek() == Some(G.Colon) {
        var colon := Take(kids);
        r := TypeOf(colon);
      }
    }

    method MaybeResult(kids: seq<G.Tree>) returns (r: Result<seq<G.Tree>, G.Problem>)
      requires Valid()
      modifies this
      ensures Came(G.MaybeResult(old(Here(kids))), r) && idx >= old(idx)
      decreases |tokens| - idx, 8
    {
      hide G.Take, G.Text, G.Onward, G.Follows, G.Consumes, G.TypeOf;
      r := Ok(kids);
      if Peek() == Some(G.Arrow) {
        var arrow := Take(kids);
        r := TypeOf(arrow);
      }
    }

    method TypeOf(kids: seq<G.Tree>) returns (r: Result<seq<G.Tree>, G.Problem>)
      requires Valid()
      modifies this
      ensures Came(G.TypeOf(old(Here(kids))), r) && idx >= old(idx)
      decreases |tokens| - idx, 7
    {
      hide G.Take, G.Text, G.Onward, G.Follows, G.Consumes, G.FunctionType, G.NamedType, G.UnionLoop;
      if Peek() == Some(G.Key(G.Fn)) {
        r := FunctionType([]);
        return Within(kids, G.FnType, r);
      }
      r := NamedType([]);
      if r.Err? { return; }
      if Peek() == Some(G.Bar) {
        r := UnionLoop(r.value);
        return Within(kids, G.TypeUnion, r);
      }
      r := Ok(kids + r.value);
    }

    method FunctionType(kids: seq<G.Tree>) returns (r: Result<seq<G.Tree>, G.Problem>)
      requires Valid() && Rest() != []
      modifies this
      ensures Came(G.FunctionType(old(Here(kids))), r) && idx >= old(idx)
      decreases |tokens| - idx, 6
    {
      hide G.Take, G.Text, G.Onward, G.Follows, G.Consumes, G.Items, G.TypeOf, G.Need;
      var fn := Take(kids);
      var open := Need(fn, G.LParen);
      r := Items(open, G.Types, G.RParen);
      if r.Ok? {
        var arrow := Need(r.value, G.Arrow);
        r := TypeOf(arrow);
      }
    }

    method NamedType(kids: seq<G.Tree>) returns (r: Result<seq<G.Tree>, G.Problem>)
      requires Valid()
      modifies this
      ensures Came(G.NamedType(old(Here(kids))), r) && idx >= old(idx)
      decreases |tokens| - idx, 6
    {
      hide G.Take, G.Text, G.Onward, G.Follows, G.Consumes, G.Name, G.TypeParams;
      r := Name([]);
      if r.Ok? {
        r := TypeParams(r.value, G.Types);
        r := Within(kids, G.TypeName, r);
      }
    }

    method TypeParams(kids: seq<G.Tree>, kind: G.ItemKind) returns (r: Result<seq<G.Tree>, G.Problem>)
      requires Valid()
      modifies this
      ensures Came(G.TypeParams(old(Here(kids)), kind), r) && idx >= old(idx)
      decreases |tokens| - idx, 11
    {
      hide G.Take, G.Text, G.Onward, G.Follows, G.Consumes, G.Items;
      r := Ok(kids);
      if Peek() == Some(G.Op(Pratt.Lt)) {
        var open := Take(kids);
        r := Items(open, kind, G.Op(Pratt.Gt));
      }
    }

    method UnionLoop(kids: seq<G.Tree>) returns (r: Result<seq<G.Tree>, G.Problem>)
      requires Valid()
      modifies this
      ensures Came(G.UnionLoop(old(Here(kids))), r) && idx >= old(idx)
      decreases |tokens| - idx, 0
    {
      hide G.Take, G.Text, G.Onward, G.Follows, G.Consumes, G.UnionLoop, G.NamedType;
      r := Ok(kids);
      while true
        invariant Valid() && idx >= old(idx) && r.Ok?
        invariant G.UnionLoop(Here(r.value)) == G.UnionLoop(old(Here(kids)))
        decreases |tokens| - idx
      {
        UnionLoopIs(Here(r.value));
        if Peek() != Some(G.Bar) { return; }
        var bar := Take(r.value);
        r := NamedType(bar);
        if r.Err? { return; }
      }
    }

    // ----- patterns -----

    method Pattern(kids: seq<G.Tree>) returns (r: Result<seq<G.Tree>, G.Problem>)
      requires Valid()
      modifies this
      ensures Came(G.Pattern(old(Here(kids))), r) && idx >= old(idx)
      decreases |tokens| - idx, 7
    {
      hide G.Take, G.Text, G.Onward, G.Follows, G.Consumes, G.AtomicPattern, G.PatternLoop;
      r := AtomicPattern([]);
      if r.Err? { return; }
      if Peek() == Some(G.Bar) {
        r := PatternLoop(r.value);
        return Within(kids, G.PatternOr, r);
      }
      r := Ok(kids + r.value);
    }

    method PatternLoop(kids: seq<G.Tree>) returns (r: Result<seq<G.Tree>, G.Problem>)
      requires Valid()
      modifies this
      ensures Came(G.PatternLoop(old(Here(kids))), r) && idx >= old(idx)
      decreases |tokens| - idx, 0
    {
      hide G.Take, G.Text, G.Onward, G.Follows, G.Consumes, G.PatternLoop, G.AtomicPattern;
      r := Ok(kids);
      while true
        invariant Valid() && idx >= old(idx) && r.Ok?
        invariant G.PatternLoop(Here(r.value)) == G.PatternLoop(old(Here(kids)))
        decreases |tokens| - idx
      {
        PatternLoopIs(Here(r.value));
        if Peek() != Some(G.Bar) { return; }
        var bar := Take(r.value);
        r := AtomicPattern(bar);
        if r.Err? { return; }
      }
    }

    method AtomicPattern(kids: seq<G.Tree>) returns (r: Result<seq<G.Tree>, G.Problem>)
      requires Valid()
      modifies this
      ensures Came(G.AtomicPattern(old(Here(kids))), r) && idx >= old(idx)
      decreases |tokens| - idx, 6
    {
      hide G.Take, G.Text, G.Onward, G.Follows, G.Consumes, G.UpperPattern, G.Items, G.IsLiteral;
      if idx >= |tokens| { return Err(G.UnexpectedInPattern); }
      var t := tokens[idx];
      if t.Underscore? || G.IsLiteral(t) || (t.Ident? && !t.upper) {
        var leaf := Take(kids);
        r := Ok(leaf);
      } else if t.Str? {
        var leaf := Take(kids);
        r := if t.sound then Ok(leaf) else Err(G.BadInterpolation);
      } else if t == G.Op(Pratt.Minus) && idx + 1 < |tokens| && tokens[idx + 1].Number? {
        var both := Take([]);
        both := Take(both);
        r := Ok(kids + [G.Node(G.PatternAtom, both)]);
      } else if t.Ident? {
        var name := Take([]);
        r := UpperPattern(name);
        r := Within(kids, G.PatternAtom, r);
      } else if t.LBracket? {
        var open := Take([]);
        r := Items(open, G.ElementPatterns, G.RBracket);
        r := Within(kids, G.PatternAtom, r);
      } else if t.LBrace? {
        var open := Take([]);
        r := Items(open, G.FieldPatterns, G.RBrace);
        r := Within(kids, G.PatternAtom, r);
      } else {
        r := Err(G.UnexpectedInPattern);
      }
    }

    /** What may follow an upper-case name: fields or arguments. */
    method UpperPattern(kids: seq<G.Tree>) returns (r: Result<seq<G.Tree>, G.Problem>)
      requires Valid()
      modifies this
      ensures Came(G.UpperPattern(old(Here(kids))), r) && idx >= old(idx)
      decreases |tokens| - idx, 11
    {
      hide G.Take, G.Text, G.Onward, G.Follows, G.Consumes, G.Items;
      r := Ok(kids);
      if Peek() == Some(G.LBrace) {
        var open := Take(kids);
        r := Items(open, G.FieldPatterns, G.RBrace);
      } else if Peek() == Some(G.LParen) {
        var open := Take(kids);
        r := Items(open, G.Patterns, G.RParen);
      }
    }

    // ----- expressions -----

    /** An expression of operators that bind at least as tightly as `min`. */
    method Expr(kids: seq<G.Tree>, min: nat) returns (r: Result<seq<G.Tree>, G.Problem>)
      requires Valid()
      modifies this
      ensures Came(G.Expr(old(Here(kids)), min), r) && idx >= old(idx)
      decreases |tokens| - idx, 7
    {
      hide G.Take, G.Text, G.Onward, G.Follows, G.Consumes, G.Prefix, G.InfixLoop;
      r := Prefix([]);
      if r.Err? { return; }
      r := InfixLoop(r.value, min);
      if r.Ok? {
        r := Ok(kids + r.value);
      }
    }

    /** The operators behind the left operand, which is `kids`. */
    method InfixLoop(kids: seq<G.Tree>, min: nat) returns (r: Result<seq<G.Tree>, G.Problem>)
      requires Valid()
      modifies this
      ensures Came(G.InfixLoop(old(Here(kids)), min), r) && idx >= old(idx)
      decreases |tokens| - idx, 0
    {
      hide G.Take, G.Text, G.Onward, G.Follows, G.Consumes, G.InfixLoop, G.Expr;
      var lhs := kids;
      while true
        invariant Valid() && idx >= old(idx)
        invariant G.InfixLoop(Here(lhs), min) == G.InfixLoop(old(Here(kids)), min)
        decreases |tokens| - idx
      {
        InfixLoopIs(Here(lhs), min);
        var here := Peek();
        if here.None? || !here.value.Op? || Pratt.Lbp(here.value.sym) < min { return Ok(lhs); }
        var both := Take(lhs);
        r := Expr(both, Pratt.Rbp(here.value.sym));
        if r.Err? { return; }
        lhs := [G.Node(G.Infix, r.value)];
      }
    }

    method Prefix(kids: seq<G.Tree>) returns (r: Result<seq<G.Tree>, G.Problem>)
      requires Valid()
      modifies this
      ensures Came(G.Prefix(old(Here(kids))), r) && idx >= old(idx)
      decreases |tokens| - idx, 6
    {
      hide G.Take, G.Text, G.Onward, G.Follows, G.Consumes, G.Expr, G.Primary, G.PostfixLoop;
      if Peek() == Some(G.Op(Pratt.Minus)) || Peek() == Some(G.Key(G.Not)) {
        var op := Take([]);
        r := Expr(op, Pratt.PREFIX_POWER);
        return Within(kids, G.Unary, r);
      }
      r := Primary([]);
      if r.Err? { return; }
      r := PostfixLoop(r.value);
      if r.Ok? {
        r := Ok(kids + r.value);
      }
    }

    /** Calls, indexes, fields and methods of what `kids` holds. */
    method PostfixLoop(kids: seq<G.Tree>) returns (r: Result<seq<G.Tree>, G.Problem>)
      requires Valid()
      modifies this
      ensures Came(G.PostfixLoop(old(Here(kids))), r) && idx >= old(idx)
      decreases |tokens| - idx, 2
    {
      hide G.PostfixLoop, G.Take, G.Text, G.Onward, G.Follows, G.Consumes;
      r := Ok(kids);
      while true
        invariant Valid() && idx >= old(idx) && r.Ok?
        invariant G.PostfixLoop(Here(r.value)) == G.PostfixLoop(old(Here(kids)))
        decreases |tokens| - idx
      {
        var last;
        r, last := NextPostfix(r.value);
        if last { return; }
      }
    }

    method NextPostfix(kids: seq<G.Tree>) returns (r: Result<seq<G.Tree>, G.Problem>, last: bool)
      requires Valid()
      modifies this
      ensures Valid() && idx >= old(idx)
      ensures last ==> Came(G.PostfixLoop(old(Here(kids))), r)
      ensures !last ==> r.Ok? && idx > old(idx) && G.PostfixLoop(old(Here(kids))) == G.PostfixLoop(Here(r.value))
      decreases |tokens| - idx, 1
    {
      hide G.PostfixLoop, G.Expr, G.Items, G.Need, G.Take, G.Text, G.Onward, G.Follows, G.Consumes;
      PostfixLoopIs(Here(kids));
      if Peek() == Some(G.LParen) {
        var open := Take(kids);
        r := Items(open, G.Exprs, G.RParen);
        if r.Err? { return r, true; }
        r := Ok([G.Node(G.Call, r.value)]);
      } else if Peek() == Some(G.LBracket) {
        var open := Take(kids);
        r := Expr(open, 0);
        if r.Err? { return r, true; }
        var closed := Need(r.value, G.RBracket);
        r := Ok([G.Node(G.Index, closed)]);
      } else if Peek() == Some(G.Dot) {
        r := Selection(kids);
        if r.Err? { return r, true; }
      } else {
        return Ok(kids), true;
      }
      last := false;
    }

    /** A field or a method call, behind the dot. */
    method Selection(kids: seq<G.Tree>) returns (r: Result<seq<G.Tree>, G.Problem>)
      requires Valid() && Peek() == Some(G.Dot)
      modifies this
      ensures Came(Selected(old(Here(kids))), r) && idx > old(idx)
      decreases |tokens| - idx, 0
    {
      hide G.Items, G.Take, G.Text, G.Onward, G.Follows, G.Consumes;
      var dot := Take(kids);
      var here := Peek();
      if here.None? || !(here.value.Ident? || G.IsKeyword(here.value)) {
        return Err(G.NoFieldName);
      }
      var name := Take(dot);
      if Peek() == Some(G.LParen) {
        var open := Take(name);
        r := Items(open, G.Exprs, G.RParen);
        if r.Ok? {
          r := Ok([G.Node(G.Method, r.value)]);
        }
      } else {
        r := Ok([G.Node(G.Field, name)]);
      }
    }

    method Primary(kids: seq<G.Tree>) returns (r: Result<seq<G.Tree>, G.Problem>)
      requires Valid()
      modifies this
      ensures Came(G.Primary(old(Here(kids))), r) && idx >= old(idx)
      decreases |tokens| - idx, 5
    {
      hide G.Take, G.Text, G.Onward, G.Follows, G.Consumes, G.Parenthesised, G.Items, G.Brace, G.KeywordExpr;
      hide G.LooksLikeArrowFn, G.IsLiteral;
      if idx >= |tokens| { return Err(G.Unexpected); }
      var t := tokens[idx];
      if G.IsLiteral(t) || t.Ident? {
        var leaf := Take(kids);
        r := Ok(leaf);
      } else if t.Str? {
        var leaf := Take(kids);
        r := if t.sound then Ok(leaf) else Err(G.BadInterpolation);
      } else if t.LParen? {
        var open := Take([]);
        assert Rest() == old(Rest())[1..];
        var arrow := ArrowAhead();
        if arrow { return Err(G.ArrowFunction); }
        r := Parenthesised(open);
        r := Within(kids, G.Paren, r);
      } else if t.LBracket? {
        var open := Take([]);
        r := Items(open, G.Exprs, G.RBracket);
        r := Within(kids, G.Vector, r);
      } else if t.HashBrace? {
        var open := Take([]);
        r := Items(open, G.Exprs, G.RBrace);
        r := Within(kids, G.Set, r);
      } else if t.LBrace? {
        r := Brace(kids);
      } else if t.Key? {
        r := KeywordExpr(kids, t.word);
      } else {
        r := Err(G.Unexpected);
      }
    }

    method Parenthesised(kids: seq<G.Tree>) returns (r: Result<seq<G.Tree>, G.Problem>)
      requires Valid()
      modifies this
      ensures Came(G.Parenthesised(old(Here(kids))), r) && idx >= old(idx)
      decreases |tokens| - idx, 8
    {
      hide G.Take, G.Text, G.Onward, G.Follows, G.Consumes, G.Expr, G.Need;
      r := Expr(kids, 0);
      if r.Ok? {
        var closed := Need(r.value, G.RParen);
        r := Ok(closed);
      }
    }

    method KeywordExpr(kids: seq<G.Tree>, word: G.Keyword) returns (r: Result<seq<G.Tree>, G.Problem>)
      requires Valid() && Peek() == Some(G.Key(word))
      modifies this
      ensures Came(G.KeywordExpr(old(Here(kids)), word), r) && idx >= old(idx)
      decreases |tokens| - idx, 4
    {
      hide G.Take, G.Text, G.Onward, G.Follows, G.Consumes, G.Expr, G.FunctionBody, G.ControlExpr;
      NoSuchExpr(Here(kids), word);
      if !StartsExpr(word) { return Err(G.Unexpected); }
      ghost var d := Here(kids);
      var s := Take([]);
      if word in {G.Raise, G.Reply, G.Await, G.Shared, G.Transact, G.Loop} {
        r := Expr(s, 0);
        r := Within(kids, G.Marked, r);
      } else if word in {G.Return, G.Break} && idx < |tokens| && tokens[idx] !in {G.Semicolon, G.RBrace, G.Comma} {
        r := Expr(s, 0);
        r := Within(kids, G.Jump, r);
      } else if word in {G.Return, G.Break, G.Yield, G.Retry, G.Continue} {
        r := Ok(kids + [G.Node(G.Jump, s)]);
      } else if word.Fn? {
        r := FunctionBody(s);
        r := Within(kids, G.LambdaExpr, r);
      } else {
        r := ControlExpr(kids, s, word, d);
      }
    }

    /** Expressions with several parts; the keyword was read. */
    method ControlExpr(kids: seq<G.Tree>, s: seq<G.Tree>, word: G.Keyword, ghost d: G.Draft)
      returns (r: Result<seq<G.Tree>, G.Problem>)
      requires Valid() && d.rest != [] && d.kids == kids && Here(s) == G.Take(G.Fresh(d))
      requires word in {G.If, G.Match, G.While, G.For, G.Try, G.Spawn}
      modifies this
      ensures Came(G.ControlExpr(d, old(Here(s)), word), r) && idx >= old(idx)
      decreases |tokens| - idx, 12
    {
      hide G.IfBody, G.MatchBody, G.TwoExprs, G.ForBody, G.TryBody, G.SpawnBody, G.Take, G.Text, G.Onward, G.Follows;
      hide G.Consumes;
      if word.If? {
        r := IfBody(s);
        r := Within(kids, G.IfExpr, r);
      } else if word.Match? {
        r := MatchBody(s);
        r := Within(kids, G.MatchExpr, r);
      } else if word.While? {
        r := TwoExprs(s);
        r := Within(kids, G.WhileExpr, r);
      } else if word.For? {
        r := ForBody(s);
        r := Within(kids, G.ForExpr, r);
      } else if word.Try? {
        r := TryBody(s);
        r := Within(kids, G.TryExpr, r);
      } else {
        r := SpawnBody(s);
        r := Within(kids, G.SpawnExpr, r);
      }
    }

    method TwoExprs(kids: seq<G.Tree>) returns (r: Result<seq<G.Tree>, G.Problem>)
      requires Valid()
      modifies this
      ensures Came(G.TwoExprs(old(Here(kids))), r) && idx >= old(idx)
      decreases |tokens| - idx, 8
    {
      hide G.Take, G.Text, G.Onward, G.Follows, G.Consumes, G.Expr;
      r := Expr(kids, 0);
      if r.Ok? { r := Expr(r.value, 0); }
    }

    method IfBody(kids: seq<G.Tree>) returns (r: Result<seq<G.Tree>, G.Problem>)
      requires Valid()
      modifies this
      ensures Came(G.IfBody(old(Here(kids))), r) && idx >= old(idx)
      decreases |tokens| - idx, 9
    {
      hide G.Take, G.Text, G.Onward, G.Follows, G.Consumes, G.TwoExprs, G.Expr, G.IfBody;
      IfBodyIs(Here(kids));
      r := TwoExprs(kids);
      if r.Err? || Peek() != Some(G.Key(G.Else)) { return; }
      var els := Take(r.value);
      if Peek() == Some(G.Key(G.If)) {
        var inner := Take([]);
        r := IfBody(inner);
        r := Within(els, G.IfExpr, r);
      } else {
        r := Expr(els, 0);
      }
    }

    method ForBody(kids: seq<G.Tree>) returns (r: Result<seq<G.Tree>, G.Problem>)
      requires Valid()
      modifies this
      ensures Came(G.ForBody(old(Here(kids))), r) && idx >= old(idx)
      decreases |tokens| - idx, 9
    {
      hide G.Take, G.Text, G.Onward, G.Follows, G.Consumes, G.Name, G.TwoExprs, G.NeedKey;
      r := Name(kids);
      if r.Ok? {
        var within := NeedKey(r.value, G.In);
        r := TwoExprs(within);
      }
    }

    method SpawnBody(kids: seq<G.Tree>) returns (r: Result<seq<G.Tree>, G.Problem>)
      requires Valid()
      modifies this
      ensures Came(G.SpawnBody(old(Here(kids))), r) && idx >= old(idx)
      decreases |tokens| - idx, 11
    {
      hide G.Take, G.Text, G.Onward, G.Follows, G.Consumes, G.Name, G.Items, G.Need;
      r := Name(kids);
      if r.Ok? {
        var open := Need(r.value, G.LParen);
        r := Items(open, G.Exprs, G.RParen);
      }
    }

    /** Parameters, result type and body of a function or a handler. */
    method FunctionBody(kids: seq<G.Tree>) returns (r: Result<seq<G.Tree>, G.Problem>)
      requires Valid()
      modifies this
      ensures Came(G.FunctionBody(old(Here(kids))), r) && idx >= old(idx)
      decreases |tokens| - idx, 11
    {
      hide G.Take, G.Text, G.Onward, G.Follows, G.Consumes, G.Items, G.MaybeResult, G.Expr, G.Need;
      var open := Need(kids, G.LParen);
      r := Items(open, G.Params, G.RParen);
      if r.Ok? { r := MaybeResult(r.value); }
      if r.Ok? { r := Expr(r.value, 0); }
    }

    method MatchBody(kids: seq<G.Tree>) returns (r: Result<seq<G.Tree>, G.Problem>)
      requires Valid()
      modifies this
      ensures Came(G.MatchBody(old(Here(kids))), r) && idx >= old(idx)
      decreases |tokens| - idx, 10
    {
      hide G.Take, G.Text, G.Onward, G.Follows, G.Consumes, G.Expr, G.ArmsLoop, G.Need;
      r := Expr(kids, 0);
      if r.Err? { return; }
      var open := Need(r.value, G.LBrace);
      r := ArmsLoop(open);
      if r.Ok? {
        var closed := Need(r.value, G.RBrace);
        r := Ok(closed);
      }
    }

    /** Arms up to the closing brace; an arm may do without its comma. */
    method ArmsLoop(kids: seq<G.Tree>) returns (r: Result<seq<G.Tree>, G.Problem>)
      requires Valid()
      modifies this
      ensures Came(G.ArmsLoop(old(Here(kids))), r) && idx >= old(idx)
      decreases |tokens| - idx, 9
    {
      hide G.Take, G.Text, G.Onward, G.Follows, G.Consumes, G.ArmsLoop, G.Arm, G.Join;
      var arms := kids;
      while Peek().Some? && Peek() != Some(G.RBrace)
        invariant Valid() && idx >= old(idx)
        invariant G.ArmsLoop(Here(arms)) == G.ArmsLoop(old(Here(kids)))
        decreases |tokens| - idx
      {
        ArmsLoopIs(Here(arms));
        r := Arm([]);
        if r.Err? { return; }
        arms := arms + [G.Node(G.ArmOf, r.value)];
        if Peek() == Some(G.Comma) {
          arms := Take(arms);
        }
      }
      ArmsLoopIs(Here(arms));
      r := Ok(arms);
    }

    method Arm(kids: seq<G.Tree>) returns (r: Result<seq<G.Tree>, G.Problem>)
      requires Valid()
      modifies this
      ensures Came(G.Arm(old(Here(kids))), r) && idx >= old(idx) && (r.Ok? ==> idx > old(idx))
      decreases |tokens| - idx, 8
    {
      hide G.Take, G.Text, G.Pattern, G.Expr, G.Need;
      r := Pattern(kids);
      if r.Err? { return; }
      if Peek() == Some(G.Key(G.If)) {
        var guarded := Take(r.value);
        r := Expr(guarded, 0);
        if r.Err? { return; }
      }
      var arrow := Need(r.value, G.FatArrow);
      r := Expr(arrow, 0);
    }

    method TryBody(kids: seq<G.Tree>) returns (r: Result<seq<G.Tree>, G.Problem>)
      requires Valid()
      modifies this
      ensures Came(G.TryBody(old(Here(kids))), r) && idx >= old(idx)
      decreases |tokens| - idx, 9
    {
      hide G.Take, G.Text, G.Onward, G.Follows, G.Consumes, G.Expr, G.RescueLoop;
      r := Expr(kids, 0);
      if r.Err? { return; }
      r := RescueLoop(r.value);
      if r.Ok? && Peek() == Some(G.Key(G.Ensure)) {
        var ensured := Take(r.value);
        r := Expr(ensured, 0);
      }
    }

    method RescueLoop(kids: seq<G.Tree>) returns (r: Result<seq<G.Tree>, G.Problem>)
      requires Valid()
      modifies this
      ensures Came(G.RescueLoop(old(Here(kids))), r) && idx >= old(idx)
      decreases |tokens| - idx, 0
    {
      hide G.Take, G.Text, G.Onward, G.Follows, G.Consumes, G.RescueLoop, G.RescueClause, G.Join;
      var rescues := kids;
      while Peek() == Some(G.Key(G.Rescue))
        invariant Valid() && idx >= old(idx)
        invariant G.RescueLoop(Here(rescues)) == G.RescueLoop(old(Here(kids)))
        decreases |tokens| - idx
      {
        RescueLoopIs(Here(rescues));
        var one := Take([]);
        r := RescueClause(one);
        if r.Err? { return; }
        rescues := rescues + [G.Node(G.RescueOf, r.value)];
      }
      RescueLoopIs(Here(rescues));
      r := Ok(rescues);
    }

    method RescueClause(kids: seq<G.Tree>) returns (r: Result<seq<G.Tree>, G.Problem>)
      requires Valid()
      modifies this
      ensures Came(G.RescueClause(old(Here(kids))), r) && idx >= old(idx)
      decreases |tokens| - idx, 8
    {
      hide G.Take, G.Text, G.Onward, G.Follows, G.Consumes, G.Name, G.Expr;
      var named := kids;
      if Peek().Some? && Peek().value.Ident? {
        named := Take(named);
      }
      if Peek() == Some(G.Key(G.As)) {
        named := Take(named);
        r := Name(named);
        if r.Err? { return; }
        named := r.value;
      }
      r := Expr(named, 0);
    }

    // ----- blocks and maps -----

    /** An empty map, a block that begins with a declaration, or what the first expression decides. */
    method Brace(kids: seq<G.Tree>) returns (r: Result<seq<G.Tree>, G.Problem>)
      requires Valid() && Peek() == Some(G.LBrace)
      modifies this
      ensures Came(G.Brace(old(Here(kids))), r) && idx >= old(idx)
      decreases |tokens| - idx, 4
    {
      hide G.Brace, BraceDecides, G.Take, G.Text, G.Onward, G.Follows, G.Consumes, G.Expr, G.BlockLoop, G.Need;
      hide G.StartsStmt;
      BraceIs(Here(kids));
      var s := Take([]);
      if Peek() == Some(G.RBrace) {
        var empty := Take(s);
        return Ok(kids + [G.Node(G.MapLit, empty)]);
      }
      if Peek().Some? && G.StartsStmt(Peek().value) {
        var inside := BlockLoop(s);
        var closed := Need(inside, G.RBrace);
        return Ok(kids + [G.Node(G.Block, closed)]);
      }
      r := Expr([], 0);
      if r.Ok? {
        r := BraceRest(kids, s, r.value);
      }
    }

    /** A map if a colon follows the first expression, and otherwise a block. */
    method BraceRest(kids: seq<G.Tree>, s: seq<G.Tree>, first: seq<G.Tree>) returns (r: Result<seq<G.Tree>, G.Problem>)
      requires Valid()
      modifies this
      ensures Came(BraceDecides(kids, s, old(Here(first))), r) && idx >= old(idx)
      decreases |tokens| - idx, 16
    {
      hide G.Take, G.Text, G.Onward, G.Follows, G.Consumes, G.MapBody, G.Need, FirstDecides;
      if Peek() == Some(G.Colon) {
        var colon := Take(s + first);
        r := MapBody(colon);
        r := Within(kids, G.MapLit, r);
      } else {
        var inside := AfterFirst(s, first);
        var closed := Need(inside, G.RBrace);
        r := Ok(kids + [G.Node(G.Block, closed)]);
      }
    }

    /** The rest of a block behind its first expression. */
    method AfterFirst(s: seq<G.Tree>, first: seq<G.Tree>) returns (inside: seq<G.Tree>)
      requires Valid()
      modifies this
      ensures Valid() && idx >= old(idx)
      ensures Here(inside) == FirstDecides(s, old(Here(first)))
      decreases |tokens| - idx, 15
    {
      hide G.BlockLoop, G.Take, G.Text, G.Onward, G.Follows, G.Consumes;
      if Peek() == Some(G.Semicolon) {
        var semi := Take(first);
        inside := BlockLoop(s + [G.Node(G.Semi, semi)]);
      } else if Peek() == Some(G.RBrace) {
        inside := s + first;
      } else {
        errors := errors + [G.NoSeparator];
        inside := s + first;
      }
    }

    method MapBody(kids: seq<G.Tree>) returns (r: Result<seq<G.Tree>, G.Problem>)
      requires Valid()
      modifies this
      ensures Came(G.MapBody(old(Here(kids))), r) && idx >= old(idx)
      decreases |tokens| - idx, 8
    {
      hide G.Take, G.Text, G.Onward, G.Follows, G.Consumes, G.Expr, G.MapLoop, G.Need;
      r := Expr(kids, 0);
      if r.Err? { return; }
      r := MapLoop(r.value);
      if r.Ok? {
        var closed := Need(r.value, G.RBrace);
        r := Ok(closed);
      }
    }

    method MapLoop(kids: seq<G.Tree>) returns (r: Result<seq<G.Tree>, G.Problem>)
      requires Valid()
      modifies this
      ensures Came(G.MapLoop(old(Here(kids))), r) && idx >= old(idx)
      decreases |tokens| - idx, 1
    {
      hide G.MapLoop, G.Take, G.Text, G.Onward, G.Follows, G.Consumes;
      r := Ok(kids);
      while true
        invariant Valid() && idx >= old(idx) && r.Ok?
        invariant G.MapLoop(Here(r.value)) == G.MapLoop(old(Here(kids)))
        decreases |tokens| - idx
      {
        var last;
        r, last := NextEntry(r.value);
        if last { return; }
      }
    }

    /** A comma and one more entry, or the end of the map. */
    method NextEntry(kids: seq<G.Tree>) returns (r: Result<seq<G.Tree>, G.Problem>, last: bool)
      requires Valid()
      modifies this
      ensures Valid() && idx >= old(idx)
      ensures last ==> Came(G.MapLoop(old(Here(kids))), r)
      ensures !last ==> r.Ok? && idx > old(idx) && G.MapLoop(old(Here(kids))) == G.MapLoop(Here(r.value))
      decreases |tokens| - idx, 0
    {
      hide G.MapLoop, G.Expr, G.Need, G.Take, G.Text, G.Onward, G.Follows, G.Consumes;
      MapLoopIs(Here(kids));
      if Peek() != Some(G.Comma) { return Ok(kids), true; }
      var comma := Take(kids);
      if Peek() == Some(G.RBrace) { return Ok(comma), true; }
      r := Expr(comma, 0);
      if r.Err? { return r, true; }
      var colon := Need(r.value, G.Colon);
      r := Expr(colon, 0);
      last := r.Err?;
    }

    /** Statements up to the closing brace or a tail; after an error, on from where the next statement may start. */
    method BlockLoop(kids: seq<G.Tree>) returns (more: seq<G.Tree>)
      requires Valid()
      modifies this
      ensures Valid() && idx >= old(idx) && Here(more) == G.BlockLoop(old(Here(kids)))
      decreases |tokens| - idx, 14
    {
      hide G.BlockLoop, G.Stmt, G.Resynced, G.Take, G.EndsBare, G.Text, G.Onward, G.Follows, G.Consumes;
      more := kids;
      while Peek().Some? && Peek() != Some(G.RBrace)
        invariant Valid() && idx >= old(idx)
        invariant G.BlockLoop(Here(more)) == G.BlockLoop(old(Here(kids)))
        decreases |tokens| - idx
      {
        BlockLoopIs(Here(more));
        var parsed;
        more, parsed := StmtOrResync(more, false);
        if parsed {
          if G.EndsBare(more) { return; }
          if Peek() == Some(G.Semicolon) {
            more := Take(more);
          }
        }
      }
      BlockLoopIs(Here(more));
    }

    /** A statement, or an error recorded and the tokens up to the next statement skipped. */
    method StmtOrResync(kids: seq<G.Tree>, topLevel: bool) returns (more: seq<G.Tree>, parsed: bool)
      requires Valid() && Rest() != [] && (topLevel || Rest()[0] != G.RBrace)
      modifies this
      ensures Valid() && idx > old(idx)
      ensures var r := G.Stmt(old(Here(kids)));
              && parsed == r.Ok?
              && Here(more) == if r.Ok? then r.d else G.Resynced(old(Here(kids)), r, topLevel)
      decreases |tokens| - idx, 13
    {
      hide G.Stmt, G.Resync, G.Text, G.StartsStmt;
      ghost var d := Here(kids);
      GrammarLaws.ListAdvances(d, topLevel);
      var r := Stmt(kids);
      if r.Ok? { return r.value, true; }
      errors := errors + [r.error];
      ResyncTo(topLevel);
      more, parsed := kids, false;
    }

    /** Skip to a place where a statement may start. */
    method ResyncTo(topLevel: bool)
      requires Valid()
      modifies `idx
      ensures Valid() && Rest() == G.Resync(old(Rest()), topLevel) && idx >= old(idx)
    {
      while true
        invariant Valid() && G.Resync(Rest(), topLevel) == G.Resync(old(Rest()), topLevel) && idx >= old(idx)
        decreases |tokens| - idx
      {
        var t := Peek();
        if t.None? || (t.value == G.RBrace && !topLevel) { return; }
        if t.value == G.Semicolon {
          idx := idx + 1;
          return;
        }
        if t.value != G.RBrace && G.StartsStmt(t.value) { return; }
        idx := idx + 1;
      }
    }

    // ----- statements -----

    method Stmt(kids: seq<G.Tree>) returns (r: Result<seq<G.Tree>, G.Problem>)
      requires Valid() && Rest() != []
      modifies this
      ensures Came(G.Stmt(old(Here(kids))), r) && idx >= old(idx) && (r.Ok? ==> idx > old(idx))
      decreases |tokens| - idx, 12
    {
      hide G.Take, G.Text, G.ExprStmt, G.Binding, G.NamedFunction, G.Definition;
      var word := tokens[idx];
      if !G.StartsStmt(word) || (word.word.Shared? && !SharedAhead()) || (word.word.Fn? && !NameAhead()) {
        r := ExprStmt(kids);
        return;
      }
      ghost var d := Here(kids);
      var s := Take([]);
      if word.word.Let? || word.word.State? || word.word.Shared? {
        r := Binding(s);
        r := Within(kids, G.LetStmt, r);
      } else if word.word.Fn? || word.word.On? {
        r := NamedFunction(s);
        r := Within(kids, if word.word.Fn? then G.FnStmt else G.OnStmt, r);
      } else {
        r := Definition(kids, s, word.word, d);
      }
    }

    /** `shared name =` or `shared name :` */
    function SharedAhead(): (b: bool)
      requires Valid()
      reads this
      ensures b == G.DeclaresShared(Rest())
    {
      idx + 2 < |tokens| && tokens[idx + 1].Ident? && (tokens[idx + 2] == G.Op(Pratt.Set) || tokens[idx + 2] == G.Colon)
    }

    function NameAhead(): (b: bool)
      requires Valid()
      reads this
    {
      idx + 1 < |tokens| && tokens[idx + 1].Ident?
    }

    /** Definitions and imports; the keyword was read. */
    method Definition(kids: seq<G.Tree>, s: seq<G.Tree>, word: G.Keyword, ghost d: G.Draft)
      returns (r: Result<seq<G.Tree>, G.Problem>)
      requires Valid() && d.rest != [] && d.kids == kids && Here(s) == G.Take(G.Fresh(d))
      modifies this
      ensures Came(G.Definition(d, old(Here(s)), word), r) && idx >= old(idx)
      decreases |tokens| - idx, 16
    {
      hide G.TypeDef, G.EnumDef, G.ActorDef, G.ImportPath, G.Need, G.Take, G.Text, G.Onward, G.Follows, G.Consumes;
      if word.Type? {
        r := TypeDef(s);
        r := Within(kids, G.TypeStmt, r);
      } else if word.Enum? {
        r := EnumDef(s);
        r := Within(kids, G.EnumStmt, r);
      } else if word.Actor? {
        r := ActorDef(s);
        r := Within(kids, G.ActorStmt, r);
      } else {
        var path := s;
        if word.Lazy? {
          path := Need(path, G.Key(G.Import));
        }
        r := ImportPath(path);
        r := Within(kids, G.ImportStmt, r);
      }
    }

    method ExprStmt(kids: seq<G.Tree>) returns (r: Result<seq<G.Tree>, G.Problem>)
      requires Valid() && Rest() != []
      modifies this
      ensures Came(G.ExprStmt(old(Here(kids))), r) && idx >= old(idx)
      decreases |tokens| - idx, 8
    {
      hide G.Take, G.Text, G.Onward, G.Follows, G.Consumes, G.Expr;
      r := Expr([], 0);
      if r.Err? { return; }
      if Peek() == Some(G.Semicolon) {
        var semi := Take(r.value);
        r := Ok(kids + [G.Node(G.Semi, semi)]);
      } else {
        r := Ok(kids + [G.Node(G.Bare, r.value)]);
      }
    }

    /** `name [: T] = value` */
    method Binding(kids: seq<G.Tree>) returns (r: Result<seq<G.Tree>, G.Problem>)
      requires Valid()
      modifies this
      ensures Came(G.Binding(old(Here(kids))), r) && idx >= old(idx)
      decreases |tokens| - idx, 9
    {
      hide G.Take, G.Text, G.Onward, G.Follows, G.Consumes, G.Name, G.MaybeType, G.Expr, G.Need;
      r := Name(kids);
      if r.Err? { return; }
      r := MaybeType(r.value);
      if r.Err? { return; }
      var assign := Need(r.value, G.Op(Pratt.Set));
      r := Expr(assign, 0);
    }

    method NamedFunction(kids: seq<G.Tree>) returns (r: Result<seq<G.Tree>, G.Problem>)
      requires Valid()
      modifies this
      ensures Came(G.NamedFunction(old(Here(kids))), r) && idx >= old(idx)
      decreases |tokens| - idx, 12
    {
      hide G.Take, G.Text, G.Onward, G.Follows, G.Consumes, G.Name, G.FunctionBody;
      r := Name(kids);
      if r.Ok? { r := FunctionBody(r.value); }
    }

    method TypeDef(kids: seq<G.Tree>) returns (r: Result<seq<G.Tree>, G.Problem>)
      requires Valid()
      modifies this
      ensures Came(G.TypeDef(old(Here(kids))), r) && idx >= old(idx)
      decreases |tokens| - idx, 12
    {
      hide G.Take, G.Text, G.Onward, G.Follows, G.Consumes, G.Name, G.TypeParams, G.Items, G.Need;
      r := Name(kids);
      if r.Err? { return; }
      r := TypeParams(r.value, G.Names);
      if r.Err? { return; }
      var open := Need(r.value, G.Op(Pratt.Set));
      open := Need(open, G.LBrace);
      r := Items(open, G.FieldDecls, G.RBrace);
    }

    method EnumDef(kids: seq<G.Tree>) returns (r: Result<seq<G.Tree>, G.Problem>)
      requires Valid()
      modifies this
      ensures Came(G.EnumDef(old(Here(kids))), r) && idx >= old(idx)
      decreases |tokens| - idx, 12
    {
      hide G.Take, G.Text, G.Onward, G.Follows, G.Consumes, G.Name, G.TypeParams, G.Items, G.Need;
      r := Name(kids);
      if r.Err? { return; }
      r := TypeParams(r.value, G.Names);
      if r.Err? { return; }
      var open := Need(r.value, G.LBrace);
      r := Items(open, G.Variants, G.RBrace);
    }

    method ActorDef(kids: seq<G.Tree>) returns (r: Result<seq<G.Tree>, G.Problem>)
      requires Valid()
      modifies this
      ensures Came(G.ActorDef(old(Here(kids))), r) && idx >= old(idx)
      decreases |tokens| - idx, 15
    {
      hide G.Take, G.Text, G.Onward, G.Follows, G.Consumes, G.Name, G.StmtList, G.Need;
      r := Name(kids);
      if r.Err? { return; }
      var open := Need(r.value, G.LBrace);
      var body := StmtList(open, false);
      body := Need(body, G.RBrace);
      r := Ok(body);
    }

    method ImportPath(kids: seq<G.Tree>) returns (r: Result<seq<G.Tree>, G.Problem>)
      requires Valid()
      modifies this
      ensures Came(G.ImportPath(old(Here(kids))), r) && idx >= old(idx)
      decreases |tokens| - idx, 8
    {
      hide G.Take, G.Text, G.Onward, G.Follows, G.Consumes, G.ImportPath, G.Name;
      ImportPathIs(Here(kids));
      r := Name(kids);
      while r.Ok? && Peek() == Some(G.Dot)
        invariant Valid() && idx >= old(idx)
        invariant r.Ok? ==> PathThen(Here(r.value)) == G.ImportPath(old(Here(kids)))
        invariant r.Err? ==> Came(G.ImportPath(old(Here(kids))), r)
        decreases |tokens| - idx, r.Ok?
      {
        var dot := Take(r.value);
        ImportPathIs(Here(dot));
        r := Name(dot);
      }
      if r.Ok? && Peek() == Some(G.Key(G.As)) {
        var alias := Take(r.value);
        r := Name(alias);
      }
    }

    /** Statements to the end of the file, or of the enclosing braces. */
    method StmtList(kids: seq<G.Tree>, topLevel: bool) returns (more: seq<G.Tree>)
      requires Valid()
      modifies this
      ensures Valid() && idx >= old(idx) && Here(more) == G.StmtList(old(Here(kids)), topLevel)
      ensures Rest() == [] || (!topLevel && Rest()[0] == G.RBrace)
      decreases |tokens| - idx, 14
    {
      hide G.StmtList, G.Stmt, G.SkipSemicolons, G.Resynced, G.Text, G.Onward, G.Follows, G.Consumes;
      ghost var end := G.StmtList(Here(kids), topLevel);
      more := kids;
      while true
        invariant Valid() && idx >= old(idx) && G.StmtList(Here(more), topLevel) == end
        decreases |tokens| - idx
      {
        StmtListIs(Here(more), topLevel);
        more := SkipSemicolons(more);
        if Peek().None? || (!topLevel && Peek() == Some(G.RBrace)) { return; }
        var parsed;
        more, parsed := StmtOrResync(more, topLevel);
      }
    }

    /** Empty statements. */
    method SkipSemicolons(kids: seq<G.Tree>) returns (more: seq<G.Tree>)
      requires Valid()
      modifies `idx
      ensures Valid() && idx >= old(idx) && Here(more) == G.SkipSemicolons(old(Here(kids)))
    {
      hide G.Take, G.Text, G.Onward;
      more := kids;
      while Peek() == Some(G.Semicolon)
        invariant Valid() && idx >= old(idx) && errors == old(errors)
        invariant G.SkipSemicolons(Here(more)) == G.SkipSemicolons(old(Here(kids)))
        decreases |tokens| - idx
      {
        more := Take(more);
      }
    }

    /** The whole file: all of it is read, whatever is wrong with it. */
    method Parse() returns (trees: seq<G.Tree>)
      requires Valid() && idx == 0 && errors == []
      modifies this
      ensures Valid() && Rest() == [] && Here(trees) == G.Parse(tokens)
    {
      hide G.StmtList;
      assert Rest() == tokens;
      trees := StmtList([], true);
    }
  }
}
