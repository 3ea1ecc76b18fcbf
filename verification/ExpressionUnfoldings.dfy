/**
 One unfolding of each parsing function, for proofs that need no more.
 */
module ExpressionUnfoldings {
  import opened Values
  import opened Pratt

  lemma BeforeNone<T>(r: Outcome<T>)
    ensures Before([], r) == r
  {
    assert [] + r.errors == r.errors;
  }

  /** One postfix operator, without those after it. */
  function Applied(lhs: Tree, ts: seq<Token>): (o: Outcome<Tree>)
    requires ts != [] && ts[0] in {LParen, LBracket, Dot}
    ensures |o.rest| < |ts|
  {
    if ts[0] == LParen then
      var r := ParseItems(ts[1..], RParen);
      if r.Failed? then Failed(r.why, r.rest, r.errors) else Parsed(Call(lhs, r.v), r.rest, r.errors)
    else if ts[0] == LBracket then
      var r := ParseExpr(ts[1..], 0);
      if r.Failed? then r
      else Expect(Index(lhs, r.v), RBracket, r.rest, r.errors)
    else if |ts| < 2 || !IsName(ts[1]) then Failed(NoFieldName, ts[1..], [])
    else if StartsWith(ts[2..], LParen) then
      var r := ParseItems(ts[3..], RParen);
      if r.Failed? then Failed(r.why, r.rest, r.errors) else Parsed(Method(lhs, ts[1], r.v), r.rest, r.errors)
    else Parsed(Field(lhs, ts[1]), ts[2..], [])
  }

  lemma AppliedUnfolds(lhs: Tree, ts: seq<Token>)
    requires ts != [] && ts[0] in {LParen, LBracket, Dot}
    ensures var o := Applied(lhs, ts);
            PostfixLoop(lhs, ts) == if o.Failed? then o else Before(o.errors, PostfixLoop(o.v, o.rest))
  {
    PostfixUnfolds(lhs, ts);
    if ts[0] == Dot && |ts| >= 2 {
      BeforeNone(PostfixLoop(Field(lhs, ts[1]), ts[2..]));
    }
    hide ParseExpr, ParseItems, Before, PostfixLoop;
  }

  lemma ItemsBegin(ts: seq<Token>, closer: Token)
    ensures ParseItems(ts, closer) ==
              if StartsWith(ts, closer) then Parsed([], ts[1..], []) else Before([], ItemsLoop([], ts, closer))
  {
    BeforeNone(ItemsLoop([], ts, closer));
    hide ItemsLoop, Before;
  }

  lemma ExprUnfolds(ts: seq<Token>, min: nat)
    ensures var r := ParsePrefix(ts);
            ParseExpr(ts, min) == if r.Failed? then r else Before(r.errors, InfixLoop(r.v, r.rest, min))
  {
    hide ParsePrefix, InfixLoop, Before;
  }

  lemma InfixUnfolds(lhs: Tree, ts: seq<Token>, min: nat)
    ensures if ts == [] || !ts[0].Operator? || Lbp(ts[0].sym) < min then
              InfixLoop(lhs, ts, min) == Parsed(lhs, ts, [])
            else
              var r := ParseExpr(ts[1..], Rbp(ts[0].sym));
              InfixLoop(lhs, ts, min) ==
                if r.Failed? then r else Before(r.errors, InfixLoop(Infix(ts[0].sym, lhs, r.v), r.rest, min))
  {
    hide ParseExpr, Before;
  }

  lemma PostfixUnfolds(lhs: Tree, ts: seq<Token>)
    ensures PostfixLoop(lhs, ts) ==
              if StartsWith(ts, LParen) then
                var r := ParseItems(ts[1..], RParen);
                if r.Failed? then Failed(r.why, r.rest, r.errors)
                else Before(r.errors, PostfixLoop(Call(lhs, r.v), r.rest))
              else if StartsWith(ts, LBracket) then
                var r := ParseExpr(ts[1..], 0);
                if r.Failed? then r
                else
                  var e := Expect(r.v, RBracket, r.rest, r.errors);
                  Before(e.errors, PostfixLoop(Index(lhs, r.v), e.rest))
              else if StartsWith(ts, Dot) then
                if |ts| < 2 || !IsName(ts[1]) then Failed(NoFieldName, ts[1..], [])
                else if StartsWith(ts[2..], LParen) then
                  var r := ParseItems(ts[3..], RParen);
                  if r.Failed? then Failed(r.why, r.rest, r.errors)
                  else Before(r.errors, PostfixLoop(Method(lhs, ts[1], r.v), r.rest))
                else PostfixLoop(Field(lhs, ts[1]), ts[2..])
              else Parsed(lhs, ts, [])
  {
    hide ParseExpr, ParseItems, Before;
  }

  lemma ItemsUnfolds(done: seq<Tree>, ts: seq<Token>, closer: Token)
    ensures ItemsLoop(done, ts, closer) ==
              var r := ParseExpr(ts, 0);
              if r.Failed? then Failed(r.why, r.rest, r.errors)
              else if StartsWith(r.rest, Comma) then Before(r.errors, ItemsLoop(done + [r.v], r.rest[1..], closer))
              else Expect(done + [r.v], closer, r.rest, r.errors)
  {
    hide ParseExpr, Before, Expect;
  }
}
