/**
 Transaction bodies are evaluated like all other code: on what they have in
 common, the evaluator for transactions and the tree-walker of the compiler
 theorem agree.
 */
module OneLanguage {
  import opened Values
  import opened ScopeChains
  import Tree = TreeWalker
  import opened Transactions
  import opened TransactionLaws

  // ----- the common language -----

  /** Expressions both evaluators know; no cell is written down as a literal. */
  predicate Common(e: Tree.Expr) {
    match e
    case Literal(v) => !v.Shared?
    case Ident(_) => true
    case Binary(_, lhs, rhs) => Common(lhs) && Common(rhs)
    case If(cond, thn, els) => Common(cond) && Common(thn) && (els.Some? ==> Common(els.value))
    case Block(stmts, tail) =>
      (forall k :: 0 <= k < |stmts| ==> Common(stmts[k].e)) && (tail.Some? ==> Common(tail.value))
    case Paren(e1) => Common(e1)
    case Assign(_, e1) => Common(e1)
    case Compound(op, _, e1) => Common(e1) && op !in {And, Or}
    case While(cond, body) => Common(cond) && Common(body)
    case _ => false
  }

  /** A compound assignment is an assignment of the operator applied to the variable. */
  function Embed(e: Tree.Expr): Expr
    requires Common(e)
    decreases e, 0
  {
    match e
    case Literal(v) => Atom(Const(v))
    case Ident(x) => Atom(Leaf.Ident(x))
    case Binary(op, lhs, rhs) => Binary(op, Embed(lhs), Embed(rhs))
    case If(cond, thn, els) => If(Embed(cond), Embed(thn), if els.None? then Atom(Const(Nil)) else Embed(els.value))
    case Block(stmts, tail) => Block(EmbedAll(stmts, if tail.None? then Atom(Const(Nil)) else Embed(tail.value)))
    case Paren(e1) => Embed(e1)
    case Assign(x, e1) => Act(Action.Assign(x), Embed(e1))
    case Compound(op, x, e1) => Act(Action.Assign(x), Binary(op, Atom(Leaf.Ident(x)), Embed(e1)))
    case While(cond, body) => While(Embed(cond), Embed(body))
  }

  /** Statements one after the other, and then the value. */
  function EmbedAll(stmts: seq<Tree.Stmt>, last: Expr): Expr
    requires forall k :: 0 <= k < |stmts| ==> Common(stmts[k].e)
    decreases stmts, 1
  {
    if stmts == [] then last else Seq(EmbedStmt(stmts[0]), EmbedAll(stmts[1..], last))
  }

  function EmbedStmt(s: Tree.Stmt): Expr
    requires Common(s.e)
    decreases s, 1
  {
    match s
    case Let(x, e) => Act(Action.Let(x), Embed(e))
    case ExprStmt(e) => Embed(e)
  }

  function EmbedOption(e: Option<Tree.Expr>): Expr
    requires e.Some? ==> Common(e.value)
  {
    if e.None? then Atom(Const(Nil)) else Embed(e.value)
  }

  // ----- one meaning -----

  /** No name is bound to a cell. */
  predicate Plain(env: Env) {
    forall k, x :: 0 <= k < |env| && x in env[k] ==> !env[k][x].Shared?
  }

  /** The tree-walker has an error of its own for assignments to unbound names. */
  function AsRaised(err: Error): Error {
    if err == UnboundAssign then NameError else err
  }

  /** The same value in the same scopes, and nothing else of the state touched; or the same error; or both go on. */
  predicate Agree(r: Tree.Evaluation, run: Run, s: State) {
    match r
    case Val(v, env) => env != [] && Plain(env) && !v.Shared? && run == Run(Done(v), s.(env := env))
    case Fail(err) => run.outcome == Failed(AsRaised(err))
    case OutOfFuel => run.outcome == Diverged
  }

  lemma {:induction false} GetPlain(env: Env, x: string)
    requires Plain(env)
    ensures Get(env, x).Some? ==> !Get(env, x).value.Shared?
  {
    if env != [] && x !in env[|env| - 1] {
      GetPlain(env[..|env| - 1], x);
    }
  }

  lemma {:induction false} UpdatePlain(env: Env, x: string, v: Value)
    requires Plain(env) && !v.Shared?
    ensures Update(env, x, v).Some? ==> Plain(Update(env, x, v).value)
    ensures Update(env, x, v).None? <==> Get(env, x).None?
  {
    if env != [] && x !in env[|env| - 1] {
      UpdatePlain(env[..|env| - 1], x, v);
    }
  }

  lemma OpPlain(op: BinOp, a: Value, b: Value)
    ensures ApplyBinOp(op, a, b).Ok? ==> !ApplyBinOp(op, a, b).value.Shared?
    ensures ApplyBinOp(op, a, b).Err? ==> ApplyBinOp(op, a, b).error != UnboundAssign
  {
  }

  lemma IdentAgrees(x: string, fuel: nat, s: State)
    requires Plain(s.env)
    ensures Agree(Tree.Eval(Tree.Ident(x), fuel, s.env), EvalLeaf(Leaf.Ident(x), s), s)
  {
    GetPlain(s.env, x);
    hide Get;
  }

  lemma AssignAgrees(x: string, v: Value, s: State, s1: State)
    requires Plain(s1.env) && !v.Shared? && s1 == s.(env := s1.env)
    ensures Agree(Tree.AssignResult(s1.env, x, v), Perform(Action.Assign(x), v, s1), s)
  {
    GetPlain(s1.env, x);
    UpdatePlain(s1.env, x, v);
    hide Get, Update;
  }

  lemma LetAgrees(x: string, v: Value, s: State, s1: State)
    requires Plain(s1.env) && !v.Shared? && s1 == s.(env := s1.env)
    ensures Agree(Tree.Val(Nil, Define(s1.env, x, v)), Perform(Action.Let(x), v, s1), s)
  {
  }

  lemma OperatorAgrees(op: BinOp, a: Value, b: Value, s: State, s1: State)
    requires Plain(s1.env) && s1 == s.(env := s1.env)
    ensures Agree(Tree.FromOp(ApplyBinOp(op, a, b), s1.env), Run(Combine(op, a, b), s1), s)
  {
    OpPlain(op, a, b);
    hide ApplyBinOp;
  }

  /** From a state with other scopes. */
  lemma AgreeFrom(r: Tree.Evaluation, run: Run, s: State, s1: State)
    requires Agree(r, run, s1) && s1 == s.(env := s1.env)
    ensures Agree(r, run, s)
  {
  }

  lemma AgreeMeans(r: Tree.Evaluation, run: Run, s: State)
    requires Agree(r, run, s)
    ensures r.Val? <==> run.outcome.Done?
    ensures r.Val? ==> run.outcome.v == r.v && run.state.env == r.env && run.state == s.(env := run.state.env)
    ensures r.Val? ==> Plain(run.state.env) && !r.v.Shared?
  {
  }

  /** One unfolding of the tree-walker. */
  lemma TreeUnfolds(e: Tree.Expr, fuel: nat, env: Chain)
    requires Common(e)
    ensures Tree.Eval(e, fuel, env) ==
              match e
              case Literal(v) => Tree.Val(v, env)
              case Ident(x) => Tree.Eval(e, fuel, env)
              case Binary(op, lhs, rhs) =>
                var r1 := Tree.Eval(lhs, fuel, env);
                if !r1.Val? || Tree.ShortCircuits(op, r1.v) then r1
                else
                  var r2 := Tree.Eval(rhs, fuel, r1.env);
                  if !r2.Val? || op in {And, Or} then r2
                  else Tree.FromOp(ApplyBinOp(op, r1.v, r2.v), r2.env)
              case If(cond, thn, els) =>
                var r := Tree.Eval(cond, fuel, env);
                if !r.Val? then r
                else if Truthy(r.v) then Tree.Eval(thn, fuel, r.env)
                else Tree.EvalOption(els, fuel, r.env)
              case Block(stmts, tail) => Tree.Eval(e, fuel, env)
              case Paren(e1) => Tree.Eval(e1, fuel, env)
              case Assign(x, e1) =>
                var r := Tree.Eval(e1, fuel, env);
                if r.Val? then Tree.AssignResult(r.env, x, r.v) else r
              case Compound(op, x, e1) =>
                (match Get(env, x)
                 case None => Tree.Fail(NameError)
                 case Some(cur) =>
                   var r := Tree.Eval(e1, fuel, env);
                   if !r.Val? then r
                   else
                     match ApplyBinOp(op, cur, r.v)
                     case Err(err) => Tree.Fail(err)
                     case Ok(v) => Tree.AssignResult(r.env, x, v))
              case While(cond, body) =>
                if fuel == 0 then Tree.OutOfFuel
                else
                  var r1 := Tree.Eval(cond, fuel - 1, env);
                  if !r1.Val? then r1
                  else if !Truthy(r1.v) then Tree.Val(Nil, r1.env)
                  else
                    var r2 := Tree.Eval(body, fuel - 1, r1.env);
                    if r2.Val? then Tree.Eval(e, fuel - 1, r2.env) else r2
  {
    hide Get, ApplyBinOp, Tree.AssignResult, Tree.FromOp, Tree.EvalOption, Truthy, Tree.ShortCircuits;
  }

  lemma EmbedIs(e: Tree.Expr)
    requires Common(e)
    ensures match e
            case Literal(v) => !v.Shared? && Embed(e) == Atom(Const(v))
            case Ident(x) => Embed(e) == Atom(Leaf.Ident(x))
            case Binary(op, lhs, rhs) =>
              Common(lhs) && Common(rhs) && Embed(e) == Binary(op, Embed(lhs), Embed(rhs))
            case If(cond, thn, els) =>
              && Common(cond) && Common(thn) && (els.Some? ==> Common(els.value))
              && Embed(e) == If(Embed(cond), Embed(thn), EmbedOption(els))
            case Block(stmts, tail) =>
              && (forall k :: 0 <= k < |stmts| ==> Common(stmts[k].e)) && (tail.Some? ==> Common(tail.value))
              && Embed(e) == Block(EmbedAll(stmts, EmbedOption(tail)))
            case Paren(e1) => Common(e1) && Embed(e) == Embed(e1)
            case Assign(x, e1) => Common(e1) && Embed(e) == Act(Action.Assign(x), Embed(e1))
            case Compound(op, x, e1) =>
              && Common(e1) && op !in {And, Or}
              && Embed(e) == Act(Action.Assign(x), Binary(op, Atom(Leaf.Ident(x)), Embed(e1)))
            case While(cond, body) =>
              Common(cond) && Common(body) && Embed(e) == While(Embed(cond), Embed(body))
            case _ => false
  {
    hide EmbedAll;
  }

  lemma SameShort(op: BinOp, v: Value)
    ensures Tree.ShortCircuits(op, v) == ShortCircuits(op, v)
  {
  }

  lemma NilAgrees(s: State, s1: State)
    requires Plain(s1.env) && s1 == s.(env := s1.env)
    ensures Agree(Tree.Val(Nil, s1.env), Run(Done(Nil), s1), s)
  {
  }

  /** On what they have in common, transaction bodies mean what all other code means. */
  lemma {:induction false} EvalAgrees(e: Tree.Expr, fuel: nat, s: State)
    requires Common(e) && Plain(s.env)
    ensures Agree(Tree.Eval(e, fuel, s.env), Eval(Embed(e), fuel, s), s)
    decreases fuel, e, 9
  {
    hide *;
    EmbedIs(e);
    TreeUnfolds(e, fuel, s.env);
    EvalUnfolds(Embed(e), fuel, s);
    match e
    case Literal(v) => LiteralAgrees(v, s);
    case Ident(x) => IdentAgrees(x, fuel, s);
    case Binary(op, lhs, rhs) => BinaryAgrees(e, fuel, s);
    case If(cond, thn, els) =>
      EvalAgrees(cond, fuel, s);
      var r, run := Tree.Eval(cond, fuel, s.env), Eval(Embed(cond), fuel, s);
      AgreeMeans(r, run, s);
      if r.Val? {
        if Truthy(r.v) {
          EvalAgrees(thn, fuel, run.state);
          AgreeFrom(Tree.Eval(thn, fuel, r.env), Eval(Embed(thn), fuel, run.state), s, run.state);
        } else {
          OptionAgrees(e, els, fuel, run.state);
          AgreeFrom(Tree.EvalOption(els, fuel, r.env), Eval(EmbedOption(els), fuel, run.state), s, run.state);
        }
      }
    case Block(stmts, tail) => BlockAgrees(e, fuel, s);
    case Paren(e1) => EvalAgrees(e1, fuel, s);
    case Assign(x, e1) =>
      EvalAgrees(e1, fuel, s);
      var r, run := Tree.Eval(e1, fuel, s.env), Eval(Embed(e1), fuel, s);
      AgreeMeans(r, run, s);
      if r.Val? {
        AssignAgrees(x, r.v, s, run.state);
      }
    case Compound(op, x, e1) => CompoundAgrees(e, fuel, s);
    case While(cond, body) => LoopAgrees(e, fuel, s);
  }

  lemma LiteralAgrees(v: Value, s: State)
    requires !v.Shared? && Plain(s.env)
    ensures Agree(Tree.Val(v, s.env), EvalLeaf(Const(v), s), s)
  {
  }

  /** The optional part of `parent`: nil if it is missing. */
  lemma {:induction false} OptionAgrees(parent: Tree.Expr, e: Option<Tree.Expr>, fuel: nat, s: State)
    requires (e.Some? ==> Common(e.value)) && Plain(s.env)
    requires (parent.If? && e == parent.els) || (parent.Block? && e == parent.tail)
    ensures Agree(Tree.EvalOption(e, fuel, s.env), Eval(EmbedOption(e), fuel, s), s)
    decreases fuel, parent, 0
  {
    if e.Some? {
      EvalAgrees(e.value, fuel, s);
    }
    hide Tree.Eval, Embed, Agree;
    if e.None? {
      EvalUnfolds(Atom(Const(Nil)), fuel, s);
      NilAgrees(s, s);
    }
  }

  lemma {:induction false} BinaryAgrees(e: Tree.Expr, fuel: nat, s: State)
    requires Common(e) && e.Binary? && Plain(s.env)
    ensures Agree(Tree.Eval(e, fuel, s.env), Eval(Embed(e), fuel, s), s)
    decreases fuel, e, 8
  {
    hide *;
    EmbedIs(e);
    TreeUnfolds(e, fuel, s.env);
    EvalUnfolds(Embed(e), fuel, s);
    EvalAgrees(e.lhs, fuel, s);
    var r1, run1 := Tree.Eval(e.lhs, fuel, s.env), Eval(Embed(e.lhs), fuel, s);
    AgreeMeans(r1, run1, s);
    if r1.Val? {
      SameShort(e.op, r1.v);
      if !ShortCircuits(e.op, r1.v) {
        EvalAgrees(e.rhs, fuel, run1.state);
        var r2, run2 := Tree.Eval(e.rhs, fuel, r1.env), Eval(Embed(e.rhs), fuel, run1.state);
        AgreeMeans(r2, run2, run1.state);
        AgreeFrom(r2, run2, s, run1.state);
        if r2.Val? && e.op !in {And, Or} {
          OperatorAgrees(e.op, r1.v, r2.v, s, run2.state);
        }
      }
    }
  }

  lemma {:induction false} LoopAgrees(e: Tree.Expr, fuel: nat, s: State)
    requires Common(e) && e.While? && Plain(s.env)
    ensures Agree(Tree.Eval(e, fuel, s.env), Eval(Embed(e), fuel, s), s)
    decreases fuel, e, 8
  {
    hide *;
    EmbedIs(e);
    TreeUnfolds(e, fuel, s.env);
    EvalUnfolds(Embed(e), fuel, s);
    if fuel == 0 {
      DivergesAlike(s);
    } else {
      EvalAgrees(e.cond, fuel - 1, s);
      var r1, run1 := Tree.Eval(e.cond, fuel - 1, s.env), Eval(Embed(e.cond), fuel - 1, s);
      AgreeMeans(r1, run1, s);
      if r1.Val? {
        NilAgrees(s, run1.state);
        if Truthy(r1.v) {
          EvalAgrees(e.body, fuel - 1, run1.state);
          var r2, run2 := Tree.Eval(e.body, fuel - 1, r1.env), Eval(Embed(e.body), fuel - 1, run1.state);
          AgreeMeans(r2, run2, run1.state);
          AgreeFrom(r2, run2, s, run1.state);
          NoJump(r2, run2, s);
          if r2.Val? {
            EvalAgrees(e, fuel - 1, run2.state);
            AgreeFrom(Tree.Eval(e, fuel - 1, r2.env), Eval(Embed(e), fuel - 1, run2.state), s, run2.state);
          }
        }
      }
    }
  }

  lemma DivergesAlike(s: State)
    ensures Agree(Tree.OutOfFuel, Run(Diverged, s), s)
  {
  }

  lemma NoJump(r: Tree.Evaluation, run: Run, s: State)
    requires Agree(r, run, s)
    ensures !run.outcome.Broke? && !run.outcome.Continued?
  {
  }

  lemma {:induction false} CompoundAgrees(e: Tree.Expr, fuel: nat, s: State)
    requires Common(e) && e.Compound? && Plain(s.env)
    ensures Agree(Tree.Eval(e, fuel, s.env), Eval(Embed(e), fuel, s), s)
    decreases fuel, e, 8
  {
    hide *;
    EmbedIs(e);
    TreeUnfolds(e, fuel, s.env);
    EvalUnfolds(Embed(e), fuel, s);
    var sum := Binary(e.op, Atom(Leaf.Ident(e.x)), Embed(e.e));
    EvalUnfolds(sum, fuel, s);
    EvalUnfolds(sum.lhs, fuel, s);
    IdentReads(e.x, s);
    if Get(s.env, e.x).Some? {
      var cur := Get(s.env, e.x).value;
      StrictOp(e.op, cur);
      EvalAgrees(e.e, fuel, s);
      var r, run := Tree.Eval(e.e, fuel, s.env), Eval(Embed(e.e), fuel, s);
      AgreeMeans(r, run, s);
      if r.Val? {
        CombineIs(e.op, cur, r.v);
        if ApplyBinOp(e.op, cur, r.v).Ok? {
          AssignAgrees(e.x, ApplyBinOp(e.op, cur, r.v).value, s, run.state);
        } else {
          FailsAlike(ApplyBinOp(e.op, cur, r.v).error, run.state, s);
        }
      }
    } else {
      FailsAlike(NameError, s, s);
    }
  }

  lemma IdentReads(x: string, s: State)
    requires Plain(s.env)
    ensures EvalLeaf(Leaf.Ident(x), s) ==
              match Get(s.env, x) case None => Run(Failed(NameError), s) case Some(v) => Run(Done(v), s)
  {
    GetPlain(s.env, x);
    hide Get;
  }

  lemma StrictOp(op: BinOp, v: Value)
    requires op !in {And, Or}
    ensures !ShortCircuits(op, v)
  {
  }

  lemma CombineIs(op: BinOp, a: Value, b: Value)
    ensures Combine(op, a, b) ==
              match ApplyBinOp(op, a, b) case Ok(v) => Done(v) case Err(err) => Failed(err)
    ensures ApplyBinOp(op, a, b).Ok? ==> !ApplyBinOp(op, a, b).value.Shared?
    ensures ApplyBinOp(op, a, b).Err? ==> ApplyBinOp(op, a, b).error != UnboundAssign
  {
    OpPlain(op, a, b);
    hide ApplyBinOp;
  }

  lemma FailsAlike(err: Error, s1: State, s: State)
    requires err != UnboundAssign
    ensures Agree(Tree.Fail(err), Run(Failed(err), s1), s)
  {
  }

  lemma {:induction false} BlockAgrees(e: Tree.Expr, fuel: nat, s: State)
    requires Common(e) && e.Block? && Plain(s.env)
    ensures Agree(Tree.Eval(e, fuel, s.env), Eval(Embed(e), fuel, s), s)
    decreases fuel, e, 8
  {
    hide *;
    EmbedIs(e);
    EvalUnfolds(Embed(e), fuel, s);
    TreeBlock(e, fuel, s.env);
    InnerPlain(s);
    assert e.stmts[0..] == e.stmts;
    StmtsAgree(e, 0, fuel, Enter(s, map[]));
    LeaveAgrees(ThenTail(Tree.EvalStmts(e.stmts, fuel, s.env + [map[]]), e.tail, fuel),
                Eval(EmbedAll(e.stmts, EmbedOption(e.tail)), fuel, Enter(s, map[])), s);
  }

  lemma InnerPlain(s: State)
    requires Plain(s.env)
    ensures Plain(Enter(s, map[]).env) && Enter(s, map[]).env == s.env + [map[]]
  {
  }

  function ThenTail(r: Tree.Evaluation, tail: Option<Tree.Expr>, fuel: nat): Tree.Evaluation
    requires r.Val? ==> r.env != []
  {
    if r.Val? then Tree.EvalOption(tail, fuel, r.env) else r
  }

  lemma TreeBlock(e: Tree.Expr, fuel: nat, env: Chain)
    requires e.Block?
    ensures var r := ThenTail(Tree.EvalStmts(e.stmts, fuel, env + [map[]]), e.tail, fuel);
            && (r.Val? ==> |r.env| == |env| + 1)
            && Tree.Eval(e, fuel, env) == if r.Val? then Tree.Val(r.v, r.env[..|env|]) else r
  {
    hide Tree.EvalStmts, Tree.EvalOption;
  }

  lemma LeaveAgrees(r: Tree.Evaluation, run: Run, s: State)
    requires Agree(r, run, Enter(s, map[])) && |run.state.env| > 1 && (r.Val? ==> |r.env| == |s.env| + 1)
    ensures Agree(if r.Val? then Tree.Val(r.v, r.env[..|s.env|]) else r, Leave(run), s)
  {
  }

  /** The statements of a block from the `k`-th on, and its value. */
  lemma {:induction false} StmtsAgree(e: Tree.Expr, k: nat, fuel: nat, s: State)
    requires Common(e) && e.Block? && k <= |e.stmts| && Plain(s.env)
    requires (forall i :: 0 <= i < |e.stmts| ==> Common(e.stmts[i].e)) && (e.tail.Some? ==> Common(e.tail.value))
    ensures Agree(ThenTail(Tree.EvalStmts(e.stmts[k..], fuel, s.env), e.tail, fuel),
                  Eval(EmbedAll(e.stmts[k..], EmbedOption(e.tail)), fuel, s), s)
    decreases fuel, e, 1, |e.stmts| - k
  {
    hide *;
    var all := EmbedAll(e.stmts[k..], EmbedOption(e.tail));
    StmtsStep(e, k, fuel, s.env);
    if k == |e.stmts| {
      OptionAgrees(e, e.tail, fuel, s);
    } else {
      EvalUnfolds(all, fuel, s);
      StmtAgrees(e, k, fuel, s);
      var r, run := Tree.EvalStmt(e.stmts[k], fuel, s.env), Eval(EmbedStmt(e.stmts[k]), fuel, s);
      AgreeMeans(r, run, s);
      if r.Val? {
        StmtsAgree(e, k + 1, fuel, run.state);
        AgreeFrom(ThenTail(Tree.EvalStmts(e.stmts[k + 1..], fuel, r.env), e.tail, fuel),
                  Eval(EmbedAll(e.stmts[k + 1..], EmbedOption(e.tail)), fuel, run.state), s, run.state);
      }
    }
  }

  lemma StmtsStep(e: Tree.Expr, k: nat, fuel: nat, env: Chain)
    requires e.Block? && k <= |e.stmts|
    requires (forall i :: 0 <= i < |e.stmts| ==> Common(e.stmts[i].e)) && (e.tail.Some? ==> Common(e.tail.value))
    ensures k == |e.stmts| ==>
              && ThenTail(Tree.EvalStmts(e.stmts[k..], fuel, env), e.tail, fuel) == Tree.EvalOption(e.tail, fuel, env)
              && EmbedAll(e.stmts[k..], EmbedOption(e.tail)) == EmbedOption(e.tail)
    ensures k < |e.stmts| ==>
              var r := Tree.EvalStmt(e.stmts[k], fuel, env);
              && EmbedAll(e.stmts[k..], EmbedOption(e.tail)) ==
                   Seq(EmbedStmt(e.stmts[k]), EmbedAll(e.stmts[k + 1..], EmbedOption(e.tail)))
              && ThenTail(Tree.EvalStmts(e.stmts[k..], fuel, env), e.tail, fuel) ==
                   if r.Val? then ThenTail(Tree.EvalStmts(e.stmts[k + 1..], fuel, r.env), e.tail, fuel) else r
  {
    hide Tree.EvalStmt, Tree.EvalOption, EmbedStmt, EmbedOption, Common;
    if k < |e.stmts| {
      assert e.stmts[k..][0] == e.stmts[k] && e.stmts[k..][1..] == e.stmts[k + 1..];
    } else {
      assert e.stmts[k..] == [];
    }
  }

  lemma {:induction false} StmtAgrees(e: Tree.Expr, k: nat, fuel: nat, s: State)
    requires e.Block? && k < |e.stmts| && Common(e.stmts[k].e) && Plain(s.env)
    ensures Agree(Tree.EvalStmt(e.stmts[k], fuel, s.env), Eval(EmbedStmt(e.stmts[k]), fuel, s), s)
    decreases fuel, e, 0
  {
    var stmt := e.stmts[k];
    EvalAgrees(stmt.e, fuel, s);
    EvalUnfolds(EmbedStmt(stmt), fuel, s);
    hide Common, Embed, Agree, Eval, Tree.Eval, Perform, Define;
    var r, run := Tree.Eval(stmt.e, fuel, s.env), Eval(Embed(stmt.e), fuel, s);
    AgreeMeans(r, run, s);
    if r.Val? && stmt.Let? {
      LetAgrees(stmt.x, r.v, s, run.state);
    }
  }
}
