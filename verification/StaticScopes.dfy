/**
 Scripts in which every assigned name is declared and every `match` has an arm
 for what the others leave: they never come to the two places where the back
 ends part, so on them compiling and interpreting agree without exception.
 */
module StaticScopes {
  import opened Values
  import Bytecode
  import Machine
  import opened ScopeChains
  import opened TreeWalker
  import opened CodeGen
  import opened Unfoldings
  import opened CompilerCorrectness
  import CompiledScripts
  import Patterns

  // ----- the condition, checked on the script's text -----

  /** An arm without a guard that matches anything. */
  predicate TakesAll(arm: Arm) {
    arm.guard.None? && (arm.pattern.Wildcard? || arm.pattern.Bind?)
  }

  function NamesAfter(stmts: seq<Stmt>, names: set<string>): set<string> {
    if stmts == [] then names
    else NamesAfter(stmts[1..], if stmts[0].Let? then names + {stmts[0].x} else names)
  }

  function PatternNames(p: Patterns.Pattern): set<string> {
    set x | x in Patterns.Names(p)
  }

  predicate SettledOption(e: Option<Expr>, names: set<string>)
    decreases e, 1
  {
    e.Some? ==> Settled(e.value, names)
  }

  predicate SettledStmts(stmts: seq<Stmt>, names: set<string>)
    decreases stmts, 0
  {
    stmts != [] ==>
      SettledStmt(stmts[0], names) && SettledStmts(stmts[1..], if stmts[0].Let? then names + {stmts[0].x} else names)
  }

  predicate SettledStmt(s: Stmt, names: set<string>)
    decreases s, 1
  {
    Settled(s.e, names)
  }

  predicate SettledArm(arm: Arm, names: set<string>)
    decreases arm, 1
  {
    && Patterns.SameNames(arm.pattern)
    && SettledOption(arm.guard, names + PatternNames(arm.pattern))
    && Settled(arm.body, names + PatternNames(arm.pattern))
  }

  /** With `names` declared: assignments are to declared names, and every `match` has an arm that takes anything. */
  predicate Settled(e: Expr, names: set<string>)
    decreases e, 0
  {
    match e
    case Literal(_) => true
    case Ident(_) => true
    case Unary(_, e1) => Settled(e1, names)
    case Binary(_, lhs, rhs) => Settled(lhs, names) && Settled(rhs, names)
    case If(cond, thn, els) => Settled(cond, names) && Settled(thn, names) && SettledOption(els, names)
    case Block(stmts, tail) => SettledStmts(stmts, names) && SettledOption(tail, NamesAfter(stmts, names))
    case Paren(e1) => Settled(e1, names)
    case Assign(x, e1) => x in names && Settled(e1, names)
    case Compound(_, _, e1) => Settled(e1, names)
    case While(cond, body) => Settled(cond, names) && Settled(body, names)
    case Match(scrutinee, arms) =>
      && Settled(scrutinee, names) && (forall k :: 0 <= k < |arms| ==> SettledArm(arms[k], names))
      && exists k :: 0 <= k < |arms| && TakesAll(arms[k])
  }

  // ----- bound names stay bound -----

  predicate Has(env: Env, x: string) {
    exists i :: 0 <= i < |env| && x in env[i]
  }

  ghost predicate Knows(env: Env, names: set<string>) {
    forall x :: x in names ==> Has(env, x)
  }

  /** Every frame binds what it bound before. */
  predicate Wider(before: Env, after: Env) {
    |before| == |after| && forall i, x :: 0 <= i < |before| && x in before[i] ==> x in after[i]
  }

  lemma KnowsWider(before: Env, after: Env, names: set<string>)
    requires Knows(before, names) && Wider(before, after)
    ensures Knows(after, names)
  {
    forall x | x in names
      ensures Has(after, x)
    {
      var i :| 0 <= i < |before| && x in before[i];
      assert x in after[i];
    }
  }

  lemma WiderThrough(a: Env, b: Env, c: Env)
    requires Wider(a, b) && Wider(b, c)
    ensures Wider(a, c)
  {
  }

  lemma WiderSelf(env: Env)
    ensures Wider(env, env)
  {
  }

  /** Leaving a scope leaves the outer frames. */
  lemma WiderLeaves(env: Env, f: Frame, after: Env)
    requires Wider(env + [f], after)
    ensures |after| == |env| + 1 && Wider(env, after[..|env|])
  {
    forall i, x | 0 <= i < |env| && x in env[i]
      ensures x in after[..|env|][i]
    {
      assert x in (env + [f])[i];
    }
  }

  lemma KnowsInner(env: Env, f: Frame, names: set<string>, more: set<string>)
    requires Knows(env, names) && forall x :: x in more ==> x in f
    ensures Knows(env + [f], names + more)
  {
    forall x | x in names + more
      ensures Has(env + [f], x)
    {
      if x in names {
        var i :| 0 <= i < |env| && x in env[i];
        assert x in (env + [f])[i];
      } else {
        assert x in (env + [f])[|env|];
      }
    }
  }

  /** A bound name is found by an assignment. */
  lemma {:induction false} UpdateFinds(env: Env, x: string, v: Value)
    requires Has(env, x)
    ensures Update(env, x, v).Some? && Wider(env, Update(env, x, v).value)
    decreases |env|
  {
    var n := |env| - 1;
    if x !in env[n] {
      var i :| 0 <= i < |env| && x in env[i];
      assert x in env[..n][i];
      UpdateFinds(env[..n], x, v);
      var r := Update(env[..n], x, v).value;
      forall i, y | 0 <= i < |env| && y in env[i]
        ensures y in (r + [env[n]])[i]
      {
        if i < n {
          assert y in env[..n][i];
        }
      }
    }
  }

  lemma {:induction false} GetFinds(env: Env, x: string)
    requires Get(env, x).Some?
    ensures Has(env, x)
    decreases |env|
  {
    var n := |env| - 1;
    if x !in env[n] {
      GetFinds(env[..n], x);
      var i :| 0 <= i < |env[..n]| && x in env[..n][i];
      assert x in env[i];
    }
  }

  lemma DefineKnows(env: Env, x: string, v: Value, names: set<string>)
    requires env != [] && Knows(env, names)
    ensures Wider(env, Define(env, x, v)) && Knows(Define(env, x, v), names + {x})
  {
    var after := Define(env, x, v);
    KnowsWider(env, after, names);
    assert x in after[|env| - 1];
  }

  /** The operators raise neither of the two errors. */
  lemma OpErrors(op: BinOp, a: Value, b: Value)
    ensures ApplyBinOp(op, a, b).Err? ==> !Excused(ApplyBinOp(op, a, b).error)
  {
  }

  lemma UnaryErrors(op: UnaryOp, v: Value)
    ensures ApplyUnary(op, v).Err? ==> !Excused(ApplyUnary(op, v).error)
  {
  }

  // ----- evaluation stays clear of the two errors -----

  /** No excused error, and no binding lost. */
  predicate Fine(r: Evaluation, env: Env) {
    match r
    case Val(_, after) => Wider(env, after)
    case Fail(err) => !Excused(err)
    case OutOfFuel => true
  }

  lemma FineMeans(r: Evaluation, env: Env, names: set<string>)
    requires Fine(r, env) && Knows(env, names)
    ensures r.Val? ==> Wider(env, r.env) && |r.env| == |env| && Knows(r.env, names)
  {
    if r.Val? {
      KnowsWider(env, r.env, names);
    }
  }

  lemma FineVal(v: Value, env: Env, after: Env)
    requires Wider(env, after)
    ensures Fine(Val(v, after), env)
  {
  }

  lemma FineThrough(r: Evaluation, mid: Env, env: Env)
    requires Fine(r, mid) && Wider(env, mid)
    ensures Fine(r, env)
  {
    if r.Val? {
      WiderThrough(env, mid, r.env);
    }
  }

  lemma FineOp(op: BinOp, a: Value, b: Value, env: Env)
    ensures Fine(FromOp(ApplyBinOp(op, a, b), env), env)
  {
    hide ApplyBinOp;
    OpErrors(op, a, b);
  }

  lemma FineUnary(op: UnaryOp, v: Value, env: Env)
    ensures Fine(FromOp(ApplyUnary(op, v), env), env)
  {
    hide ApplyUnary;
    UnaryErrors(op, v);
  }

  lemma FineAssign(env: Env, x: string, v: Value)
    requires Has(env, x)
    ensures Fine(AssignResult(env, x, v), env)
  {
    UpdateFinds(env, x, v);
    hide Update, Wider;
  }

  lemma SettledMeans(e: Expr, names: set<string>)
    requires Settled(e, names)
    ensures match e
            case Literal(_) => true
            case Ident(_) => true
            case Unary(_, e1) => Settled(e1, names)
            case Binary(_, lhs, rhs) => Settled(lhs, names) && Settled(rhs, names)
            case If(cond, thn, els) => Settled(cond, names) && Settled(thn, names) && SettledOption(els, names)
            case Block(stmts, tail) => SettledStmts(stmts, names) && SettledOption(tail, NamesAfter(stmts, names))
            case Paren(e1) => Settled(e1, names)
            case Assign(x, e1) => x in names && Settled(e1, names)
            case Compound(_, _, e1) => Settled(e1, names)
            case While(cond, body) => Settled(cond, names) && Settled(body, names)
            case Match(scrutinee, arms) =>
              && Settled(scrutinee, names) && (forall k :: 0 <= k < |arms| ==> SettledArm(arms[k], names))
              && exists k :: 0 <= k < |arms| && TakesAll(arms[k])
  {
    hide SettledArm, SettledStmts, SettledOption, NamesAfter, TakesAll;
  }

  lemma SmallUnfolds(e: Expr, fuel: nat, env: Env)
    requires env != []
    ensures e.Literal? ==> Eval(e, fuel, env) == Val(e.v, env)
    ensures e.Ident? ==>
              Eval(e, fuel, env) == if Get(env, e.x).Some? then Val(Get(env, e.x).value, env) else Fail(NameError)
    ensures e.Paren? ==> Eval(e, fuel, env) == Eval(e.e, fuel, env)
    ensures !Excused(NameError)
  {
    hide Get;
  }

  lemma {:induction false} BinaryFine(e: Expr, fuel: nat, env: Env, names: set<string>)
    requires e.Binary? && env != [] && Settled(e, names) && Knows(env, names)
    ensures Fine(Eval(e, fuel, env), env)
    decreases fuel, e, 0
  {
    hide *;
    SettledMeans(e, names);
    var r1 := Eval(e.lhs, fuel, env);
    EvalFine(e.lhs, fuel, env, names);
    FineMeans(r1, env, names);
    if e.op in {And, Or} {
      EvalLogical(e, fuel, env);
    } else {
      EvalStrict(e, fuel, env);
    }
    if r1.Val? {
      var r2 := Eval(e.rhs, fuel, r1.env);
      EvalFine(e.rhs, fuel, r1.env, names);
      FineMeans(r2, r1.env, names);
      FineThrough(r2, r1.env, env);
      if r2.Val? {
        FineOp(e.op, r1.v, r2.v, r2.env);
        WiderThrough(env, r1.env, r2.env);
        FineThrough(FromOp(ApplyBinOp(e.op, r1.v, r2.v), r2.env), r2.env, env);
      }
    }
  }

  lemma {:induction false} OptionFine(e: Option<Expr>, fuel: nat, env: Env, names: set<string>)
    requires env != [] && SettledOption(e, names) && Knows(env, names)
    ensures Fine(EvalOption(e, fuel, env), env)
    decreases fuel, e, 2
  {
    hide Eval, Settled, Knows, Fine;
    WiderSelf(env);
    FineVal(Nil, env, env);
    if e.Some? {
      EvalFine(e.value, fuel, env, names);
    }
  }

  lemma {:induction false} IfFine(e: Expr, fuel: nat, env: Env, names: set<string>)
    requires e.If? && env != [] && Settled(e, names) && Knows(env, names)
    ensures Fine(Eval(e, fuel, env), env)
    decreases fuel, e, 0
  {
    hide *;
    SettledMeans(e, names);
    EvalIf(e, fuel, env);
    var r := Eval(e.cond, fuel, env);
    EvalFine(e.cond, fuel, env, names);
    FineMeans(r, env, names);
    if r.Val? {
      EvalFine(e.thn, fuel, r.env, names);
      OptionFine(e.els, fuel, r.env, names);
      FineThrough(Eval(e.thn, fuel, r.env), r.env, env);
      FineThrough(EvalOption(e.els, fuel, r.env), r.env, env);
    }
  }

  lemma {:induction false} AssignFine(e: Expr, fuel: nat, env: Env, names: set<string>)
    requires e.Assign? && env != [] && Settled(e, names) && Knows(env, names)
    ensures Fine(Eval(e, fuel, env), env)
    decreases fuel, e, 0
  {
    hide *;
    SettledMeans(e, names);
    EvalAssign(e, fuel, env);
    var r := Eval(e.e, fuel, env);
    EvalFine(e.e, fuel, env, names);
    FineMeans(r, env, names);
    if r.Val? {
      KnownName(r.env, names, e.x);
      FineAssign(r.env, e.x, r.v);
      FineThrough(AssignResult(r.env, e.x, r.v), r.env, env);
    }
  }

  lemma KnownName(env: Env, names: set<string>, x: string)
    requires Knows(env, names) && x in names
    ensures Has(env, x)
  {
  }

  lemma OneKnown(env: Env, x: string)
    requires Has(env, x)
    ensures Knows(env, {x})
  {
  }

  /** A compound assignment reads its variable first: if there is none, it fails as any read does. */
  lemma {:induction false} CompoundFine(e: Expr, fuel: nat, env: Env, names: set<string>)
    requires e.Compound? && env != [] && Settled(e, names) && Knows(env, names)
    ensures Fine(Eval(e, fuel, env), env)
    decreases fuel, e, 0
  {
    hide *;
    SettledMeans(e, names);
    EvalCompound(e, fuel, env);
    SmallUnfolds(e, fuel, env);
    FineFail(NameError, env);
    if Get(env, e.x).Some? {
      GetFinds(env, e.x);
      OneKnown(env, e.x);
      var r := Eval(e.e, fuel, env);
      EvalFine(e.e, fuel, env, names);
      FineMeans(r, env, {e.x});
      if r.Val? {
        OpErrors(e.op, Get(env, e.x).value, r.v);
        KnownName(r.env, {e.x}, e.x);
        match ApplyBinOp(e.op, Get(env, e.x).value, r.v)
        case Err(err) => FineFail(err, env);
        case Ok(v) =>
          FineAssign(r.env, e.x, v);
          FineThrough(AssignResult(r.env, e.x, v), r.env, env);
      }
    }
  }

  lemma FineFail(err: Error, env: Env)
    requires !Excused(err)
    ensures Fine(Fail(err), env)
  {
  }

  lemma {:induction false} WhileFine(e: Expr, fuel: nat, env: Env, names: set<string>)
    requires e.While? && env != [] && Settled(e, names) && Knows(env, names)
    ensures Fine(Eval(e, fuel, env), env)
    decreases fuel, e, 0
  {
    hide *;
    SettledMeans(e, names);
    EvalWhile(e, fuel, env);
    if fuel == 0 {
      FineNone(env);
    } else {
      var r1 := Eval(e.cond, fuel - 1, env);
      EvalFine(e.cond, fuel - 1, env, names);
      FineMeans(r1, env, names);
      if r1.Val? {
        FineVal(Nil, env, r1.env);
        var r2 := Eval(e.body, fuel - 1, r1.env);
        EvalFine(e.body, fuel - 1, r1.env, names);
        FineMeans(r2, r1.env, names);
        FineThrough(r2, r1.env, env);
        if r2.Val? {
          WiderThrough(env, r1.env, r2.env);
          EvalFine(e, fuel - 1, r2.env, names);
          FineThrough(Eval(e, fuel - 1, r2.env), r2.env, env);
        }
      }
    }
  }

  lemma FineNone(env: Env)
    ensures Fine(OutOfFuel, env)
  {
  }

  // ----- statements and blocks -----

  /** As `Fine`; the names the statements declare are known after them. */
  ghost predicate FineDeclares(r: Evaluation, env: Env, names: set<string>) {
    Fine(r, env) && (r.Val? ==> Knows(r.env, names))
  }

  lemma {:induction false} StmtFine(s: Stmt, fuel: nat, env: Env, names: set<string>)
    requires env != [] && SettledStmt(s, names) && Knows(env, names)
    ensures FineDeclares(EvalStmt(s, fuel, env), env, if s.Let? then names + {s.x} else names)
    decreases fuel, s, 3
  {
    hide *;
    StmtUnfolds(s, fuel, env, names);
    var r := Eval(s.e, fuel, env);
    EvalFine(s.e, fuel, env, names);
    FineMeans(r, env, names);
    if s.Let? && r.Val? {
      DefineKnows(r.env, s.x, r.v, names);
      var after := Define(r.env, s.x, r.v);
      WiderThrough(env, r.env, after);
      FineVal(Nil, env, after);
      DeclaresIs(Val(Nil, after), env, names + {s.x});
    } else {
      DeclaresIs(r, env, if s.Let? then names + {s.x} else names);
    }
  }

  lemma StmtUnfolds(s: Stmt, fuel: nat, env: Env, names: set<string>)
    requires env != [] && SettledStmt(s, names)
    ensures Settled(s.e, names)
    ensures var r := Eval(s.e, fuel, env);
            && (r.Val? ==> r.env != [])
            && EvalStmt(s, fuel, env) == (if s.Let? && r.Val? then Val(Nil, Define(r.env, s.x, r.v)) else r)
  {
    hide Eval, Define;
  }

  lemma DeclaresIs(r: Evaluation, env: Env, names: set<string>)
    ensures FineDeclares(r, env, names) <==> Fine(r, env) && (r.Val? ==> Knows(r.env, names))
  {
    hide Fine, Knows;
  }

  lemma SettledStep(stmts: seq<Stmt>, names: set<string>)
    requires SettledStmts(stmts, names)
    ensures stmts == [] ==> NamesAfter(stmts, names) == names
    ensures stmts != [] ==>
              var more := if stmts[0].Let? then names + {stmts[0].x} else names;
              && SettledStmt(stmts[0], names) && SettledStmts(stmts[1..], more)
              && NamesAfter(stmts, names) == NamesAfter(stmts[1..], more)
  {
    hide Settled;
  }

  lemma {:induction false} StmtsFine(stmts: seq<Stmt>, fuel: nat, env: Env, names: set<string>)
    requires env != [] && SettledStmts(stmts, names) && Knows(env, names)
    ensures FineDeclares(EvalStmts(stmts, fuel, env), env, NamesAfter(stmts, names))
    decreases fuel, stmts, 1
  {
    hide *;
    SettledStep(stmts, names);
    if stmts == [] {
      NoStmtsEval(fuel, env);
      WiderSelf(env);
      FineVal(Nil, env, env);
      DeclaresIs(Val(Nil, env), env, names);
    } else {
      EvalStmtsStep(stmts, fuel, env);
      var r, more := EvalStmt(stmts[0], fuel, env), if stmts[0].Let? then names + {stmts[0].x} else names;
      StmtFine(stmts[0], fuel, env, names);
      DeclaresIs(r, env, more);
      FineMeans(r, env, {});
      if r.Val? {
        StmtsFine(stmts[1..], fuel, r.env, more);
        var r2 := EvalStmts(stmts[1..], fuel, r.env);
        DeclaresIs(r2, r.env, NamesAfter(stmts, names));
        FineThrough(r2, r.env, env);
        DeclaresIs(r2, env, NamesAfter(stmts, names));
      } else {
        DeclaresIs(r, env, NamesAfter(stmts, names));
      }
    }
  }

  lemma NoStmtsEval(fuel: nat, env: Env)
    requires env != []
    ensures EvalStmts([], fuel, env) == Val(Nil, env)
  {
  }

  lemma {:induction false} BlockFine(e: Expr, fuel: nat, env: Env, names: set<string>)
    requires e.Block? && env != [] && Settled(e, names) && Knows(env, names)
    ensures Fine(Eval(e, fuel, env), env)
    decreases fuel, e, 0
  {
    hide *;
    SettledMeans(e, names);
    EvalBlock(e, fuel, env);
    KnowsInner(env, map[], names, {});
    var inner: Env, all := env + [map[]], NamesAfter(e.stmts, names);
    assert names + {} == names;
    var r1 := EvalStmts(e.stmts, fuel, inner);
    StmtsFine(e.stmts, fuel, inner, names);
    DeclaresIs(r1, inner, all);
    FineMeans(r1, inner, {});
    if r1.Val? {
      var r2 := EvalOption(e.tail, fuel, r1.env);
      OptionFine(e.tail, fuel, r1.env, all);
      FineThrough(r2, r1.env, inner);
      FineMeans(r2, inner, {});
      FineLeaves(r2, env, map[]);
    } else {
      FineOutside(r1, inner, env);
    }
  }

  lemma FineLeaves(r: Evaluation, env: Env, f: Frame)
    requires Fine(r, env + [f])
    ensures r.Val? ==> |r.env| == |env| + 1 && Fine(Val(r.v, r.env[..|env|]), env)
    ensures !r.Val? ==> Fine(r, env)
  {
    hide Wider;
    if r.Val? {
      WiderLeaves(env, f, r.env);
    }
  }

  lemma FineOutside(r: Evaluation, inner: Env, env: Env)
    requires Fine(r, inner) && !r.Val?
    ensures Fine(r, env)
  {
  }

  // ----- match -----

  lemma {:induction false} MatchFine(e: Expr, fuel: nat, env: Env, names: set<string>)
    requires e.Match? && env != [] && Settled(e, names) && Knows(env, names)
    ensures Fine(Eval(e, fuel, env), env)
    decreases fuel, e, 0
  {
    hide *;
    SettledMeans(e, names);
    EvalMatch(e, fuel, env);
    var r := Eval(e.scrutinee, fuel, env);
    EvalFine(e.scrutinee, fuel, env, names);
    FineMeans(r, env, names);
    if r.Val? {
      CoveredIs(e.arms);
      ArmsFine(e.arms, r.v, fuel, r.env, names);
      FineThrough(EvalArms(e.arms, r.v, fuel, r.env), r.env, env);
    }
  }

  lemma AnythingMatches(arm: Arm, v: Value)
    requires TakesAll(arm)
    ensures Patterns.MatchTree(arm.pattern, v, map[]).0 && arm.guard.None?
  {
  }

  lemma NamesInFrame(p: Patterns.Pattern, v: Value)
    requires Patterns.SameNames(p) && Patterns.MatchTree(p, v, map[]).0
    ensures forall x :: x in PatternNames(p) ==> x in Patterns.MatchTree(p, v, map[]).1
  {
    hide Patterns.MatchTree, Patterns.SameNames, Patterns.Names, Patterns.Matches, Patterns.Bindings;
    Patterns.TreeMeets(p, v, map[]);
    Patterns.NamesAreBound(p, v);
    forall x | x in PatternNames(p)
      ensures x in Patterns.BindAll(map[], Patterns.Bindings(p, v))
    {
      BindsAll(map[], Patterns.Bindings(p, v), x);
    }
  }

  lemma {:induction false} BindsAll(f: Frame, bs: seq<(string, Value)>, x: string)
    requires x in f || x in Patterns.NamesOf(bs)
    ensures x in Patterns.BindAll(f, bs)
    decreases bs
  {
    if bs != [] {
      if x in Patterns.NamesOf(bs) {
        var i :| 0 <= i < |bs| && bs[i].0 == x;
        if i > 0 {
          assert Patterns.NamesOf(bs[1..])[i - 1] == x;
        }
      }
      BindsAll(f[bs[0].0 := bs[0].1], bs[1..], x);
    }
  }

  lemma SettledArmMeans(arm: Arm, names: set<string>)
    requires SettledArm(arm, names)
    ensures var all := names + PatternNames(arm.pattern);
            && Patterns.SameNames(arm.pattern) && SettledOption(arm.guard, all) && Settled(arm.body, all)
            && (arm.guard.Some? ==> Settled(arm.guard.value, all))
  {
    hide Settled, Patterns.SameNames, PatternNames;
  }

  /** Some arm is left that takes anything. */
  ghost predicate Covered(arms: seq<Arm>) {
    exists k :: 0 <= k < |arms| && TakesAll(arms[k])
  }

  lemma CoveredIs(arms: seq<Arm>)
    ensures Covered(arms) <==> exists k :: 0 <= k < |arms| && TakesAll(arms[k])
  {
    hide TakesAll;
  }

  lemma CoveredRest(arms: seq<Arm>)
    requires Covered(arms)
    ensures arms != []
    ensures TakesAll(arms[0]) || Covered(arms[1..])
  {
    var k :| 0 <= k < |arms| && TakesAll(arms[k]);
    if k > 0 {
      assert arms[1..][k - 1] == arms[k];
    }
  }

  lemma {:induction false} ArmsFine(arms: seq<Arm>, v: Value, fuel: nat, env: Env, names: set<string>)
    requires env != [] && Knows(env, names) && Covered(arms)
    requires forall k :: 0 <= k < |arms| ==> SettledArm(arms[k], names)
    ensures Fine(EvalArms(arms, v, fuel, env), env)
    decreases fuel, arms, 1
  {
    hide *;
    CoveredRest(arms);
    EvalArmsStep(arms, v, fuel, env);
    var arm := arms[0];
    SettledArmMeans(arm, names);
    var m, all := Patterns.MatchTree(arm.pattern, v, map[]), names + PatternNames(arm.pattern);
    if TakesAll(arm) {
      AnythingMatches(arm, v);
    }
    if !m.0 {
      ArmsFine(arms[1..], v, fuel, env, names);
    } else {
      NamesInFrame(arm.pattern, v);
      KnowsInner(env, m.1, names, PatternNames(arm.pattern));
      var inner := env + [m.1];
      GuardFine(arm, fuel, inner, all);
      var g := EvalGuard(arm, fuel, inner);
      FineMeans(g, inner, all);
      FineLeaves(g, env, m.1);
      if g.Val? {
        var b := Eval(arm.body, fuel, g.env);
        EvalFine(arm.body, fuel, g.env, all);
        FineThrough(b, g.env, inner);
        FineLeaves(b, env, m.1);
        LeaveIs(b, |env|);
        if !Truthy(g.v) {
          if TakesAll(arm) {
            BareGuard(arm, fuel, inner);
          }
          var env2 := g.env[..|env|];
          FineMeans(Val(g.v, env2), env, names);
          ArmsFine(arms[1..], v, fuel, env2, names);
          FineThrough(EvalArms(arms[1..], v, fuel, env2), env2, env);
        }
      }
    }
  }

  lemma BareGuard(arm: Arm, fuel: nat, env: Env)
    requires arm.guard.None? && env != []
    ensures EvalGuard(arm, fuel, env).Val? && Truthy(EvalGuard(arm, fuel, env).v)
  {
  }

  lemma LeaveIs(r: Evaluation, n: nat)
    requires r.Val? ==> n <= |r.env|
    ensures Leave(r, n) == if r.Val? then Val(r.v, r.env[..n]) else r
  {
  }

  lemma {:induction false} GuardFine(arm: Arm, fuel: nat, env: Env, names: set<string>)
    requires env != [] && SettledOption(arm.guard, names) && Knows(env, names)
    ensures Fine(EvalGuard(arm, fuel, env), env)
    decreases fuel, arm, 1
  {
    hide Eval, Settled, Knows, Fine;
    WiderSelf(env);
    FineVal(Bool(true), env, env);
    if arm.guard.Some? {
      EvalFine(arm.guard.value, fuel, env, names);
    }
  }

  lemma {:induction false} UnaryFine(e: Expr, fuel: nat, env: Env, names: set<string>)
    requires e.Unary? && env != [] && Settled(e, names) && Knows(env, names)
    ensures Fine(Eval(e, fuel, env), env)
    decreases fuel, e, 0
  {
    hide *;
    SettledMeans(e, names);
    EvalUnary(e, fuel, env);
    var r := Eval(e.e, fuel, env);
    EvalFine(e.e, fuel, env, names);
    FineMeans(r, env, names);
    if r.Val? {
      FineUnary(e.uop, r.v, r.env);
      FineThrough(FromOp(ApplyUnary(e.uop, r.v), r.env), r.env, env);
    }
  }

  /** With all assigned names bound and every `match` covered, evaluation raises neither of the excused errors. */
  lemma {:induction false} EvalFine(e: Expr, fuel: nat, env: Env, names: set<string>)
    requires env != [] && Settled(e, names) && Knows(env, names)
    ensures Fine(Eval(e, fuel, env), env)
    decreases fuel, e, 1
  {
    hide *;
    SettledMeans(e, names);
    SmallUnfolds(e, fuel, env);
    WiderSelf(env);
    match e
    case Literal(v) => FineVal(v, env, env);
    case Ident(x) =>
      FineFail(NameError, env);
      if Get(env, x).Some? {
        FineVal(Get(env, x).value, env, env);
      }
    case Unary(_, _) => UnaryFine(e, fuel, env, names);
    case Binary(_, _, _) => BinaryFine(e, fuel, env, names);
    case If(_, _, _) => IfFine(e, fuel, env, names);
    case Block(_, _) => BlockFine(e, fuel, env, names);
    case Paren(e1) => EvalFine(e1, fuel, env, names);
    case Assign(_, _) => AssignFine(e, fuel, env, names);
    case Compound(_, _, _) => CompoundFine(e, fuel, env, names);
    case While(_, _) => WhileFine(e, fuel, env, names);
    case Match(_, _) => MatchFine(e, fuel, env, names);
  }

  // ----- whole scripts -----

  /** A script whose assigned names are globals of the given names or declared by the script. */
  predicate SettledScript(stmts: seq<Stmt>, result: Option<Expr>, names: set<string>) {
    SettledStmts(stmts, names) && SettledOption(result, NamesAfter(stmts, names))
  }

  lemma {:induction false} ScriptFine(stmts: seq<Stmt>, result: Option<Expr>, fuel: nat, globals: Frame)
    requires SettledScript(stmts, result, globals.Keys)
    ensures var r := RunProgram(stmts, result, fuel, globals);
            r.Fail? ==> !Excused(r.error)
  {
    ScriptParts(stmts, result, globals);
    CompiledScripts.RunUnfolds(stmts, result, fuel, globals);
    hide RunProgram, EvalStmts, EvalOption, SettledStmts, SettledOption, Knows, SettledScript;
    var r, env: Env := EvalStmts(stmts, fuel, [globals]), [globals];
    StmtsFine(stmts, fuel, env, globals.Keys);
    if r.Val? {
      OptionFine(result, fuel, r.env, NamesAfter(stmts, globals.Keys));
    }
  }

  lemma ScriptParts(stmts: seq<Stmt>, result: Option<Expr>, globals: Frame)
    requires SettledScript(stmts, result, globals.Keys)
    ensures SettledStmts(stmts, globals.Keys) && SettledOption(result, NamesAfter(stmts, globals.Keys))
    ensures Knows([globals], globals.Keys)
  {
    var env: Env := [globals];
    assert forall x :: x in globals.Keys ==> x in env[0];
    hide SettledStmts, SettledOption;
  }

  /** How a script ends, in the tree-walker's terms and the machine's. */
  predicate SameEnd(r: Evaluation, end: Machine.Next) {
    match r
    case Val(v, env) => |env| == 1 && end == Machine.Halted(v, env[0])
    case Fail(err) => end == Machine.Faulted(err)
    case OutOfFuel => false
  }

  /**
   Compiling and running a settled script ends exactly as interpreting it
   does: the machine halts with a value and globals exactly if the tree-walker
   yields them, it fails with an error exactly if the tree-walker raises it,
   and otherwise neither comes to an end.
   */
  lemma EndsAlike(stmts: seq<Stmt>, result: Option<Expr>, globals: Frame, end: Machine.Next)
    requires CompiledScripts.FitsChunk(GenProgram(stmts, result)) && !end.Running?
    requires CompilableStmts(stmts, 0, true, true) && CompilableOption(result, 0, true)
    requires SettledScript(stmts, result, globals.Keys)
    ensures CompiledScripts.ScriptRuns(stmts, result, globals, end)
            <==> exists fuel: nat :: SameEnd(RunProgram(stmts, result, fuel, globals), end)
  {
    hide *;
    if CompiledScripts.ScriptRuns(stmts, result, globals, end) {
      var n := EndsAfter(stmts, result, globals, end);
      ScriptFine(stmts, result, n + 1, globals);
      EndFound(stmts, result, globals, end, n);
      assert SameEnd(RunProgram(stmts, result, n + 1, globals), end);
    }
    if fuel: nat :| SameEnd(RunProgram(stmts, result, fuel, globals), end) {
      ScriptFine(stmts, result, fuel, globals);
      EndReached(stmts, result, globals, end, fuel);
    }
  }

  lemma EndsAfter(stmts: seq<Stmt>, result: Option<Expr>, globals: Frame, end: Machine.Next) returns (n: nat)
    requires CompiledScripts.ScriptRuns(stmts, result, globals, end)
    ensures CompiledScripts.ScriptSteps(stmts, result, globals, n) == end
  {
    hide GenProgram, Machine.Steps;
    var c := GenProgram(stmts, result);
    n :| Machine.Steps(Machine.Chunk(c.bytes, c.consts), 0, Machine.Vm(0, [], globals, []), n) == end;
  }

  /** A budget above the number of steps taken is enough. */
  lemma EndFound(stmts: seq<Stmt>, result: Option<Expr>, globals: Frame, end: Machine.Next, n: nat)
    requires CompiledScripts.FitsChunk(GenProgram(stmts, result)) && !end.Running?
    requires CompilableStmts(stmts, 0, true, true) && CompilableOption(result, 0, true)
    requires CompiledScripts.ScriptSteps(stmts, result, globals, n) == end
    requires CompiledScripts.ScriptRuns(stmts, result, globals, end)
    requires var r := RunProgram(stmts, result, n + 1, globals); r.Fail? ==> !Excused(r.error)
    ensures SameEnd(RunProgram(stmts, result, n + 1, globals), end)
  {
    hide GenProgram, CompiledScripts.FitsChunk, CompilableStmts, CompilableOption, RunProgram;
    hide CompiledScripts.ScriptSteps, CompiledScripts.ScriptRuns, Excused;
    CompiledScripts.ScriptCorrect(stmts, result, n + 1, globals);
    var r := RunProgram(stmts, result, n + 1, globals);
    match r
    case Val(v, env) => CompiledScripts.EndsOnce(stmts, result, globals, end, Machine.Halted(v, env[0]));
    case Fail(err) => CompiledScripts.EndsOnce(stmts, result, globals, end, Machine.Faulted(err));
    case OutOfFuel =>
      var k: nat :| k >= n + 1 && CompiledScripts.ScriptSteps(stmts, result, globals, k).Running?;
      StepsStopped(stmts, result, globals, n, k);
      assert false;
  }

  lemma StepsStopped(stmts: seq<Stmt>, result: Option<Expr>, globals: Frame, n: nat, k: nat)
    requires n <= k && !CompiledScripts.ScriptSteps(stmts, result, globals, n).Running?
    ensures !CompiledScripts.ScriptSteps(stmts, result, globals, k).Running?
  {
    hide GenProgram, Machine.Steps;
    var c := GenProgram(stmts, result);
    CompiledScripts.StoppedStays(Machine.Chunk(c.bytes, c.consts), 0, Machine.Vm(0, [], globals, []), n, k);
  }

  lemma EndReached(stmts: seq<Stmt>, result: Option<Expr>, globals: Frame, end: Machine.Next, fuel: nat)
    requires CompiledScripts.FitsChunk(GenProgram(stmts, result))
    requires CompilableStmts(stmts, 0, true, true) && CompilableOption(result, 0, true)
    requires var r := RunProgram(stmts, result, fuel, globals); SameEnd(r, end) && (r.Fail? ==> !Excused(r.error))
    ensures CompiledScripts.ScriptRuns(stmts, result, globals, end)
  {
    hide GenProgram, CompiledScripts.FitsChunk, CompilableStmts, CompilableOption, RunProgram;
    hide CompiledScripts.ScriptRuns, Excused;
    CompiledScripts.ScriptCorrect(stmts, result, fuel, globals);
  }

  /** The machine has no such errors: no run of any code ends in one of them. */
  lemma {:induction false} NeverExcused(c: Machine.Chunk, base: nat, m: Machine.Vm, n: nat)
    ensures var r := Machine.Steps(c, base, m, n); r.Faulted? ==> !Excused(r.error)
    decreases n
  {
    hide Machine.Step;
    if n > 0 {
      StepErrors(c, base, m);
      if Machine.Step(c, base, m).Running? {
        NeverExcused(c, base, Machine.Step(c, base, m).vm, n - 1);
      }
    }
  }

  lemma StepErrors(c: Machine.Chunk, base: nat, m: Machine.Vm)
    ensures var r := Machine.Step(c, base, m); r.Faulted? ==> !Excused(r.error)
  {
    hide Bytecode.Decode, Machine.ExecPlain;
    if Bytecode.Decode(c.code, m.ip).Some? {
      var (i, next) := Bytecode.Decode(c.code, m.ip).value;
      PlainErrors(i.op, m.(ip := next));
    }
  }

  lemma PlainErrors(op: Bytecode.OpCode, m: Machine.Vm)
    ensures var r := Machine.ExecPlain(op, m); r.Faulted? ==> !Excused(r.error)
  {
    hide ApplyBinOp, ApplyUnary;
    if |m.stack| >= 1 {
      UnaryErrors(Neg, m.stack[|m.stack| - 1]);
      UnaryErrors(Not, m.stack[|m.stack| - 1]);
    }
    if |m.stack| >= 2 && op.Strict? {
      OpErrors(op.op, m.stack[|m.stack| - 2], m.stack[|m.stack| - 1]);
    }
  }
}
