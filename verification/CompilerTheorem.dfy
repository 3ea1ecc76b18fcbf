/**
 Compiler correctness, by induction on the expression and on the loop budget.
 */
module CompilerTheorem {
  import opened Values
  import opened Bytecode
  import Machine
  import opened ScopeChains
  import opened TreeWalker
  import opened CodeGen
  import opened Slots
  import opened Unfoldings
  import opened CompilerCorrectness
  import opened MatchCorrectness
  import Patterns

  lemma {:induction false} CompileUnary(pl: Place, e: Expr, fuel: nat, env: Env, sc: Scope, pc: nat,
                                        consts: Pool, vals: seq<Value>, temps: seq<Value>)
    returns (vals': seq<Value>)
    requires e.Unary? && Matches(pl, env, sc, vals) && Loaded(pl, pc, Gen(e, sc, pc, consts))
    requires Compilable(e, |sc.locals|, temps == []) && pl.budget <= fuel
    ensures Simulates(pl, Mach(pl, pc, env, vals, temps), Eval(e, fuel, env), sc, vals', temps,
                      After(pc, Gen(e, sc, pc, consts).bytes, 0))
    decreases fuel, e, 0
  {
    hide *;
    MatchesNonempty(pl, env, sc, vals);
    GenUnary(e, sc, pc, consts);
    EvalUnary(e, fuel, env);
    CompilableUnary(e, |sc.locals|, temps == []);
    var c := Gen(e.e, sc, pc, consts);
    UnaryParts(pl, pc, c, e.uop);
    var pc1 := After(pc, c.bytes, 0);
    vals' := CompileExpr(pl, e.e, fuel, env, sc, pc, consts, vals, temps);
    var r := Eval(e.e, fuel, env);
    if r.Val? {
      SimulatesVal(pl, Mach(pl, pc, env, vals, temps), r, sc, vals', temps, pc1);
      UnaryRuns(pl, pc1, e.uop, r.v, r.env, sc, vals', temps);
    }
    AfterOperand(pl, Mach(pl, pc, env, vals, temps), r, sc, vals', temps, pc1,
                 Eval(e, fuel, env), vals', temps, pc1 + 1);
  }

  lemma {:induction false} CompileStrict(pl: Place, e: Expr, fuel: nat, env: Env, sc: Scope, pc: nat,
                                         consts: Pool, vals: seq<Value>, temps: seq<Value>)
    returns (vals': seq<Value>)
    requires e.Binary? && e.op !in {And, Or} && Matches(pl, env, sc, vals) && Loaded(pl, pc, Gen(e, sc, pc, consts))
    requires Compilable(e, |sc.locals|, temps == []) && pl.budget <= fuel
    ensures Simulates(pl, Mach(pl, pc, env, vals, temps), Eval(e, fuel, env), sc, vals', temps,
                      After(pc, Gen(e, sc, pc, consts).bytes, 0))
    decreases fuel, e, 0
  {
    hide *;
    MatchesNonempty(pl, env, sc, vals);
    GenStrict(e, sc, pc, consts);
    EvalStrict(e, fuel, env);
    CompilableBinary(e, |sc.locals|, temps == []);
    var l := Gen(e.lhs, sc, pc, consts);
    var pc1 := After(pc, l.bytes, 0);
    var r := Gen(e.rhs, sc, pc1, l.consts);
    StrictParts(pl, pc, l, r, e.op);
    var pc2 := After(pc1, r.bytes, 0);
    var vals1 := CompileExpr(pl, e.lhs, fuel, env, sc, pc, consts, vals, temps);
    vals' := vals1;
    var r1 := Eval(e.lhs, fuel, env);
    if r1.Val? {
      SimulatesVal(pl, Mach(pl, pc, env, vals, temps), r1, sc, vals1, temps, pc1);
      var temps1 := temps + [r1.v];
      vals' := CompileExpr(pl, e.rhs, fuel, r1.env, sc, pc1, l.consts, vals1, temps1);
      var r2 := Eval(e.rhs, fuel, r1.env);
      if r2.Val? {
        SimulatesVal(pl, Mach(pl, pc1, r1.env, vals1, temps1), r2, sc, vals', temps1, pc2);
        StrictRuns(pl, pc2, e.op, r1.v, r2.v, r2.env, sc, vals', temps);
      }
      AfterOperand(pl, Mach(pl, pc1, r1.env, vals1, temps1), r2, sc, vals', temps1, pc2,
                   Eval(e, fuel, env), vals', temps, pc2 + 1);
    }
    AfterOperand(pl, Mach(pl, pc, env, vals, temps), r1, sc, vals1, temps, pc1,
                 Eval(e, fuel, env), vals', temps, pc2 + 1);
  }

  lemma {:induction false} CompileLogical(pl: Place, e: Expr, fuel: nat, env: Env, sc: Scope, pc: nat,
                                          consts: Pool, vals: seq<Value>, temps: seq<Value>)
    returns (vals': seq<Value>)
    requires e.Binary? && e.op in {And, Or} && Matches(pl, env, sc, vals) && Loaded(pl, pc, Gen(e, sc, pc, consts))
    requires Compilable(e, |sc.locals|, temps == []) && pl.budget <= fuel
    ensures Simulates(pl, Mach(pl, pc, env, vals, temps), Eval(e, fuel, env), sc, vals', temps,
                      After(pc, Gen(e, sc, pc, consts).bytes, 0))
    decreases fuel, e, 0
  {
    hide *;
    MatchesNonempty(pl, env, sc, vals);
    GenLogical(e, sc, pc, consts);
    EvalLogical(e, fuel, env);
    CompilableBinary(e, |sc.locals|, temps == []);
    var l := Gen(e.lhs, sc, pc, consts);
    var rhsPc := After(pc, l.bytes, 5);
    var r := Gen(e.rhs, sc, rhsPc, l.consts);
    LogicalParts(pl, pc, l, r, e.op);
    var pc1, end := After(pc, l.bytes, 0), After(rhsPc, r.bytes, 0);
    var m := Mach(pl, pc, env, vals, temps);
    var vals1 := CompileExpr(pl, e.lhs, fuel, env, sc, pc, consts, vals, temps);
    vals' := vals1;
    var r1 := Eval(e.lhs, fuel, env);
    if r1.Val? {
      SimulatesVal(pl, m, r1, sc, vals1, temps, pc1);
      var m1 := Mach(pl, pc1, r1.env, vals1, temps + [r1.v]);
      LogicalRuns(pl, e.op, pc1, end, r1.v, r1.env, vals1, temps);
      if ShortCircuits(e.op, r1.v) {
        RunsSimulate(pl, m1, r1, sc, vals1, temps, end);
      } else {
        vals' := CompileExpr(pl, e.rhs, fuel, r1.env, sc, rhsPc, l.consts, vals1, temps);
        ThenSimulates(pl, m1, Mach(pl, rhsPc, r1.env, vals1, temps), Eval(e, fuel, env), sc, vals', temps, end);
      }
    }
    AfterOperand(pl, m, r1, sc, vals1, temps, pc1, Eval(e, fuel, env), vals', temps, end);
  }

  lemma {:induction false} CompileIf(pl: Place, e: Expr, fuel: nat, env: Env, sc: Scope, pc: nat,
                                     consts: Pool, vals: seq<Value>, temps: seq<Value>)
    returns (vals': seq<Value>)
    requires e.If? && Matches(pl, env, sc, vals) && Loaded(pl, pc, Gen(e, sc, pc, consts))
    requires Compilable(e, |sc.locals|, temps == []) && pl.budget <= fuel
    ensures Simulates(pl, Mach(pl, pc, env, vals, temps), Eval(e, fuel, env), sc, vals', temps,
                      After(pc, Gen(e, sc, pc, consts).bytes, 0))
    decreases fuel, e, 0
  {
    hide *;
    MatchesNonempty(pl, env, sc, vals);
    GenIf(e, sc, pc, consts);
    EvalIf(e, fuel, env);
    CompilableIf(e, |sc.locals|, temps == []);
    var c := Gen(e.cond, sc, pc, consts);
    var thnPc := After(pc, c.bytes, 3);
    var t := Gen(e.thn, sc, thnPc, c.consts);
    var elsPc := After(thnPc, t.bytes, 3);
    var f := GenOption(e.els, sc, elsPc, t.consts);
    IfParts(pl, pc, c, t, f);
    var pc1, pc2, end := After(pc, c.bytes, 0), After(thnPc, t.bytes, 0), After(elsPc, f.bytes, 0);
    var vals1 := CompileExpr(pl, e.cond, fuel, env, sc, pc, consts, vals, temps);
    vals' := vals1;
    var r1 := Eval(e.cond, fuel, env);
    if r1.Val? {
      SimulatesVal(pl, Mach(pl, pc, env, vals, temps), r1, sc, vals1, temps, pc1);
      var m1 := Mach(pl, pc1, r1.env, vals1, temps + [r1.v]);
      BranchRuns(pl, pc1, JumpIfFalse, elsPc, r1.v, r1.env, vals1, temps);
      if Truthy(r1.v) {
        vals' := CompileExpr(pl, e.thn, fuel, r1.env, sc, thnPc, c.consts, vals1, temps);
        JumpAfter(pl, Mach(pl, thnPc, r1.env, vals1, temps), Eval(e.thn, fuel, r1.env), sc, vals', temps, pc2, end);
        ThenSimulates(pl, m1, Mach(pl, thnPc, r1.env, vals1, temps), Eval(e, fuel, env), sc, vals', temps, end);
      } else {
        vals' := CompileOption(pl, e.els, fuel, r1.env, sc, elsPc, t.consts, vals1, temps);
        ThenSimulates(pl, m1, Mach(pl, elsPc, r1.env, vals1, temps), Eval(e, fuel, env), sc, vals', temps, end);
      }
    }
    AfterOperand(pl, Mach(pl, pc, env, vals, temps), r1, sc, vals1, temps, pc1,
                 Eval(e, fuel, env), vals', temps, end);
  }

  lemma {:induction false} CompileOption(pl: Place, e: Option<Expr>, fuel: nat, env: Env, sc: Scope, pc: nat,
                                         consts: Pool, vals: seq<Value>, temps: seq<Value>)
    returns (vals': seq<Value>)
    requires Matches(pl, env, sc, vals) && Loaded(pl, pc, GenOption(e, sc, pc, consts))
    requires CompilableOption(e, |sc.locals|, temps == []) && pl.budget <= fuel
    ensures Simulates(pl, Mach(pl, pc, env, vals, temps), EvalOption(e, fuel, env), sc, vals', temps,
                      After(pc, GenOption(e, sc, pc, consts).bytes, 0))
    decreases fuel, e, 2
  {
    hide Runs, Represents, At, Gen, Compilable, Eval;
    MatchesNonempty(pl, env, sc, vals);
    match e
    case None =>
      vals' := vals;
      ConstRuns(pl, pc, Nil, env, vals, temps, consts);
    case Some(e1) =>
      vals' := CompileExpr(pl, e1, fuel, env, sc, pc, consts, vals, temps);
  }

  lemma {:induction false} CompileAssign(pl: Place, e: Expr, fuel: nat, env: Env, sc: Scope, pc: nat,
                                         consts: Pool, vals: seq<Value>, temps: seq<Value>)
    returns (vals': seq<Value>)
    requires e.Assign? && Matches(pl, env, sc, vals) && Loaded(pl, pc, Gen(e, sc, pc, consts))
    requires Compilable(e, |sc.locals|, temps == []) && pl.budget <= fuel
    ensures Simulates(pl, Mach(pl, pc, env, vals, temps), Eval(e, fuel, env), sc, vals', temps,
                      After(pc, Gen(e, sc, pc, consts).bytes, 0))
    decreases fuel, e, 0
  {
    hide *;
    MatchesNonempty(pl, env, sc, vals);
    GenAssign(e, sc, pc, consts);
    EvalAssign(e, fuel, env);
    CompilableAssign(e, |sc.locals|, temps == []);
    var c := Gen(e.e, sc, pc, consts);
    var st := Store(sc, e.x, c.consts);
    AccessWidth(sc, e.x, pc, consts, c.consts);
    AssignParts(pl, pc, c, st);
    var pc1 := After(pc, c.bytes, 0);
    vals' := CompileExpr(pl, e.e, fuel, env, sc, pc, consts, vals, temps);
    var vals1 := vals';
    var r := Eval(e.e, fuel, env);
    if r.Val? {
      SimulatesVal(pl, Mach(pl, pc, env, vals, temps), r, sc, vals', temps, pc1);
      vals' := StoreRuns(pl, pc1, e.x, r.v, r.env, sc, vals1, temps, c.consts);
    }
    AfterOperand(pl, Mach(pl, pc, env, vals, temps), r, sc, vals1, temps, pc1,
                 Eval(e, fuel, env), vals', temps, pc1 + 3);
  }

  lemma AccessWidth(sc: Scope, x: string, pc: nat, a: Pool, b: Pool)
    ensures |Load(sc, x, a).bytes| == |Store(sc, x, b).bytes| == 2
    ensures After(pc, Load(sc, x, a).bytes, 0) == pc + 2
  {
  }

  lemma {:induction false} CompileCompound(pl: Place, e: Expr, fuel: nat, env: Env, sc: Scope, pc: nat,
                                           consts: Pool, vals: seq<Value>, temps: seq<Value>)
    returns (vals': seq<Value>)
    requires e.Compound? && Matches(pl, env, sc, vals) && Loaded(pl, pc, Gen(e, sc, pc, consts))
    requires Compilable(e, |sc.locals|, temps == []) && pl.budget <= fuel
    ensures Simulates(pl, Mach(pl, pc, env, vals, temps), Eval(e, fuel, env), sc, vals', temps,
                      After(pc, Gen(e, sc, pc, consts).bytes, 0))
    decreases fuel, e, 0
  {
    hide *;
    MatchesNonempty(pl, env, sc, vals);
    GenCompound(e, sc, pc, consts);
    EvalCompound(e, fuel, env);
    CompilableCompound(e, |sc.locals|, temps == []);
    var ld := Load(sc, e.x, consts);
    var pc1 := After(pc, ld.bytes, 0);
    var c := Gen(e.e, sc, pc1, ld.consts);
    var st := Store(sc, e.x, c.consts);
    AccessWidth(sc, e.x, pc, consts, c.consts);
    CompoundParts(pl, pc, ld, c, st, e.op);
    LoadRuns(pl, pc, e.x, env, sc, vals, temps, consts);
    vals' := vals;
    var cur := Get(env, e.x);
    var r1 := if cur.Some? then Val(cur.value, env) else Fail(NameError);
    if cur.Some? {
      CompoundResultIs(e, fuel, env);
      vals' := CompileRest(pl, e, fuel, env, sc, pc1, ld.consts, vals, temps, cur.value);
    }
    AfterOperand(pl, Mach(pl, pc, env, vals, temps), r1, sc, vals, temps, pc1,
                 Eval(e, fuel, env), vals', temps, After(pc1, c.bytes, 0) + 4);
  }

  /** What a compound assignment does once the current value is on the stack. */
  function CompoundResult(e: Expr, fuel: nat, env: Env, cur: Value): Evaluation
    requires e.Compound? && env != []
  {
    var r := Eval(e.e, fuel, env);
    if !r.Val? then r
    else
      match ApplyBinOp(e.op, cur, r.v)
      case Err(err) => Fail(err)
      case Ok(v) => AssignResult(r.env, e.x, v)
  }

  lemma CompoundResultIs(e: Expr, fuel: nat, env: Env)
    requires e.Compound? && env != [] && Get(env, e.x).Some?
    ensures Eval(e, fuel, env) == CompoundResult(e, fuel, env, Get(env, e.x).value)
  {
    EvalCompound(e, fuel, env);
    hide Eval, Get, ApplyBinOp, AssignResult;
  }

  lemma CompoundResultStep(e: Expr, fuel: nat, env: Env, cur: Value)
    requires e.Compound? && env != []
    ensures var r, all := Eval(e.e, fuel, env), CompoundResult(e, fuel, env, cur);
            if !r.Val? then all == r
            else
              var r2 := FromOp(ApplyBinOp(e.op, cur, r.v), r.env);
              if r2.Val? then r2.env == r.env && all == AssignResult(r.env, e.x, r2.v) else all == r2
  {
    hide Eval, ApplyBinOp, AssignResult;
  }

  lemma {:induction false} CompileRest(pl: Place, e: Expr, fuel: nat, env: Env, sc: Scope, pc1: nat,
                                       consts: Pool, vals: seq<Value>, temps: seq<Value>, cur: Value)
    returns (vals': seq<Value>)
    requires e.Compound? && Matches(pl, env, sc, vals) && e.op !in {And, Or} && Compilable(e.e, |sc.locals|, false)
    requires e.x != SCRUTINEE && pl.budget <= fuel
    requires var c := Gen(e.e, sc, pc1, consts);
             var st := Store(sc, e.x, c.consts);
             var pc2 := After(pc1, c.bytes, 0);
             && Loaded(pl, pc1, c)
             && At(pl.chunk.code, pc2, Plain(Strict(e.op)))
             && Loaded(pl, pc2 + 1, Code(st.bytes + Plain(PushNil), st.consts))
    ensures env != []
    ensures Simulates(pl, Mach(pl, pc1, env, vals, temps + [cur]), CompoundResult(e, fuel, env, cur), sc, vals', temps,
                      After(pc1, Gen(e.e, sc, pc1, consts).bytes, 0) + 4)
    decreases fuel, e.e, 3
  {
    hide *;
    MatchesNonempty(pl, env, sc, vals);
    var c := Gen(e.e, sc, pc1, consts);
    var pc2 := After(pc1, c.bytes, 0);
    var m, temps1 := Mach(pl, pc1, env, vals, temps + [cur]), temps + [cur];
    var vals1 := CompileExpr(pl, e.e, fuel, env, sc, pc1, consts, vals, temps1);
    vals' := vals1;
    var r, all := Eval(e.e, fuel, env), CompoundResult(e, fuel, env, cur);
    CompoundResultStep(e, fuel, env, cur);
    if r.Val? {
      SimulatesVal(pl, m, r, sc, vals1, temps1, pc2);
      StrictRuns(pl, pc2, e.op, cur, r.v, r.env, sc, vals1, temps);
      var r2 := FromOp(ApplyBinOp(e.op, cur, r.v), r.env);
      if r2.Val? {
        vals' := StoreRuns(pl, pc2 + 1, e.x, r2.v, r.env, sc, vals1, temps, c.consts);
      }
      AfterOperand(pl, Mach(pl, pc2, r.env, vals1, temps1 + [r.v]), r2, sc, vals1, temps, pc2 + 1,
                   all, vals', temps, pc2 + 4);
    }
    AfterOperand(pl, m, r, sc, vals1, temps1, pc2, all, vals', temps, pc2 + 4);
  }

  // ----- blocks and statements -----

  lemma {:induction false} CompileStmt(pl: Place, s: Stmt, fuel: nat, env: Env, sc: Scope, pc: nat,
                                       consts: Pool, vals: seq<Value>, temps: seq<Value>)
    returns (vals': seq<Value>)
    requires Matches(pl, env, sc, vals) && Loaded(pl, pc, GenStmt(s, sc, pc, consts).0)
    requires CompilableStmt(s, |sc.locals|, temps == [], sc.depth == 0)
    requires pl.budget <= fuel && (sc.depth == 0 ==> sc.locals == [])
    ensures env != []
    ensures Reaches(pl, Mach(pl, pc, env, vals, temps), EvalStmt(s, fuel, env), GenStmt(s, sc, pc, consts).1, vals',
                    temps, After(pc, GenStmt(s, sc, pc, consts).0.bytes, 0))
    decreases fuel, s, 2
  {
    hide *;
    MatchesNonempty(pl, env, sc, vals);
    StmtParts(pl, s, fuel, env, sc, pc, consts, temps == []);
    var c := Gen(s.e, sc, pc, consts);
    var pc1, m := After(pc, c.bytes, 0), Mach(pl, pc, env, vals, temps);
    vals' := CompileExpr(pl, s.e, fuel, env, sc, pc, consts, vals, temps);
    var r := Eval(s.e, fuel, env);
    if s.ExprStmt? {
      PopAfter(pl, m, r, sc, vals', temps, pc1);
    } else if sc.depth == 0 {
      GlobalAfter(pl, m, r, sc, vals', temps, pc1, s.x, ConstIndex(c.consts, Str(s.x)));
    } else {
      LetAfter(pl, m, r, sc, vals', pc1, s.x);
      if r.Val? {
        vals' := vals' + [r.v];
      }
    }
  }

  /** Where the parts of a statement are, and what it evaluates to. */
  lemma StmtParts(pl: Place, s: Stmt, fuel: nat, env: Env, sc: Scope, pc: nat, consts: Pool, clear: bool)
    requires env != [] && Loaded(pl, pc, GenStmt(s, sc, pc, consts).0)
    requires CompilableStmt(s, |sc.locals|, clear, sc.depth == 0)
    ensures var c := Gen(s.e, sc, pc, consts);
            var pc1, end := After(pc, c.bytes, 0), After(pc, GenStmt(s, sc, pc, consts).0.bytes, 0);
            var sc', r := GenStmt(s, sc, pc, consts).1, Eval(s.e, fuel, env);
            && Loaded(pl, pc, c) && Compilable(s.e, |sc.locals|, clear) && (s.Let? ==> s.x != SCRUTINEE)
            && EvalStmt(s, fuel, env) == (if s.Let? && r.Val? then Val(Nil, Define(r.env, s.x, r.v)) else r)
            && if s.ExprStmt? then
                 sc' == sc && At(pl.chunk.code, pc1, Plain(Pop)) && end == pc1 + 1
               else if sc.depth == 0 then
                 var i := ConstIndex(c.consts, Str(s.x));
                 && sc' == sc && i < 256 && i < |pl.chunk.consts.values| && pl.chunk.consts.values[i] == Str(s.x)
                 && At(pl.chunk.code, pc1, WithByte(DefineGlobal, i)) && end == pc1 + 2
               else
                 && clear && |sc.locals| < 255
                 && sc' == Scope(sc.locals + [Local(s.x, sc.depth)], sc.depth)
                 && At(pl.chunk.code, pc1, WithByte(StoreLocal, |sc.locals|)) && end == pc1 + 2
  {
    hide *;
    StmtUnfolds(s, fuel, env, sc, pc, consts, clear);
    var c, all := Gen(s.e, sc, pc, consts), GenStmt(s, sc, pc, consts);
    if s.ExprStmt? {
      TailParts(pl, pc, c, Plain(Pop), all.0);
    } else if sc.depth == 0 {
      var i := ConstIndex(c.consts, Str(s.x));
      TailParts(pl, pc, c, WithByte(DefineGlobal, i), all.0);
      PoolHolds(pl, pc, all.0, c.consts, Str(s.x));
    } else {
      TailParts(pl, pc, c, WithByte(StoreLocal, |sc.locals|), all.0);
    }
  }

  /** A constant that was added to the pool is in the chunk's pool. */
  lemma PoolHolds(pl: Place, pc: nat, c: Code, before: Pool, v: Value)
    requires Loaded(pl, pc, c) && c.consts == AddConst(before, v)
    ensures var i := ConstIndex(before, v);
            i < 256 && i < |pl.chunk.consts.values| && pl.chunk.consts.values[i] == v
  {
    hide ConstIndex, At;
  }

  lemma StmtUnfolds(s: Stmt, fuel: nat, env: Env, sc: Scope, pc: nat, consts: Pool, clear: bool)
    requires env != [] && CompilableStmt(s, |sc.locals|, clear, sc.depth == 0)
    ensures var c, all := Gen(s.e, sc, pc, consts), GenStmt(s, sc, pc, consts);
            var r := Eval(s.e, fuel, env);
            && Compilable(s.e, |sc.locals|, clear) && (s.Let? ==> s.x != SCRUTINEE)
            && Extends(c.consts, all.0.consts)
            && (s.Let? && r.Val? ==> r.env != [])
            && EvalStmt(s, fuel, env) == (if s.Let? && r.Val? then Val(Nil, Define(r.env, s.x, r.v)) else r)
            && if s.ExprStmt? then
                 all == (Code(Join3(c.bytes, Plain(Pop), []), c.consts), sc) && |Plain(Pop)| == 1
               else if sc.depth == 0 then
                 var i := ConstIndex(c.consts, Str(s.x));
                 && all == (Code(Join3(c.bytes, WithByte(DefineGlobal, i), []), AddConst(c.consts, Str(s.x))), sc)
                 && |WithByte(DefineGlobal, i)| == 2
               else
                 && clear && |sc.locals| < 255
                 && all == (Code(Join3(c.bytes, WithByte(StoreLocal, |sc.locals|), []), c.consts),
                            Scope(sc.locals + [Local(s.x, sc.depth)], sc.depth))
                 && |WithByte(StoreLocal, |sc.locals|)| == 2
  {
    hide Gen, Compilable, Eval, ConstIndex, Define, Join3, AddConst, OpByte;
    assert Extends(Gen(s.e, sc, pc, consts).consts, Gen(s.e, sc, pc, consts).consts);
  }

  lemma {:induction false} CompileStmts(pl: Place, stmts: seq<Stmt>, fuel: nat, env: Env, sc: Scope, pc: nat,
                                        consts: Pool, vals: seq<Value>, temps: seq<Value>)
    returns (vals': seq<Value>)
    requires Matches(pl, env, sc, vals) && Loaded(pl, pc, GenStmts(stmts, sc, pc, consts).0)
    requires CompilableStmts(stmts, |sc.locals|, temps == [], sc.depth == 0)
    requires pl.budget <= fuel && (sc.depth == 0 ==> sc.locals == [])
    ensures env != []
    ensures Reaches(pl, Mach(pl, pc, env, vals, temps), EvalStmts(stmts, fuel, env),
                    GenStmts(stmts, sc, pc, consts).1, vals', temps,
                    After(pc, GenStmts(stmts, sc, pc, consts).0.bytes, 0))
    decreases fuel, stmts, 1
  {
    MatchesNonempty(pl, env, sc, vals);
    vals' := vals;
    if stmts == [] {
      hide Represents;
      Machine.RunsHere(pl.chunk, |pl.under|, Mach(pl, pc, env, vals, temps));
    } else {
      vals' := CompileStmtsStep(pl, stmts, fuel, env, sc, pc, consts, vals, temps);
    }
  }

  lemma {:induction false} CompileStmtsStep(pl: Place, stmts: seq<Stmt>, fuel: nat, env: Env, sc: Scope, pc: nat,
                                            consts: Pool, vals: seq<Value>, temps: seq<Value>)
    returns (vals': seq<Value>)
    requires stmts != []
    requires Matches(pl, env, sc, vals) && Loaded(pl, pc, GenStmts(stmts, sc, pc, consts).0)
    requires CompilableStmts(stmts, |sc.locals|, temps == [], sc.depth == 0)
    requires pl.budget <= fuel && (sc.depth == 0 ==> sc.locals == [])
    ensures env != []
    ensures Reaches(pl, Mach(pl, pc, env, vals, temps), EvalStmts(stmts, fuel, env),
                    GenStmts(stmts, sc, pc, consts).1, vals', temps,
                    After(pc, GenStmts(stmts, sc, pc, consts).0.bytes, 0))
    decreases fuel, stmts, 0
  {
    hide *;
    MatchesNonempty(pl, env, sc, vals);
    GenStmtsStep(stmts, sc, pc, consts);
    EvalStmtsStep(stmts, fuel, env);
    StmtLocals(stmts, |sc.locals|, temps == [], sc, pc, consts);
    var first := GenStmt(stmts[0], sc, pc, consts);
    var pc1 := After(pc, first.0.bytes, 0);
    var rest := GenStmts(stmts[1..], first.1, pc1, first.0.consts);
    SequenceParts(pl, pc, first.0, rest.0);
    var m := Mach(pl, pc, env, vals, temps);
    vals' := CompileStmt(pl, stmts[0], fuel, env, sc, pc, consts, vals, temps);
    var r := EvalStmt(stmts[0], fuel, env);
    if r.Val? {
      ReachesVal(pl, m, r, first.1, vals', temps, pc1);
      var mid := Mach(pl, pc1, r.env, vals', temps);
      vals' := CompileStmts(pl, stmts[1..], fuel, r.env, first.1, pc1, first.0.consts, vals', temps);
      ThenReaches(pl, m, mid, EvalStmts(stmts, fuel, env), rest.1, vals', temps, After(pc1, rest.0.bytes, 0));
    } else {
      ReachesElsewhere(pl, m, r, first.1, vals', temps, pc1, rest.1, After(pc1, rest.0.bytes, 0));
    }
  }

  lemma StmtLocals(stmts: seq<Stmt>, n: nat, clear: bool, sc: Scope, pc: nat, consts: Pool)
    requires stmts != [] && n == |sc.locals| && CompilableStmts(stmts, n, clear, sc.depth == 0)
    ensures var first := GenStmt(stmts[0], sc, pc, consts);
            && CompilableStmt(stmts[0], n, clear, sc.depth == 0)
            && first.1.depth == sc.depth
            && CompilableStmts(stmts[1..], |first.1.locals|, clear, first.1.depth == 0)
            && (sc.depth == 0 ==> first.1 == sc)
  {
    hide Gen, Compilable;
  }

  lemma {:induction false} CompileBlock(pl: Place, e: Expr, fuel: nat, env: Env, sc: Scope, pc: nat,
                                        consts: Pool, vals: seq<Value>, temps: seq<Value>)
    returns (vals': seq<Value>)
    requires e.Block? && Matches(pl, env, sc, vals) && Loaded(pl, pc, Gen(e, sc, pc, consts))
    requires Compilable(e, |sc.locals|, temps == []) && pl.budget <= fuel
    ensures Simulates(pl, Mach(pl, pc, env, vals, temps), Eval(e, fuel, env), sc, vals', temps,
                      After(pc, Gen(e, sc, pc, consts).bytes, 0))
    decreases fuel, e, 0
  {
    hide *;
    MatchesNonempty(pl, env, sc, vals);
    BlockUnfolds(pl, e, fuel, env, sc, pc, consts, vals, temps);
    var sc0, env0 := Scope(sc.locals, sc.depth + 1), env + [map[]];
    var (b, inner) := GenStmts(e.stmts, sc0, pc, consts);
    var pc1 := After(pc, b.bytes, 0);
    var t := GenOption(e.tail, inner, pc1, b.consts);
    var pc2 := After(pc1, t.bytes, 0);
    var m := Mach(pl, pc, env, vals, temps);
    var vals1 := CompileStmts(pl, e.stmts, fuel, env0, sc0, pc, consts, vals, temps);
    vals' := vals1;
    var r1 := EvalStmts(e.stmts, fuel, env0);
    if r1.Val? {
      ReachesVal(pl, m, r1, inner, vals1, temps, pc1);
      var mid := Mach(pl, pc1, r1.env, vals1, temps);
      var vals2 := CompileOption(pl, e.tail, fuel, r1.env, inner, pc1, b.consts, vals1, temps);
      var r2 := EvalOption(e.tail, fuel, r1.env);
      ThenSimulates(pl, m, mid, r2, inner, vals2, temps, pc2);
      DropAfter(pl, m, r2, inner, sc, vals2, temps, pc2);
      vals' := if r2.Val? then vals2[..|sc.locals|] else vals2;
    } else {
      Failing(pl, m, r1, inner, vals1, temps, pc1, sc, After(pc, Gen(e, sc, pc, consts).bytes, 0));
    }
  }

  /** The state in which a block's statements start, where its parts are, and what it evaluates to. */
  lemma BlockUnfolds(pl: Place, e: Expr, fuel: nat, env: Env, sc: Scope, pc: nat, consts: Pool,
                     vals: seq<Value>, temps: seq<Value>)
    requires e.Block? && Matches(pl, env, sc, vals) && env != [] && Loaded(pl, pc, Gen(e, sc, pc, consts))
    requires Compilable(e, |sc.locals|, temps == [])
    ensures var sc0, env0 := Scope(sc.locals, sc.depth + 1), env + [map[]];
            var (b, inner) := GenStmts(e.stmts, sc0, pc, consts);
            var pc1 := After(pc, b.bytes, 0);
            var t := GenOption(e.tail, inner, pc1, b.consts);
            var pc2, n := After(pc1, t.bytes, 0), |inner.locals| - |sc.locals|;
            var r1 := EvalStmts(e.stmts, fuel, env0);
            && Matches(pl, env0, sc0, vals) && Mach(pl, pc, env0, vals, temps) == Mach(pl, pc, env, vals, temps)
            && CompilableStmts(e.stmts, |sc.locals|, temps == [], false) && sc0.depth != 0
            && CompilableOption(e.tail, |inner.locals|, temps == [])
            && Grows(sc0, inner) && n >= 0 && (n > 0 ==> temps == [])
            && (forall k :: |sc.locals| <= k < |inner.locals| ==> inner.locals[k].name != SCRUTINEE)
            && (forall k :: 0 <= k < |sc.locals| ==> sc.locals[k].depth <= sc.depth)
            && Loaded(pl, pc, b) && Loaded(pl, pc1, t) && At(pl.chunk.code, pc2, DropLocals(n))
            && After(pc, Gen(e, sc, pc, consts).bytes, 0) == pc2 + |DropLocals(n)|
            && Eval(e, fuel, env) ==
                 if !r1.Val? then r1
                 else
                   var r2 := EvalOption(e.tail, fuel, r1.env);
                   if r2.Val? then Val(r2.v, r2.env[..|r2.env| - 1]) else r2
  {
    BlockStarts(pl, pc, env, sc, vals, temps);
    hide *;
    BlockResult(e, fuel, env);
    BlockPlaces(pl, e, sc, pc, consts, temps == []);
  }

  lemma BlockResult(e: Expr, fuel: nat, env: Env)
    requires e.Block? && env != []
    ensures var r1 := EvalStmts(e.stmts, fuel, env + [map[]]);
            Eval(e, fuel, env) ==
              if !r1.Val? then r1
              else
                var r2 := EvalOption(e.tail, fuel, r1.env);
                if r2.Val? then Val(r2.v, r2.env[..|r2.env| - 1]) else r2
  {
    hide *;
    EvalBlock(e, fuel, env);
  }

  lemma BlockPlaces(pl: Place, e: Expr, sc: Scope, pc: nat, consts: Pool, clear: bool)
    requires e.Block? && Loaded(pl, pc, Gen(e, sc, pc, consts)) && Compilable(e, |sc.locals|, clear)
    ensures var sc0 := Scope(sc.locals, sc.depth + 1);
            var (b, inner) := GenStmts(e.stmts, sc0, pc, consts);
            var pc1 := After(pc, b.bytes, 0);
            var t := GenOption(e.tail, inner, pc1, b.consts);
            var pc2, n := After(pc1, t.bytes, 0), |inner.locals| - |sc.locals|;
            && CompilableStmts(e.stmts, |sc.locals|, clear, false) && sc0.depth != 0
            && CompilableOption(e.tail, |inner.locals|, clear)
            && Grows(sc0, inner) && n >= 0 && (n > 0 ==> clear)
            && (forall k :: |sc.locals| <= k < |inner.locals| ==> inner.locals[k].name != SCRUTINEE)
            && Loaded(pl, pc, b) && Loaded(pl, pc1, t) && At(pl.chunk.code, pc2, DropLocals(n))
            && After(pc, Gen(e, sc, pc, consts).bytes, 0) == pc2 + |DropLocals(n)|
  {
    hide *;
    GenBlock(e, sc, pc, consts);
    CompilableBlock(e, |sc.locals|, clear);
    var sc0 := Scope(sc.locals, sc.depth + 1);
    var (b, inner) := GenStmts(e.stmts, sc0, pc, consts);
    BlockLocals(e.stmts, |sc.locals|, clear, sc0, pc, consts);
    var t := GenOption(e.tail, inner, After(pc, b.bytes, 0), b.consts);
    BlockParts(pl, pc, b, t, |inner.locals| - |sc.locals|);
  }

  lemma BlockStarts(pl: Place, pc: nat, env: Env, sc: Scope, vals: seq<Value>, temps: seq<Value>)
    requires Matches(pl, env, sc, vals) && env != []
    ensures Matches(pl, env + [map[]], Scope(sc.locals, sc.depth + 1), vals)
    ensures Mach(pl, pc, env + [map[]], vals, temps) == Mach(pl, pc, env, vals, temps)
    ensures forall k :: 0 <= k < |sc.locals| ==> sc.locals[k].depth <= sc.depth
  {
    SameLength(env, sc.locals, sc.depth, vals);
    EnterBlock(env, sc.locals, sc.depth, vals);
    DepthsBounded(env, sc.locals, sc.depth, vals);
    hide Represents;
  }

  // ----- loops -----

  /** From the loop's start to its exit, any number of times around. */
  lemma {:induction false} CompileLoop(pl: Place, e: Expr, fuel: nat, env: Env, sc: Scope, start: nat,
                                       consts: Pool, vals: seq<Value>, temps: seq<Value>)
    returns (vals': seq<Value>)
    requires e.While? && Matches(pl, env, sc, vals)
    requires Compilable(e.cond, |sc.locals|, temps == []) && Compilable(e.body, |sc.locals|, temps == [])
    requires pl.budget == 0 || pl.budget < fuel
    requires var c := Gen(e.cond, sc, start, consts);
             var bodyPc := After(start, c.bytes, 3);
             var b := Gen(e.body, sc, bodyPc, c.consts);
             LoopLoaded(pl, start, c, b)
    ensures var c := Gen(e.cond, sc, start, consts);
            var bodyPc := After(start, c.bytes, 3);
            var exit := After(bodyPc, Gen(e.body, sc, bodyPc, c.consts).bytes, 4);
            && env != []
            && Reaches(pl, Mach(pl, start, env, vals, temps), Eval(e, fuel, env), sc, vals', temps, exit)
    decreases fuel, e, 0
  {
    hide *;
    MatchesNonempty(pl, env, sc, vals);
    EvalWhile(e, fuel, env);
    var c := Gen(e.cond, sc, start, consts);
    var bodyPc := After(start, c.bytes, 3);
    var b := Gen(e.body, sc, bodyPc, c.consts);
    LoopParts(pl, start, c, b);
    var exit, condEnd := After(bodyPc, b.bytes, 4), After(start, c.bytes, 0);
    var m, all := Mach(pl, start, env, vals, temps), Eval(e, fuel, env);
    vals' := vals;
    if fuel == 0 {
      NoFuelReaches(pl, m, sc, vals', temps, exit);
    } else {
      vals' := CompileExpr(pl, e.cond, fuel - 1, env, sc, start, consts, vals, temps);
      var r1 := Eval(e.cond, fuel - 1, env);
      if r1.Val? {
        SimulatesVal(pl, m, r1, sc, vals', temps, condEnd);
        BranchRuns(pl, condEnd, JumpIfFalse, exit, r1.v, r1.env, vals', temps);
        var mid := Mach(pl, if Truthy(r1.v) then bodyPc else exit, r1.env, vals', temps);
        Then(pl, m, Mach(pl, condEnd, r1.env, vals', temps + [r1.v]), Machine.Running(mid));
        if Truthy(r1.v) {
          vals' := CompileAround(pl, e, fuel - 1, r1.env, sc, start, consts, vals', temps);
          ThenReaches(pl, m, mid, all, sc, vals', temps, exit);
        } else {
          RunsReach(pl, m, all, sc, vals', temps, exit);
        }
      } else {
        FailingReaches(pl, m, r1, sc, vals', temps, condEnd, exit);
      }
    }
  }

  /** The body once, back to the start, and the rest of the loop. */
  lemma {:induction false} CompileAround(pl: Place, e: Expr, fuel: nat, env: Env, sc: Scope, start: nat,
                                         consts: Pool, vals: seq<Value>, temps: seq<Value>)
    returns (vals': seq<Value>)
    requires e.While? && Matches(pl, env, sc, vals)
    requires Compilable(e.cond, |sc.locals|, temps == []) && Compilable(e.body, |sc.locals|, temps == [])
    requires pl.budget <= fuel
    requires var c := Gen(e.cond, sc, start, consts);
             var bodyPc := After(start, c.bytes, 3);
             var b := Gen(e.body, sc, bodyPc, c.consts);
             LoopLoaded(pl, start, c, b)
    ensures var c := Gen(e.cond, sc, start, consts);
            var bodyPc := After(start, c.bytes, 3);
            var exit := After(bodyPc, Gen(e.body, sc, bodyPc, c.consts).bytes, 4);
            && env != []
            && var r2 := Eval(e.body, fuel, env);
               Reaches(pl, Mach(pl, bodyPc, env, vals, temps),
                       if r2.Val? then Eval(e, fuel, r2.env) else r2, sc, vals', temps, exit)
    decreases fuel, e, 1
  {
    hide *;
    MatchesNonempty(pl, env, sc, vals);
    var c := Gen(e.cond, sc, start, consts);
    var bodyPc := After(start, c.bytes, 3);
    var b := Gen(e.body, sc, bodyPc, c.consts);
    LoopParts(pl, start, c, b);
    var exit, bodyEnd := After(bodyPc, b.bytes, 4), After(bodyPc, b.bytes, 0);
    var m := Mach(pl, bodyPc, env, vals, temps);
    vals' := CompileExpr(pl, e.body, fuel, env, sc, bodyPc, c.consts, vals, temps);
    var r2 := Eval(e.body, fuel, env);
    PopAfter(pl, m, r2, sc, vals', temps, bodyEnd);
    if r2.Val? {
      ReachesVal(pl, m, r2, sc, vals', temps, bodyEnd + 1);
      var mid, back := Mach(pl, bodyEnd + 1, r2.env, vals', temps), Mach(pl, start, r2.env, vals', temps);
      JumpRuns(pl, bodyEnd + 1, Loop, start, r2.env, vals', temps);
      Then(pl, m, mid, Machine.Running(back));
      var pl1 := pl.(budget := Before(pl.budget));
      SamePlace(pl, pl1, start, c, b, env, r2.env, sc, vals, vals', temps);
      vals' := CompileLoop(pl1, e, fuel, r2.env, sc, start, consts, vals', temps);
      BackReaches(pl, pl1, m, back, Eval(e, fuel, r2.env), sc, vals', temps, exit);
    } else {
      ReachesElsewhere(pl, m, r2, sc, vals', temps, bodyEnd + 1, sc, exit);
    }
  }

  lemma {:induction false} CompileWhile(pl: Place, e: Expr, fuel: nat, env: Env, sc: Scope, pc: nat,
                                        consts: Pool, vals: seq<Value>, temps: seq<Value>)
    returns (vals': seq<Value>)
    requires e.While? && Matches(pl, env, sc, vals) && Loaded(pl, pc, Gen(e, sc, pc, consts))
    requires Compilable(e, |sc.locals|, temps == []) && pl.budget <= fuel
    ensures Simulates(pl, Mach(pl, pc, env, vals, temps), Eval(e, fuel, env), sc, vals', temps,
                      After(pc, Gen(e, sc, pc, consts).bytes, 0))
    decreases fuel, e, 1
  {
    hide *;
    MatchesNonempty(pl, env, sc, vals);
    GenWhile(e, sc, pc, consts);
    CompilableWhile(e, |sc.locals|, temps == []);
    WhileIsNil(e, fuel, env);
    var start := After(pc, [], 5);
    var c := Gen(e.cond, sc, start, consts);
    var bodyPc := After(start, c.bytes, 3);
    var b := Gen(e.body, sc, bodyPc, c.consts);
    var exit := After(bodyPc, b.bytes, 4);
    WhileParts(pl, pc, c, b);
    var handler := Machine.LoopHandler(start, exit + 5, |Mach(pl, pc, env, vals, temps).stack|);
    var pl1 := pl.(loops := pl.loops + [handler], budget := Before(pl.budget));
    WhileEnter(pl, pl1, pc, start, exit, env, vals, temps);
    LoopPlaced(pl, pl1, start, c, b);
    LoopMatches(pl, pl1, pc, start, env, sc, vals, temps);
    var m, m1 := Mach(pl, pc, env, vals, temps), Mach(pl1, start, env, vals, temps);
    vals' := CompileLoop(pl1, e, fuel, env, sc, start, consts, vals, temps);
    WhileLeave(pl, pl1, m, m1, Eval(e, fuel, env), sc, vals', temps, exit);
  }

  /** One turn less to go. */
  lemma SamePlace(pl: Place, pl1: Place, start: nat, c: Code, b: Code, env0: Env, env: Env, sc: Scope,
                  vals0: seq<Value>, vals: seq<Value>, temps: seq<Value>)
    requires env0 != []
    requires pl1 == pl.(budget := Before(pl.budget)) && LoopLoaded(pl, start, c, b) && Matches(pl, env, sc, vals)
    ensures LoopLoaded(pl1, start, c, b) && Matches(pl1, env, sc, vals) && env != []
    ensures Mach(pl1, start, env, vals, temps) == Mach(pl, start, env, vals, temps)
    ensures Mach(pl, After(start, c.bytes, 3), env0, vals0, temps) != Mach(pl, start, env, vals, temps)
    ensures pl1.budget == 0 || pl1.budget < pl.budget
  {
    LoopPlaced(pl, pl1, start, c, b);
    MatchesNonempty(pl, env, sc, vals);
    hide Represents, Hidden, LoopLoaded;
  }

  lemma LoopMatches(pl: Place, pl1: Place, pc: nat, start: nat, env: Env, sc: Scope, vals: seq<Value>,
                    temps: seq<Value>)
    requires Matches(pl, env, sc, vals) && env != [] && |pl1.loops| == |pl.loops| + 1
    requires pl1.loops[..|pl.loops|] == pl.loops
    requires pl1 == pl.(loops := pl1.loops, budget := Before(pl.budget))
    ensures Matches(pl1, env, sc, vals) && (pl1.budget == 0 || pl1.budget < pl.budget)
    ensures Mach(pl, pc, env, vals, temps) != Mach(pl1, start, env, vals, temps)
  {
    hide Represents, Hidden;
  }

  /** A finished loop evaluates to nil. */
  lemma {:induction false} WhileIsNil(e: Expr, fuel: nat, env: Env)
    requires e.While? && env != []
    ensures Eval(e, fuel, env).Val? ==> Eval(e, fuel, env).v == Nil
    decreases fuel
  {
    EvalWhile(e, fuel, env);
    if fuel > 0 {
      var r1 := Eval(e.cond, fuel - 1, env);
      if r1.Val? {
        var r2 := Eval(e.body, fuel - 1, r1.env);
        if r2.Val? {
          WhileIsNil(e, fuel - 1, r2.env);
        }
      }
    }
  }

  // ----- match -----

  lemma {:induction false} CompileMatch(pl: Place, e: Expr, fuel: nat, env: Env, sc: Scope, pc: nat,
                                        consts: Pool, vals: seq<Value>, temps: seq<Value>)
    returns (vals': seq<Value>)
    requires e.Match? && Matches(pl, env, sc, vals) && Loaded(pl, pc, Gen(e, sc, pc, consts))
    requires Compilable(e, |sc.locals|, temps == []) && pl.budget <= fuel
    ensures Simulates(pl, Mach(pl, pc, env, vals, temps), Eval(e, fuel, env), sc, vals', temps,
                      After(pc, Gen(e, sc, pc, consts).bytes, 0))
    decreases fuel, e, 0
  {
    hide *;
    MatchesNonempty(pl, env, sc, vals);
    GenMatch(e, sc, pc, consts);
    EvalMatch(e, fuel, env);
    CompilableMatch(e, |sc.locals|, temps == []);
    MatchesSmall(pl, env, sc, vals);
    var c := Gen(e.scrutinee, sc, pc, consts);
    var pc1, m := After(pc, c.bytes, 0), Mach(pl, pc, env, vals, temps);
    var a := GenArms(e.arms, WithScrutinee(sc), After(pc, c.bytes, 2), c.consts);
    GenArmsExtends(e.arms, WithScrutinee(sc), After(pc, c.bytes, 2), c.consts);
    MatchParts(pl, pc, c, |sc.locals|, a.0, a.1);
    var end, all := pc1 + 2 + ArmsWidth(a.0) + 1, Eval(e, fuel, env);
    var vals1 := CompileExpr(pl, e.scrutinee, fuel, env, sc, pc, consts, vals, temps);
    vals' := vals1;
    var r := Eval(e.scrutinee, fuel, env);
    if r.Val? {
      SimulatesVal(pl, m, r, sc, vals1, temps, pc1);
      ScrutineeStored(pl, pc1, r.env, vals1, r.v);
      var mid := Mach(pl, pc1 + 2, r.env, vals1, [r.v]);
      LoadedPool(pl, pc, Gen(e, sc, pc, consts));
      vals' := CompileArms(pl, e.arms, r.v, fuel, r.env, sc, pc1 + 2, c.consts, vals1, end);
      MatchDone(pl, mid, all, sc, vals', r.v, end);
      ThenSimulates(pl, Mach(pl, pc1, r.env, vals1, temps + [r.v]), mid, all, sc, vals', temps, end + 2);
    }
    AfterOperand(pl, m, r, sc, vals1, temps, pc1, all, vals', temps, end + 2);
  }

  lemma CompilableMatch(e: Expr, n: nat, clear: bool)
    requires e.Match? && Compilable(e, n, clear)
    ensures clear && Compilable(e.scrutinee, n, clear)
    ensures forall k :: 0 <= k < |e.arms| ==> CompilableArm(e.arms[k], n, true)
  {
    hide CompilableArm;
  }

  lemma MatchesSmall(pl: Place, env: Env, sc: Scope, vals: seq<Value>)
    requires Matches(pl, env, sc, vals) && |vals| == |sc.locals|
    ensures |sc.locals| <= 255 && Hidden(sc.locals, vals) == pl.hidden
  {
    hide Represents, Hidden;
  }

  lemma GenArmsExtends(arms: seq<Arm>, sc: Scope, pc: nat, consts: Pool)
    ensures Extends(consts, GenArms(arms, sc, pc, consts).1)
  {
    hide GenArm;
  }

  /** The chunk's pools hold what was compiled, and are small. */
  predicate Holds(pl: Place, consts: Pool) {
    && Extends(consts, pl.chunk.consts) && |pl.chunk.code| < 65536
    && |pl.chunk.consts.values| <= 256 && |pl.chunk.consts.patterns| <= 256
  }

  lemma LoadedPool(pl: Place, pc: nat, c: Code)
    requires Loaded(pl, pc, c)
    ensures Holds(pl, c.consts)
  {
    hide At, Extends;
  }

  lemma PoolLoaded(pl: Place, pc: nat, c: Code, all: Pool)
    requires Holds(pl, all) && Extends(c.consts, all) && At(pl.chunk.code, pc, c.bytes)
    ensures Loaded(pl, pc, c) && pc + |c.bytes| < 65536
  {
    hide *;
    HoldsLess(pl, c.consts, all);
    HoldsLoaded(pl, pc, c);
  }

  lemma HoldsLess(pl: Place, a: Pool, b: Pool)
    requires Holds(pl, b) && Extends(a, b)
    ensures Holds(pl, a)
  {
  }

  lemma HoldsLoaded(pl: Place, pc: nat, c: Code)
    requires Holds(pl, c.consts) && At(pl.chunk.code, pc, c.bytes)
    ensures Loaded(pl, pc, c) && pc + |c.bytes| < 65536
  {
    hide Extends;
  }

  /** From the test of the first arm to the end of the match, with what is matched above the locals. */
  lemma {:induction false} CompileArms(pl: Place, arms: seq<Arm>, v: Value, fuel: nat, env: Env, sc: Scope, pc: nat,
                                       consts: Pool, vals: seq<Value>, end: nat)
    returns (vals': seq<Value>)
    requires Matches(pl, env, sc, vals) && env != [] && pl.budget <= fuel
    requires forall k :: 0 <= k < |arms| ==> CompilableArm(arms[k], |sc.locals|, true)
    requires var a := GenArms(arms, WithScrutinee(sc), pc, consts);
             && At(pl.chunk.code, pc, JoinArms(|sc.locals|, a.0, pc, end)) && Holds(pl, a.1)
             && pc + ArmsWidth(a.0) < end < 65536
    ensures Simulates(pl, Mach(pl, pc, env, vals, [v]), EvalArms(arms, v, fuel, env), sc, vals', [v], end)
    decreases fuel, arms, 3
  {
    hide *;
    vals' := vals;
    if arms == [] {
      NoArms(pl, v, fuel, env, Mach(pl, pc, env, vals, [v]), sc, vals, end);
    } else {
      vals' := CompileArm(pl, arms, v, fuel, env, sc, pc, consts, vals, end);
    }
  }

  lemma NoArms(pl: Place, v: Value, fuel: nat, env: Env, m: Machine.Vm, sc: Scope, vals: seq<Value>, end: nat)
    requires env != []
    ensures Simulates(pl, m, EvalArms([], v, fuel, env), sc, vals, [v], end)
  {
    hide Runs, RunsOn, Matches;
  }

  lemma {:induction false} CompileArm(pl: Place, arms: seq<Arm>, v: Value, fuel: nat, env: Env, sc: Scope, pc: nat,
                                      consts: Pool, vals: seq<Value>, end: nat)
    returns (vals': seq<Value>)
    requires arms != [] && Matches(pl, env, sc, vals) && env != [] && pl.budget <= fuel
    requires forall k :: 0 <= k < |arms| ==> CompilableArm(arms[k], |sc.locals|, true)
    requires var a := GenArms(arms, WithScrutinee(sc), pc, consts);
             && At(pl.chunk.code, pc, JoinArms(|sc.locals|, a.0, pc, end)) && Holds(pl, a.1)
             && pc + ArmsWidth(a.0) < end < 65536
    ensures Simulates(pl, Mach(pl, pc, env, vals, [v]), EvalArms(arms, v, fuel, env), sc, vals', [v], end)
    decreases fuel, arms, 2
  {
    hide *;
    MatchesNonempty(pl, env, sc, vals);
    MatchesSmall(pl, env, sc, vals);
    ArmsPlaced(pl, arms, sc, pc, consts, |vals|, end);
    EvalArmsStep(arms, v, fuel, env);
    var arm, a := arms[0], GenArm(arms[0], WithScrutinee(sc), pc, consts).0;
    var p, consts1 := arm.pattern, GenArm(arm, WithScrutinee(sc), pc, consts).1;
    var next, m := pc + ArmWidth(a), Mach(pl, pc, env, vals, [v]);
    Patterns.TreeMeets(p, v, map[]);
    Patterns.VmMeets(p, v, []);
    CompilableParts(arm, |sc.locals|, true);
    if Patterns.MatchTree(p, v, map[]).0 {
      vals' := CompileMatched(pl, arms, v, fuel, env, sc, pc, consts, vals, end);
    } else {
      ArmSkipped(pl, a, p, pc, end, env, vals, v);
      vals' := CompileArms(pl, arms[1..], v, fuel, env, sc, next, consts1, vals, end);
      ThenSimulates(pl, m, Mach(pl, next, env, vals, [v]), EvalArms(arms, v, fuel, env), sc, vals', [v], end);
    }
  }

  lemma CompilableParts(arm: Arm, n: nat, clear: bool)
    requires CompilableArm(arm, n, clear)
    ensures var k := |Patterns.Names(arm.pattern)|;
            && Patterns.SameNames(arm.pattern) && SCRUTINEE !in Patterns.Names(arm.pattern) && n + 1 + k <= 255
            && CompilableOption(arm.guard, n + 1 + k, clear) && Compilable(arm.body, n + 1 + k, clear)
            && (arm.guard.Some? ==> Compilable(arm.guard.value, n + 1 + k, clear))
  {
    hide Compilable, Patterns.SameNames, Patterns.Names;
  }

  /** Where the first arm's code is, and that of the others. */
  lemma ArmsPlaced(pl: Place, arms: seq<Arm>, sc: Scope, pc: nat, consts: Pool, slot: nat, end: nat)
    requires arms != []
    requires var a := GenArms(arms, WithScrutinee(sc), pc, consts);
             && At(pl.chunk.code, pc, JoinArms(slot, a.0, pc, end)) && Holds(pl, a.1)
             && pc + ArmsWidth(a.0) < end < 65536
    ensures var first := GenArm(arms[0], WithScrutinee(sc), pc, consts);
            var a, next := first.0, pc + ArmWidth(first.0);
            var rest := GenArms(arms[1..], WithScrutinee(sc), next, first.1);
            && At(pl.chunk.code, pc, JoinArm(slot, a, pc, end)) && Holds(pl, first.1)
            && a.test < 256 && a.test < |pl.chunk.consts.patterns|
            && pl.chunk.consts.patterns[a.test] == arms[0].pattern && a.names == |Patterns.Names(arms[0].pattern)|
            && At(pl.chunk.code, next, JoinArms(slot, rest.0, next, end)) && Holds(pl, rest.1)
            && next + ArmsWidth(rest.0) < end && next < 65536
  {
    hide *;
    GenArmsStep(arms, WithScrutinee(sc), pc, consts);
    var first := GenArm(arms[0], WithScrutinee(sc), pc, consts);
    var a := GenArms(arms, WithScrutinee(sc), pc, consts);
    assert a.0[1..] == GenArms(arms[1..], WithScrutinee(sc), pc + ArmWidth(first.0), first.1).0;
    ArmsParts(pl.chunk.code, slot, a.0, pc, end);
    HoldsLess(pl, first.1, a.1);
    GenArmParts(arms[0], WithScrutinee(sc), pc, consts);
    HoldsLess(pl, AddPattern(consts, arms[0].pattern), first.1);
    PatternHeld(pl, consts, arms[0].pattern);
  }

  lemma PatternHeld(pl: Place, consts: Pool, p: Patterns.Pattern)
    requires Holds(pl, AddPattern(consts, p))
    ensures var i := |consts.patterns|;
            i < 256 && i < |pl.chunk.consts.patterns| && pl.chunk.consts.patterns[i] == p
  {
    assert AddPattern(consts, p).patterns[|consts.patterns|] == p;
  }

  /** An arm whose pattern matches: its guard, and its body or the other arms. */
  lemma {:induction false} CompileMatched(pl: Place, arms: seq<Arm>, v: Value, fuel: nat, env: Env, sc: Scope, pc: nat,
                                          consts: Pool, vals: seq<Value>, end: nat)
    returns (vals': seq<Value>)
    requires arms != [] && Matches(pl, env, sc, vals) && env != [] && pl.budget <= fuel
    requires forall k :: 0 <= k < |arms| ==> CompilableArm(arms[k], |sc.locals|, true)
    requires var a := GenArms(arms, WithScrutinee(sc), pc, consts);
             && At(pl.chunk.code, pc, JoinArms(|sc.locals|, a.0, pc, end)) && Holds(pl, a.1)
             && pc + ArmsWidth(a.0) < end < 65536
    requires Patterns.MatchTree(arms[0].pattern, v, map[]).0
    ensures Simulates(pl, Mach(pl, pc, env, vals, [v]), EvalArms(arms, v, fuel, env), sc, vals', [v], end)
    decreases fuel, arms, 1
  {
    hide *;
    MatchesNonempty(pl, env, sc, vals);
    MatchesSmall(pl, env, sc, vals);
    ArmsPlaced(pl, arms, sc, pc, consts, |vals|, end);
    EvalArmsStep(arms, v, fuel, env);
    var arm, first := arms[0], GenArm(arms[0], WithScrutinee(sc), pc, consts);
    var p, a := arm.pattern, first.0;
    var next, m, all := pc + ArmWidth(a), Mach(pl, pc, env, vals, [v]), EvalArms(arms, v, fuel, env);
    CompilableParts(arm, |sc.locals|, true);
    ArmMatches(pl, p, env, sc, vals, v);
    ArmEntered(pl, a, p, pc, end, env, vals, v);
    var f, bound := Patterns.MatchTree(p, v, map[]).1, Patterns.MatchVm(p, v, []).1;
    var env2, vals2 := env + [f], vals + [v] + bound;
    ArmState(pl, pc + 7, env, f, vals, v, bound);
    var m2 := Mach(Inside(pl, v), pc + 7, env2, vals2, []);
    GuardValue(arm, fuel, env2);
    if arm.guard.None? {
      BodyPcIs(a, pc);
      ArmCodes(arm, sc, pc, consts);
      vals' := CompileBody(pl, arm, v, fuel, env2, sc, pc, consts, vals, vals2, end);
      BodyResult(arms, v, fuel, env, f, Val(Bool(true), env2));
      ThenSimulates(pl, m, m2, all, sc, vals', [v], end);
    } else {
      vals' := CompileGuarded(pl, arms, v, fuel, env, f, sc, pc, consts, vals, vals2, end);
      ThenSimulates(pl, m, m2, all, sc, vals', [v], end);
    }
  }

  lemma GuardValue(arm: Arm, fuel: nat, env: Env)
    requires env != []
    ensures EvalGuard(arm, fuel, env) ==
              if arm.guard.None? then Val(Bool(true), env) else Eval(arm.guard.value, fuel, env)
    ensures Truthy(Bool(true))
  {
    hide Eval;
  }

  lemma BodyPcIs(a: ArmCode, pc: nat)
    ensures BodyPc(a, pc) == if a.guard.None? then pc + 7 else pc + 10 + |a.guard.value|
  {
  }

  /** What the arms evaluate to once the guard of the first is known. */
  lemma BodyResult(arms: seq<Arm>, v: Value, fuel: nat, env: Env, f: Frame, g: Evaluation)
    requires arms != [] && env != [] && Patterns.MatchTree(arms[0].pattern, v, map[]) == (true, f)
    requires g == EvalGuard(arms[0], fuel, env + [f])
    ensures EvalArms(arms, v, fuel, env) ==
              if !g.Val? then g
              else if Truthy(g.v) then Leave(Eval(arms[0].body, fuel, g.env), |env|)
              else EvalArms(arms[1..], v, fuel, g.env[..|env|])
    ensures g.Val? ==> |g.env| == |env| + 1
  {
    hide *;
    EvalArmsStep(arms, v, fuel, env);
  }

  /** Where an arm's guard and body are. */
  lemma ArmCodes(arm: Arm, sc: Scope, pc: nat, consts: Pool)
    ensures var inner, consts1 := ArmScope(WithScrutinee(sc), arm.pattern), AddPattern(consts, arm.pattern);
            var r := GenArm(arm, WithScrutinee(sc), pc, consts);
            && (arm.guard.None? <==> r.0.guard.None?)
            && (arm.guard.None? ==>
                  var b := Gen(arm.body, inner, pc + 7, consts1);
                  r.0.body == b.bytes && r.1 == b.consts)
            && (arm.guard.Some? ==>
                  var g := Gen(arm.guard.value, inner, pc + 7, consts1);
                  var b := Gen(arm.body, inner, pc + 10 + |g.bytes|, g.consts);
                  && r.0.guard.value == g.bytes && r.0.body == b.bytes && r.1 == b.consts
                  && Extends(g.consts, b.consts))
  {
    hide *;
    GenArmParts(arm, WithScrutinee(sc), pc, consts);
    var inner, consts1 := ArmScope(WithScrutinee(sc), arm.pattern), AddPattern(consts, arm.pattern);
    AfterIs(pc, [], 7);
    if arm.guard.Some? {
      AfterIs(pc, Gen(arm.guard.value, inner, pc + 7, consts1).bytes, 10);
    }
  }

  /** The guard of a matching arm, then its body or the other arms. */
  lemma {:induction false} CompileGuarded(pl: Place, arms: seq<Arm>, v: Value, fuel: nat, env: Env, f: Frame, sc: Scope,
                                          pc: nat, consts: Pool, vals: seq<Value>, vals2: seq<Value>, end: nat)
    returns (vals': seq<Value>)
    requires arms != [] && arms[0].guard.Some? && Matches(pl, env, sc, vals) && env != [] && pl.budget <= fuel
    requires Matches(Inside(pl, v), env + [f], ArmScope(WithScrutinee(sc), arms[0].pattern), vals2)
    requires forall k :: 0 <= k < |arms| ==> CompilableArm(arms[k], |sc.locals|, true)
    requires var a := GenArms(arms, WithScrutinee(sc), pc, consts);
             && At(pl.chunk.code, pc, JoinArms(|sc.locals|, a.0, pc, end)) && Holds(pl, a.1)
             && pc + ArmsWidth(a.0) < end < 65536
    requires Patterns.MatchTree(arms[0].pattern, v, map[]) == (true, f)
    ensures Simulates(pl, Mach(Inside(pl, v), pc + 7, env + [f], vals2, []), EvalArms(arms, v, fuel, env), sc, vals',
                      [v],
                      end)
    decreases fuel, arms, 0
  {
    hide *;
    MatchesNonempty(pl, env, sc, vals);
    MatchesSmall(pl, env, sc, vals);
    ArmsPlaced(pl, arms, sc, pc, consts, |vals|, end);
    var arm, first := arms[0], GenArm(arms[0], WithScrutinee(sc), pc, consts);
    var p, a, env2 := arm.pattern, first.0, env + [f];
    CompilableParts(arm, |sc.locals|, true);
    GuardValue(arm, fuel, env2);
    ArmCodes(arm, sc, pc, consts);
    BodyPcIs(a, pc);
    ArmScopeIs(sc, p);
    ArmParts(pl.chunk.code, |vals|, a, pc, end);
    GuardParts(pl.chunk.code, a, pc, end);
    var inner, pl2 := ArmScope(WithScrutinee(sc), p), Inside(pl, v);
    var g := Gen(arm.guard.value, inner, pc + 7, AddPattern(consts, p));
    var next, all := pc + ArmWidth(a), EvalArms(arms, v, fuel, env);
    HoldsInside(pl, v, first.1);
    PoolLoaded(pl2, pc + 7, g, first.1);
    AfterIs(pc + 7, g.bytes, 0);
    var pcG, m := pc + 7 + |g.bytes|, Mach(pl2, pc + 7, env2, vals2, []);
    var vals3 := CompileGuard(pl2, arm, fuel, env2, inner, pc + 7, AddPattern(consts, p), vals2);
    var r := Eval(arm.guard.value, fuel, env2);
    BodyResult(arms, v, fuel, env, f, r);
    vals' := vals3;
    InsideRuns(pl, v);
    if r.Val? {
      SimulatesVal(pl2, m, r, inner, vals3, [], pcG);
      var mid := Mach(pl2, pcG, r.env, vals3, [] + [r.v]);
      if Truthy(r.v) {
        BranchRuns(pl2, pcG, JumpIfFalse, next - 2, r.v, r.env, vals3, []);
        var m3 := Mach(pl2, pcG + 3, r.env, vals3, []);
        Then(pl, m, mid, Machine.Running(m3));
        vals' := CompileBody(pl, arm, v, fuel, r.env, sc, pc, consts, vals, vals3, end);
        ThenSimulates(pl, m, m3, all, sc, vals', [v], end);
      } else {
        GuardFailed(pl, p, pcG, next - 2, r.env, sc, vals, vals3, v, r.v);
        var env3, vals4 := r.env[..|r.env| - 1], vals3[..|sc.locals|];
        var m3 := Mach(pl, next, env3, vals4, [v]);
        Then(pl, m, mid, Machine.Running(m3));
        vals' := CompileArms(pl, arms[1..], v, fuel, env3, sc, next, first.1, vals4, end);
        ThenSimulates(pl, m, m3, all, sc, vals', [v], end);
      }
    } else {
      OutsideSimulates(pl, m, r, v, inner, vals3, pcG, sc, [v], end);
    }
  }

  lemma {:induction false} CompileGuard(pl: Place, arm: Arm, fuel: nat, env: Env, sc: Scope, pc: nat, consts: Pool,
                                        vals: seq<Value>)
    returns (vals': seq<Value>)
    requires arm.guard.Some? && Matches(pl, env, sc, vals) && Loaded(pl, pc, Gen(arm.guard.value, sc, pc, consts))
    requires Compilable(arm.guard.value, |sc.locals|, true) && pl.budget <= fuel
    ensures env != []
    ensures Simulates(pl, Mach(pl, pc, env, vals, []), Eval(arm.guard.value, fuel, env), sc, vals', [],
                      After(pc, Gen(arm.guard.value, sc, pc, consts).bytes, 0))
    decreases fuel, arm, 0
  {
    hide *;
    vals' := CompileExpr(pl, arm.guard.value, fuel, env, sc, pc, consts, vals, []);
  }

  lemma HoldsInside(pl: Place, v: Value, consts: Pool)
    requires Holds(pl, consts)
    ensures Holds(Inside(pl, v), consts) && Inside(pl, v).chunk == pl.chunk && Inside(pl, v).budget == pl.budget
  {
    hide Extends;
  }

  /** An evaluation without a value, in an arm or around it. */
  lemma OutsideSimulates(pl: Place, m: Machine.Vm, r: Evaluation, v: Value, inner: Scope, vals: seq<Value>, pc: nat,
                         sc: Scope, temps: seq<Value>, end: nat)
    requires Simulates(Inside(pl, v), m, r, inner, vals, [], pc) && !r.Val?
    ensures Simulates(pl, m, r, sc, vals, temps, end)
  {
    SameRuns(pl, Inside(pl, v), m);
    hide Runs, RunsOn;
  }

  /** The body of an arm that was chosen, to the end of the match. */
  lemma {:induction false} CompileBody(pl: Place, arm: Arm, v: Value, fuel: nat, env: Env, sc: Scope, pc: nat,
                                       consts: Pool, before: seq<Value>, vals: seq<Value>, end: nat)
    returns (vals': seq<Value>)
    requires |before| == |sc.locals| <= 255 && Hidden(sc.locals, before) == pl.hidden && |env| > 1 && pl.budget <= fuel
    requires Matches(Inside(pl, v), env, ArmScope(WithScrutinee(sc), arm.pattern), vals)
    requires CompilableArm(arm, |sc.locals|, true)
    requires var a := GenArm(arm, WithScrutinee(sc), pc, consts);
             At(pl.chunk.code, pc, JoinArm(|sc.locals|, a.0, pc, end)) && Holds(pl, a.1) && end < 65536
    ensures var a := GenArm(arm, WithScrutinee(sc), pc, consts).0;
            Simulates(pl, Mach(Inside(pl, v), BodyPc(a, pc), env, vals, []),
                      Leave(Eval(arm.body, fuel, env), |env| - 1), sc, vals', [v], end)
    decreases fuel, arm, 0
  {
    hide *;
    var first := GenArm(arm, WithScrutinee(sc), pc, consts);
    var p, a := arm.pattern, first.0;
    CompilableParts(arm, |sc.locals|, true);
    ArmCodes(arm, sc, pc, consts);
    ArmNames(arm, sc, pc, consts);
    BodyPcIs(a, pc);
    ArmScopeIs(sc, p);
    ArmParts(pl.chunk.code, |sc.locals|, a, pc, end);
    GuardParts(pl.chunk.code, a, pc, end);
    HoldsInside(pl, v, first.1);
    var inner, pl2, pcB := ArmScope(WithScrutinee(sc), p), Inside(pl, v), BodyPc(a, pc);
    var consts1 :=
      if arm.guard.None? then AddPattern(consts, p) else Gen(arm.guard.value, inner, pc + 7,
                                                             AddPattern(consts, p)).consts;
    var b := Gen(arm.body, inner, pcB, consts1);
    Reflexive(b.consts);
    PoolLoaded(pl2, pcB, b, first.1);
    AfterIs(pcB, b.bytes, 0);
    var bodyEnd, m := pcB + |b.bytes|, Mach(pl2, pcB, env, vals, []);
    var vals3 := CompileExpr(pl2, arm.body, fuel, env, inner, pcB, consts1, vals, []);
    var r := Eval(arm.body, fuel, env);
    LeaveIs(r, |env| - 1, arm.body, fuel, env);
    vals' := vals3;
    if r.Val? {
      SimulatesVal(pl2, m, r, inner, vals3, [], bodyEnd);
      var mid := Mach(pl2, bodyEnd, r.env, vals3, [] + [r.v]);
      BodyDone(pl, p, bodyEnd, end, r.env, sc, before, vals3, v, r.v);
      vals' := vals3[..|sc.locals|];
      var env3 := r.env[..|r.env| - 1];
      InsideRuns(pl, v);
      Then(pl, m, mid, Machine.Running(Mach(pl, end, env3, vals', [v] + [r.v])));
      RunsSimulate(pl, m, Val(r.v, env3), sc, vals', [v], end);
    } else {
      OutsideSimulates(pl, m, r, v, inner, vals3, bodyEnd, sc, [v], end);
    }
  }

  lemma ArmNames(arm: Arm, sc: Scope, pc: nat, consts: Pool)
    ensures GenArm(arm, WithScrutinee(sc), pc, consts).0.names == |Patterns.Names(arm.pattern)|
  {
    hide *;
    GenArmParts(arm, WithScrutinee(sc), pc, consts);
  }

  lemma Reflexive(consts: Pool)
    ensures Extends(consts, consts)
  {
  }

  lemma LeaveIs(r: Evaluation, n: nat, e: Expr, fuel: nat, env: Env)
    requires |env| == n + 1 && r == Eval(e, fuel, env)
    ensures r.Val? ==> |r.env| == n + 1
    ensures Leave(r, n) == if r.Val? then Val(r.v, r.env[..n]) else r
  {
    hide Eval;
  }

  lemma {:induction false} CompileLeaf(pl: Place, e: Expr, fuel: nat, env: Env, sc: Scope, pc: nat,
                                       consts: Pool, vals: seq<Value>, temps: seq<Value>)
    requires (e.Literal? || (e.Ident? && e.x != SCRUTINEE)) && Matches(pl, env, sc, vals)
    requires Loaded(pl, pc, Gen(e, sc, pc, consts))
    ensures env != []
    ensures Simulates(pl, Mach(pl, pc, env, vals, temps), Eval(e, fuel, env), sc, vals, temps,
                      After(pc, Gen(e, sc, pc, consts).bytes, 0))
  {
    hide Runs, Represents, At, GenLiteral, Load, Get;
    MatchesNonempty(pl, env, sc, vals);
    match e
    case Literal(v) => ConstRuns(pl, pc, v, env, vals, temps, consts);
    case Ident(x) => LoadRuns(pl, pc, x, env, sc, vals, temps, consts);
  }

  /**
   The compiled code of an expression, from any state that represents `env`:
   if the tree-walker yields a value, the code runs to its end and pushes
   exactly that value, in a state that represents the tree-walker's; if the
   tree-walker raises an error, so does the code, except that assigning an
   unbound name and a `match` that no arm takes raise nothing; if the
   tree-walker exceeds its budget, the code runs on for as long at least.
   */
  lemma {:induction false} CompileExpr(pl: Place, e: Expr, fuel: nat, env: Env, sc: Scope, pc: nat,
                                       consts: Pool, vals: seq<Value>, temps: seq<Value>)
    returns (vals': seq<Value>)
    requires Matches(pl, env, sc, vals) && Loaded(pl, pc, Gen(e, sc, pc, consts))
    requires Compilable(e, |sc.locals|, temps == []) && pl.budget <= fuel
    ensures env != []
    ensures Simulates(pl, Mach(pl, pc, env, vals, temps), Eval(e, fuel, env), sc, vals', temps,
                      After(pc, Gen(e, sc, pc, consts).bytes, 0))
    decreases fuel, e, 2
  {
    MatchesNonempty(pl, env, sc, vals);
    ParenUnfolds(e, fuel, env, sc, pc, consts, temps == []);
    hide Runs, Represents, At, Gen, Compilable, Eval, After, Loaded;
    match e
    case Literal(_) =>
      vals' := vals;
      CompileLeaf(pl, e, fuel, env, sc, pc, consts, vals, temps);
    case Ident(_) =>
      vals' := vals;
      CompileLeaf(pl, e, fuel, env, sc, pc, consts, vals, temps);
    case Unary(_, _) => vals' := CompileUnary(pl, e, fuel, env, sc, pc, consts, vals, temps);
    case Binary(op, _, _) =>
      if op in {And, Or} {
        vals' := CompileLogical(pl, e, fuel, env, sc, pc, consts, vals, temps);
      } else {
        vals' := CompileStrict(pl, e, fuel, env, sc, pc, consts, vals, temps);
      }
    case If(_, _, _) => vals' := CompileIf(pl, e, fuel, env, sc, pc, consts, vals, temps);
    case Block(_, _) => vals' := CompileBlock(pl, e, fuel, env, sc, pc, consts, vals, temps);
    case Paren(e1) => vals' := CompileExpr(pl, e1, fuel, env, sc, pc, consts, vals, temps);
    case Assign(_, _) => vals' := CompileAssign(pl, e, fuel, env, sc, pc, consts, vals, temps);
    case Compound(_, _, _) => vals' := CompileCompound(pl, e, fuel, env, sc, pc, consts, vals, temps);
    case While(_, _) => vals' := CompileWhile(pl, e, fuel, env, sc, pc, consts, vals, temps);
    case Match(_, _) => vals' := CompileMatch(pl, e, fuel, env, sc, pc, consts, vals, temps);
  }

  lemma ParenUnfolds(e: Expr, fuel: nat, env: Env, sc: Scope, pc: nat, consts: Pool, clear: bool)
    requires env != []
    ensures e.Paren? ==> Gen(e, sc, pc, consts) == Gen(e.e, sc, pc, consts)
    ensures e.Paren? ==> Eval(e, fuel, env) == Eval(e.e, fuel, env)
    ensures e.Paren? && Compilable(e, |sc.locals|, clear) ==> Compilable(e.e, |sc.locals|, clear)
    ensures e.Ident? && Compilable(e, |sc.locals|, clear) ==> e.x != SCRUTINEE
  {
  }
}
