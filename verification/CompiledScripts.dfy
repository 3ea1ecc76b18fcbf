/**
 Whole scripts: compiling and running a script is interpreting it, and what
 happens where the compiler's assumptions about the stack do not hold.
 */
module CompiledScripts {
  import opened Values
  import opened Bytecode
  import Machine
  import opened ScopeChains
  import opened TreeWalker
  import opened CodeGen
  import opened Slots
  import opened Unfoldings
  import opened CompilerCorrectness
  import opened CompilerTheorem
  import opened MatchCorrectness
  import Patterns

  /** What the machine does with a script, started on an empty stack. */
  ghost predicate ScriptRuns(stmts: seq<Stmt>, result: Option<Expr>, globals: Frame, end: Machine.Next) {
    var c := GenProgram(stmts, result);
    Machine.Runs(Machine.Chunk(c.bytes, c.consts), 0, Machine.Vm(0, [], globals, []), end)
  }

  /** Jump operands are two bytes, constant indices one; the compiler checks neither address range nor slot numbers. */
  predicate FitsChunk(c: Code) {
    |c.bytes| < 65536 && |c.consts.values| <= 256 && |c.consts.patterns| <= 256
  }

  lemma ProgramParts(stmts: seq<Stmt>, result: Option<Expr>, pl: Place)
    requires FitsChunk(GenProgram(stmts, result))
    requires var c := GenProgram(stmts, result);
             pl.chunk == Machine.Chunk(c.bytes, c.consts)
    ensures var (b, sc) := GenStmts(stmts, Scope([], 0), 0, EMPTY);
            var pc1 := After(0, b.bytes, 0);
            var t := GenOption(result, sc, pc1, b.consts);
            && sc == Scope([], 0) && Loaded(pl, 0, b) && Loaded(pl, pc1, t)
            && At(pl.chunk.code, After(pc1, t.bytes, 0), Plain(ReturnTop))
  {
    var (b, sc) := GenStmts(stmts, Scope([], 0), 0, EMPTY);
    var t := GenOption(result, sc, |b.bytes|, b.consts);
    hide GenStmts, GenOption, Plain, At, Extends;
    GlobalsOnly(sc);
    assert At(pl.chunk.code, 0, Join3(b.bytes, t.bytes, Plain(ReturnTop))) by { WholeAt(pl.chunk.code); }
    BlockLike(pl, b, t, Plain(ReturnTop));
  }

  function FirstDepth(locals: seq<Local>): nat {
    if locals == [] then 0 else locals[0].depth
  }

  /** At block depth 0 nothing becomes a local. */
  lemma GlobalsOnly(sc: Scope)
    requires Grows(Scope([], 0), sc)
    ensures sc == Scope([], 0)
  {
    assert sc.locals != [] ==> FirstDepth(sc.locals) == 0;
  }

  lemma WholeAt(code: seq<byte>)
    ensures At(code, 0, code)
  {
  }

  lemma BlockLike(pl: Place, b: Code, t: Code, last: seq<byte>)
    requires At(pl.chunk.code, 0, Join3(b.bytes, t.bytes, last)) && Extends(b.consts, t.consts)
    requires t.consts == pl.chunk.consts && |pl.chunk.code| < 65536
    requires |pl.chunk.consts.values| <= 256 && |pl.chunk.consts.patterns| <= 256
    ensures Loaded(pl, 0, b) && Loaded(pl, |b.bytes|, t) && At(pl.chunk.code, |b.bytes| + |t.bytes|, last)
  {
    AtSplit3(pl.chunk.code, 0, b.bytes, t.bytes, last);
    hide At;
  }

  lemma ReturnRuns(pl: Place, pc: nat, v: Value, env: Env)
    requires env != [] && pl.under == [] && At(pl.chunk.code, pc, Plain(ReturnTop))
    ensures Runs(pl, Mach(pl, pc, env, [], [] + [v]), Machine.Halted(v, env[0]))
  {
    hide Machine.Runs;
    Top(pl.under, [], [], v);
    RunPlain(pl, Mach(pl, pc, env, [], [] + [v]), ReturnTop);
  }

  /** What a script's run is, for what interpreting it comes to. */
  ghost predicate RunsAlike(stmts: seq<Stmt>, result: Option<Expr>, fuel: nat, globals: Frame, r: Evaluation) {
    match r
    case Val(v, env) => |env| == 1 && ScriptRuns(stmts, result, globals, Machine.Halted(v, env[0]))
    case Fail(err) => Excused(err) || ScriptRuns(stmts, result, globals, Machine.Faulted(err))
    case OutOfFuel => ScriptRunsOn(stmts, result, globals, fuel)
  }

  /** The machine takes at least `k` steps on the script. */
  ghost predicate ScriptRunsOn(stmts: seq<Stmt>, result: Option<Expr>, globals: Frame, k: nat) {
    exists n: nat :: n >= k && ScriptSteps(stmts, result, globals, n).Running?
  }

  function ScriptSteps(stmts: seq<Stmt>, result: Option<Expr>, globals: Frame, n: nat): Machine.Next {
    var c := GenProgram(stmts, result);
    Machine.Steps(Machine.Chunk(c.bytes, c.consts), 0, Machine.Vm(0, [], globals, []), n)
  }

  /**
   Compiling and running a script does what interpreting it does: the same
   value and the same globals, or the same error, and where interpreting it
   exceeds a step budget, running it takes at least as many steps. The
   exceptions are an assignment to an unbound name and a value that no arm
   matches.
   */
  lemma ScriptCorrect(stmts: seq<Stmt>, result: Option<Expr>, fuel: nat, globals: Frame)
    requires FitsChunk(GenProgram(stmts, result))
    requires CompilableStmts(stmts, 0, true, true) && CompilableOption(result, 0, true)
    ensures RunsAlike(stmts, result, fuel, globals, RunProgram(stmts, result, fuel, globals))
  {
    hide *;
    var c := GenProgram(stmts, result);
    var pl := Place(Machine.Chunk(c.bytes, c.consts), [], [], [], fuel);
    ProgramParts(stmts, result, pl);
    StartMatches(pl, globals);
    RunUnfolds(stmts, result, fuel, globals);
    var sc0, m := Scope([], 0), Mach(pl, 0, [globals], [], []);
    var (b, sc) := GenStmts(stmts, sc0, 0, EMPTY);
    var pc1 := After(0, b.bytes, 0);
    var vals1 := CompileStmts(pl, stmts, fuel, [globals], sc0, 0, EMPTY, [], []);
    var r1 := EvalStmts(stmts, fuel, [globals]);
    if r1.Val? {
      ReachesVal(pl, m, r1, sc0, vals1, [], pc1);
      var m1, t := Mach(pl, pc1, r1.env, vals1, []), GenOption(result, sc0, pc1, b.consts);
      var vals2 := CompileOption(pl, result, fuel, r1.env, sc0, pc1, b.consts, vals1, []);
      var pc2 := After(pc1, t.bytes, 0);
      var r := EvalOption(result, fuel, r1.env);
      ThenSimulates(pl, m, m1, r, sc0, vals2, [], pc2);
      if r.Val? {
        SimulatesVal(pl, m, r, sc0, vals2, [], pc2);
        ReturnRuns(pl, pc2, r.v, r.env);
        Then(pl, m, Mach(pl, pc2, r.env, [], [] + [r.v]), Machine.Halted(r.v, r.env[0]));
        ValAlike(pl, stmts, result, fuel, globals, m, r);
      } else {
        NoValAlike(pl, stmts, result, fuel, globals, m, r, sc0, vals2, [], pc2);
      }
    } else {
      Failing(pl, m, r1, sc0, vals1, [], pc1, sc0, pc1);
      NoValAlike(pl, stmts, result, fuel, globals, m, r1, sc0, vals1, [], pc1);
    }
  }

  lemma ValAlike(pl: Place, stmts: seq<Stmt>, result: Option<Expr>, fuel: nat, globals: Frame, m: Machine.Vm,
                 r: Evaluation)
    requires var c := GenProgram(stmts, result);
             pl == Place(Machine.Chunk(c.bytes, c.consts), [], [], [], fuel)
    requires m == Mach(pl, 0, [globals], [], [])
    requires r.Val? && |r.env| == 1 && Runs(pl, m, Machine.Halted(r.v, r.env[0]))
    ensures RunsAlike(stmts, result, fuel, globals, r)
  {
    hide GenProgram, Machine.Runs;
    assert m == Machine.Vm(0, [], globals, []);
  }

  lemma NoValAlike(pl: Place, stmts: seq<Stmt>, result: Option<Expr>, fuel: nat, globals: Frame, m: Machine.Vm,
                   r: Evaluation, sc: Scope, vals: seq<Value>, temps: seq<Value>, end: nat)
    requires var c := GenProgram(stmts, result);
             pl == Place(Machine.Chunk(c.bytes, c.consts), [], [], [], fuel)
    requires m == Mach(pl, 0, [globals], [], [])
    requires !r.Val? && Simulates(pl, m, r, sc, vals, temps, end)
    ensures RunsAlike(stmts, result, fuel, globals, r)
  {
    hide GenProgram, Machine.Runs, Machine.Steps;
    assert m == Machine.Vm(0, [], globals, []);
    if r.OutOfFuel? {
      var n: nat :| n >= pl.budget && Machine.Steps(pl.chunk, |pl.under|, m, n).Running?;
      assert ScriptSteps(stmts, result, globals, n).Running?;
    }
  }

  // ----- runs that do not end -----

  /** A run that stopped stays stopped. */
  lemma {:induction false} StoppedStays(c: Machine.Chunk, base: nat, m: Machine.Vm, i: nat, j: nat)
    requires i <= j && !Machine.Steps(c, base, m, i).Running?
    ensures Machine.Steps(c, base, m, j) == Machine.Steps(c, base, m, i)
    decreases i
  {
    hide Machine.Step;
    if i > 0 && Machine.Step(c, base, m).Running? {
      StoppedStays(c, base, Machine.Step(c, base, m).vm, i - 1, j - 1);
    }
  }

  /** A script that exceeds every step budget never stops on the machine: it neither halts nor fails nor crashes. */
  lemma ScriptDiverges(stmts: seq<Stmt>, result: Option<Expr>, globals: Frame, n: nat)
    requires FitsChunk(GenProgram(stmts, result))
    requires CompilableStmts(stmts, 0, true, true) && CompilableOption(result, 0, true)
    requires forall fuel: nat :: RunProgram(stmts, result, fuel, globals) == OutOfFuel
    ensures ScriptSteps(stmts, result, globals, n).Running?
  {
    hide GenProgram, FitsChunk, CompilableStmts, CompilableOption, RunProgram, Machine.Steps, ScriptRuns;
    ScriptCorrect(stmts, result, n, globals);
    var k: nat :| k >= n && ScriptSteps(stmts, result, globals, k).Running?;
    if !ScriptSteps(stmts, result, globals, n).Running? {
      var c := GenProgram(stmts, result);
      StoppedStays(Machine.Chunk(c.bytes, c.consts), 0, Machine.Vm(0, [], globals, []), n, k);
    }
  }

  /** The machine halts with nothing but what interpreting the script yields. */
  lemma HaltsAlike(stmts: seq<Stmt>, result: Option<Expr>, globals: Frame, fuel: nat, end: Machine.Next)
    requires FitsChunk(GenProgram(stmts, result))
    requires CompilableStmts(stmts, 0, true, true) && CompilableOption(result, 0, true)
    requires ScriptRuns(stmts, result, globals, end) && !end.Running?
    requires var r := RunProgram(stmts, result, fuel, globals); r.Val? || (r.Fail? && !Excused(r.error))
    ensures match RunProgram(stmts, result, fuel, globals)
            case Val(v, env) => |env| == 1 && end == Machine.Halted(v, env[0])
            case Fail(err) => end == Machine.Faulted(err)
            case OutOfFuel => true
  {
    hide GenProgram, FitsChunk, CompilableStmts, CompilableOption, RunProgram, Machine.Steps, Excused;
    ScriptCorrect(stmts, result, fuel, globals);
    var r := RunProgram(stmts, result, fuel, globals);
    EndsOnce(stmts, result, globals, end, if r.Val? then Machine.Halted(r.v, r.env[0]) else Machine.Faulted(r.error));
  }

  lemma EndsOnce(stmts: seq<Stmt>, result: Option<Expr>, globals: Frame, a: Machine.Next, b: Machine.Next)
    requires ScriptRuns(stmts, result, globals, a) && ScriptRuns(stmts, result, globals, b)
    requires !a.Running? && !b.Running?
    ensures a == b
  {
    hide GenProgram, Machine.Steps;
    var c, m := GenProgram(stmts, result), Machine.Vm(0, [], globals, []);
    var chunk := Machine.Chunk(c.bytes, c.consts);
    var i: nat :| Machine.Steps(chunk, 0, m, i) == a;
    var j: nat :| Machine.Steps(chunk, 0, m, j) == b;
    if i <= j {
      StoppedStays(chunk, 0, m, i, j);
    } else {
      StoppedStays(chunk, 0, m, j, i);
    }
  }

  lemma RunUnfolds(stmts: seq<Stmt>, result: Option<Expr>, fuel: nat, globals: Frame)
    ensures var r := EvalStmts(stmts, fuel, [globals]);
            && RunProgram(stmts, result, fuel, globals) == (if r.Val? then EvalOption(result, fuel, r.env) else r)
            && (r.Val? ==> |r.env| == 1)
    ensures var r := RunProgram(stmts, result, fuel, globals);
            r.Val? ==> |r.env| == 1
  {
    hide EvalStmts, EvalOption;
  }

  lemma StartMatches(pl: Place, globals: Frame)
    requires pl.hidden == []
    ensures Matches(pl, [globals], Scope([], 0), [])
  {
  }

  // ----- where the back ends part -----

  /**
   Assigning an unbound name: the tree-walker raises, the compiled code makes
   a global of that name and carries on.
   */
  lemma UnboundAssignDefines(pl: Place, e: Expr, fuel: nat, env: Env, sc: Scope, pc: nat,
                             consts: Pool, vals: seq<Value>, temps: seq<Value>)
    returns (vals': seq<Value>)
    requires e.Assign? && Matches(pl, env, sc, vals) && Loaded(pl, pc, Gen(e, sc, pc, consts)) && env != []
    requires Compilable(e, |sc.locals|, temps == []) && pl.budget <= fuel
    requires var r := Eval(e.e, fuel, env);
             r.Val? && Update(r.env, e.x, r.v).None?
    ensures Eval(e, fuel, env) == Fail(UnboundAssign)
    ensures var r := Eval(e.e, fuel, env);
            var env1 := r.env[0 := r.env[0][e.x := r.v]];
            && Matches(pl, env1, sc, vals')
            && Runs(pl, Mach(pl, pc, env, vals, temps),
                    Machine.Running(Mach(pl, After(pc, Gen(e, sc, pc, consts).bytes, 0), env1, vals', temps + [Nil])))
  {
    hide *;
    GenAssign(e, sc, pc, consts);
    EvalAssign(e, fuel, env);
    CompilableAssign(e, |sc.locals|, temps == []);
    var c := Gen(e.e, sc, pc, consts);
    var st := Store(sc, e.x, c.consts);
    AccessWidth(sc, e.x, pc, consts, c.consts);
    AssignParts(pl, pc, c, st);
    var pc1, m := After(pc, c.bytes, 0), Mach(pl, pc, env, vals, temps);
    vals' := CompileExpr(pl, e.e, fuel, env, sc, pc, consts, vals, temps);
    var r := Eval(e.e, fuel, env);
    SimulatesVal(pl, m, r, sc, vals', temps, pc1);
    var mid := Mach(pl, pc1, r.env, vals', temps + [r.v]);
    UnboundStoreRuns(pl, pc1, e.x, r.v, r.env, sc, vals', temps, c.consts);
    Then(pl, m, mid, Machine.Running(Mach(pl, pc1 + 3, r.env[0 := r.env[0][e.x := r.v]], vals', temps + [Nil])));
  }

  lemma UnboundStoreRuns(pl: Place, pc: nat, x: string, v: Value, env: Env, sc: Scope, vals: seq<Value>,
                         temps: seq<Value>, consts: Pool)
    requires Matches(pl, env, sc, vals) && env != [] && Update(env, x, v).None? && x != SCRUTINEE
    requires Loaded(pl, pc, Code(Store(sc, x, consts).bytes + Plain(PushNil), Store(sc, x, consts).consts))
    ensures AssignResult(env, x, v) == Fail(UnboundAssign)
    ensures Matches(pl, env[0 := env[0][x := v]], sc, vals)
    ensures Runs(pl, Mach(pl, pc, env, vals, temps + [v]),
                 Machine.Running(Mach(pl, pc + 3, env[0 := env[0][x := v]], vals, temps + [Nil])))
  {
    UnboundEverywhere(pl, env, sc, vals, x, v);
    hide Runs, Update, Represents, Resolve, Hidden;
    MatchesNonempty(pl, env, sc, vals);
    AssignAgrees(env, sc.locals, sc.depth, vals, sc.depth, x, v);
    AtConcat(pl.chunk.code, pc, Store(sc, x, consts).bytes, Plain(PushNil));
    var i := ConstIndex(consts, Str(x));
    assert pl.chunk.consts.values[i] == Str(x);
    StoreGlobalRuns(pl, pc, x, i, env, vals, temps, v);
  }

  /** An unbound name is no local, and adding a global leaves the locals alone. */
  lemma UnboundEverywhere(pl: Place, env: Env, sc: Scope, vals: seq<Value>, x: string, v: Value)
    requires Matches(pl, env, sc, vals) && env != [] && Update(env, x, v).None? && x != SCRUTINEE
    ensures Resolve(sc.locals, sc.depth, x).None?
    ensures Matches(pl, env[0 := env[0][x := v]], sc, vals)
  {
    SameLength(env, sc.locals, sc.depth, vals);
    AssignAgrees(env, sc.locals, sc.depth, vals, sc.depth, x, v);
    OtherGlobals(env, sc.locals, sc.depth, vals, env[0][x := v]);
    hide Represents, Update, Hidden;
  }

  lemma {:induction false} OtherGlobals(env: Env, locals: seq<Local>, depth: nat, vals: seq<Value>, globals: Frame)
    requires Represents(env, locals, depth, vals)
    ensures env != [] && Represents(env[0 := globals], locals, depth, vals)
    decreases |env|
  {
    SameLength(env, locals, depth, vals);
    if |env| > 1 {
      var k, j, d := LayerOf(env, locals, depth, vals);
      hide *;
      OtherGlobals(env[..|env| - 1], locals[..j], d, vals[..j], globals);
      assert env[0 := globals][..|env| - 1] == env[..|env| - 1][0 := globals];
      LayerAgain(env[0 := globals], locals, depth, vals, k, j, d);
    }
  }

  /** The scope chain once every arm has been passed over, by its pattern or by its guard. */
  function Passed(arms: seq<Arm>, v: Value, fuel: nat, env: Env): (r: Option<Env>)
    requires env != []
    ensures r.Some? ==> |r.value| == |env|
    decreases arms
  {
    if arms == [] then Some(env)
    else
      var m := Patterns.MatchTree(arms[0].pattern, v, map[]);
      if !m.0 then Passed(arms[1..], v, fuel, env)
      else
        var g := EvalGuard(arms[0], fuel, env + [m.1]);
        if g.Val? && !Truthy(g.v) then Passed(arms[1..], v, fuel, g.env[..|env|]) else None
  }

  lemma {:induction false} PassedFails(arms: seq<Arm>, v: Value, fuel: nat, env: Env)
    requires env != [] && Passed(arms, v, fuel, env).Some?
    ensures EvalArms(arms, v, fuel, env) == Fail(CannotMatch)
    decreases arms
  {
    hide EvalGuard, Patterns.MatchTree, Eval, Truthy;
    if arms != [] {
      var m := Patterns.MatchTree(arms[0].pattern, v, map[]);
      if !m.0 {
        PassedFails(arms[1..], v, fuel, env);
      } else {
        PassedFails(arms[1..], v, fuel, EvalGuard(arms[0], fuel, env + [m.1]).env[..|env|]);
      }
    }
  }

  lemma PassedStep(arms: seq<Arm>, v: Value, fuel: nat, env: Env)
    requires env != [] && arms != [] && Passed(arms, v, fuel, env).Some?
    ensures var m := Patterns.MatchTree(arms[0].pattern, v, map[]);
            if !m.0 then Passed(arms, v, fuel, env) == Passed(arms[1..], v, fuel, env)
            else
              var g := EvalGuard(arms[0], fuel, env + [m.1]);
              && g.Val? && !Truthy(g.v) && |g.env| == |env| + 1
              && Passed(arms, v, fuel, env) == Passed(arms[1..], v, fuel, g.env[..|env|])
  {
    hide EvalGuard, Patterns.MatchTree, Truthy;
  }

  /** The machine passes over the same arms. */
  lemma {:induction false} PassedRuns(pl: Place, arms: seq<Arm>, v: Value, fuel: nat, env: Env, sc: Scope, pc: nat,
                                      consts: Pool, vals: seq<Value>, end: nat)
    returns (vals': seq<Value>)
    requires Matches(pl, env, sc, vals) && env != [] && pl.budget <= fuel
    requires forall k :: 0 <= k < |arms| ==> CompilableArm(arms[k], |sc.locals|, true)
    requires var a := GenArms(arms, WithScrutinee(sc), pc, consts);
             && At(pl.chunk.code, pc, JoinArms(|sc.locals|, a.0, pc, end)) && Holds(pl, a.1)
             && pc + ArmsWidth(a.0) < end < 65536
    requires Passed(arms, v, fuel, env).Some?
    ensures var env' := Passed(arms, v, fuel, env).value;
            var next := pc + ArmsWidth(GenArms(arms, WithScrutinee(sc), pc, consts).0);
            && env' != [] && Matches(pl, env', sc, vals')
            && Runs(pl, Mach(pl, pc, env, vals, [v]), Machine.Running(Mach(pl, next, env', vals', [v])))
    decreases arms
  {
    hide *;
    vals' := vals;
    if arms == [] {
      PassedNone(pl, v, fuel, env, sc, pc, consts, vals);
    } else {
      ArmsPlaced(pl, arms, sc, pc, consts, |sc.locals|, end);
      GenArmsStep(arms, WithScrutinee(sc), pc, consts);
      PassedStep(arms, v, fuel, env);
      var first := GenArm(arms[0], WithScrutinee(sc), pc, consts);
      var next := pc + ArmWidth(first.0);
      var rest := GenArms(arms[1..], WithScrutinee(sc), next, first.1);
      ArmsWidthStep(first.0, rest.0);
      var env1, vals1 := ArmPassed(pl, arms, v, fuel, env, sc, pc, consts, vals, end);
      vals' := PassedRuns(pl, arms[1..], v, fuel, env1, sc, next, first.1, vals1, end);
      Then(pl, Mach(pl, pc, env, vals, [v]), Mach(pl, next, env1, vals1, [v]),
           Machine.Running(Mach(pl, next + ArmsWidth(rest.0), Passed(arms, v, fuel, env).value, vals', [v])));
    }
  }

  lemma PassedNone(pl: Place, v: Value, fuel: nat, env: Env, sc: Scope, pc: nat, consts: Pool, vals: seq<Value>)
    requires env != []
    ensures Passed([], v, fuel, env) == Some(env) && ArmsWidth(GenArms([], WithScrutinee(sc), pc, consts).0) == 0
    ensures Runs(pl, Mach(pl, pc, env, vals, [v]), Machine.Running(Mach(pl, pc, env, vals, [v])))
  {
    Machine.RunsHere(pl.chunk, |pl.under|, Mach(pl, pc, env, vals, [v]));
  }

  lemma ArmsWidthStep(first: ArmCode, rest: seq<ArmCode>)
    ensures ArmsWidth([first] + rest) == ArmWidth(first) + ArmsWidth(rest)
  {
    assert ([first] + rest)[1..] == rest;
  }

  lemma ArmPassed(pl: Place, arms: seq<Arm>, v: Value, fuel: nat, env: Env, sc: Scope, pc: nat, consts: Pool,
                  vals: seq<Value>, end: nat)
    returns (env1: Env, vals1: seq<Value>)
    requires arms != [] && Matches(pl, env, sc, vals) && env != [] && pl.budget <= fuel
    requires forall k :: 0 <= k < |arms| ==> CompilableArm(arms[k], |sc.locals|, true)
    requires var a := GenArms(arms, WithScrutinee(sc), pc, consts);
             && At(pl.chunk.code, pc, JoinArms(|sc.locals|, a.0, pc, end)) && Holds(pl, a.1)
             && pc + ArmsWidth(a.0) < end < 65536
    requires Passed(arms, v, fuel, env).Some?
    ensures env1 != [] && Matches(pl, env1, sc, vals1) && Passed(arms[1..], v, fuel, env1) == Passed(arms, v, fuel, env)
    ensures var next := pc + ArmWidth(GenArm(arms[0], WithScrutinee(sc), pc, consts).0);
            Runs(pl, Mach(pl, pc, env, vals, [v]), Machine.Running(Mach(pl, next, env1, vals1, [v])))
  {
    hide *;
    MatchesNonempty(pl, env, sc, vals);
    MatchesSmall(pl, env, sc, vals);
    ArmsPlaced(pl, arms, sc, pc, consts, |vals|, end);
    PassedStep(arms, v, fuel, env);
    env1, vals1 := env, vals;
    var arm, first := arms[0], GenArm(arms[0], WithScrutinee(sc), pc, consts);
    var p, a := arm.pattern, first.0;
    var next, m := pc + ArmWidth(a), Mach(pl, pc, env, vals, [v]);
    CompilableParts(arm, |sc.locals|, true);
    Patterns.BackEndsAgree(p, v, map[]);
    if !Patterns.MatchTree(p, v, map[]).0 {
      ArmSkipped(pl, a, p, pc, end, env, vals, v);
    } else {
      ArmMatches(pl, p, env, sc, vals, v);
      ArmEntered(pl, a, p, pc, end, env, vals, v);
      var f, bound := Patterns.MatchTree(p, v, map[]).1, Patterns.MatchVm(p, v, []).1;
      ArmState(pl, pc + 7, env, f, vals, v, bound);
      env1, vals1 := GuardPassed(pl, arm, v, fuel, env, f, sc, pc, consts, vals, vals + [v] + bound, end);
      Then(pl, m, Mach(Inside(pl, v), pc + 7, env + [f], vals + [v] + bound, []),
           Machine.Running(Mach(pl, next, env1, vals1, [v])));
    }
  }

  /** A guard that does not hold gives the bindings back. */
  lemma GuardPassed(pl: Place, arm: Arm, v: Value, fuel: nat, env: Env, f: Frame, sc: Scope, pc: nat, consts: Pool,
                    vals: seq<Value>, vals2: seq<Value>, end: nat)
    returns (env1: Env, vals1: seq<Value>)
    requires Matches(pl, env, sc, vals) && env != [] && pl.budget <= fuel && CompilableArm(arm, |sc.locals|, true)
    requires Matches(Inside(pl, v), env + [f], ArmScope(WithScrutinee(sc), arm.pattern), vals2)
    requires var a := GenArm(arm, WithScrutinee(sc), pc, consts);
             At(pl.chunk.code, pc, JoinArm(|sc.locals|, a.0, pc, end)) && Holds(pl, a.1) && pc + ArmWidth(a.0) < 65536
    requires var g := EvalGuard(arm, fuel, env + [f]); g.Val? && !Truthy(g.v) && |g.env| == |env| + 1
    ensures env1 == EvalGuard(arm, fuel, env + [f]).env[..|env|] && env1 != [] && Matches(pl, env1, sc, vals1)
    ensures var next := pc + ArmWidth(GenArm(arm, WithScrutinee(sc), pc, consts).0);
            Runs(pl, Mach(Inside(pl, v), pc + 7, env + [f], vals2, []),
                 Machine.Running(Mach(pl, next, env1, vals1, [v])))
  {
    hide *;
    MatchesNonempty(pl, env, sc, vals);
    MatchesSmall(pl, env, sc, vals);
    var first, env2 := GenArm(arm, WithScrutinee(sc), pc, consts), env + [f];
    var p, a := arm.pattern, first.0;
    CompilableParts(arm, |sc.locals|, true);
    GuardValue(arm, fuel, env2);
    ArmCodes(arm, sc, pc, consts);
    ArmNames(arm, sc, pc, consts);
    BodyPcIs(a, pc);
    ArmScopeIs(sc, p);
    ArmParts(pl.chunk.code, |vals|, a, pc, end);
    GuardParts(pl.chunk.code, a, pc, end);
    var inner, pl2, next := ArmScope(WithScrutinee(sc), p), Inside(pl, v), pc + ArmWidth(a);
    var g := Gen(arm.guard.value, inner, pc + 7, AddPattern(consts, p));
    HoldsInside(pl, v, first.1);
    PoolLoaded(pl2, pc + 7, g, first.1);
    AfterIs(pc + 7, g.bytes, 0);
    var pcG, m := pc + 7 + |g.bytes|, Mach(pl2, pc + 7, env2, vals2, []);
    var vals3 := CompileGuard(pl2, arm, fuel, env2, inner, pc + 7, AddPattern(consts, p), vals2);
    var r := Eval(arm.guard.value, fuel, env2);
    InsideRuns(pl, v);
    SimulatesVal(pl2, m, r, inner, vals3, [], pcG);
    var mid := Mach(pl2, pcG, r.env, vals3, [] + [r.v]);
    GuardFailed(pl, p, pcG, next - 2, r.env, sc, vals, vals3, v, r.v);
    env1, vals1 := r.env[..|r.env| - 1], vals3[..|sc.locals|];
    Then(pl, m, mid, Machine.Running(Mach(pl, next, env1, vals1, [v])));
  }

  /** A value no arm takes: the tree-walker raises, the compiled code goes on with nil. */
  lemma UnmatchedIsNil(pl: Place, e: Expr, fuel: nat, env: Env, sc: Scope, pc: nat, consts: Pool, vals: seq<Value>)
    returns (vals': seq<Value>)
    requires e.Match? && Matches(pl, env, sc, vals) && Loaded(pl, pc, Gen(e, sc, pc, consts)) && env != []
    requires Compilable(e, |sc.locals|, true) && pl.budget <= fuel
    requires var r := Eval(e.scrutinee, fuel, env); r.Val? && r.env != [] && Passed(e.arms, r.v, fuel, r.env).Some?
    ensures Eval(e, fuel, env) == Fail(CannotMatch)
    ensures var r := Eval(e.scrutinee, fuel, env);
            var env' := Passed(e.arms, r.v, fuel, r.env).value;
            && env' != [] && Matches(pl, env', sc, vals')
            && Runs(pl, Mach(pl, pc, env, vals, []),
                    Machine.Running(Mach(pl, After(pc, Gen(e, sc, pc, consts).bytes, 0), env', vals', [] + [Nil])))
  {
    hide *;
    GenMatch(e, sc, pc, consts);
    EvalMatch(e, fuel, env);
    CompilableMatch(e, |sc.locals|, true);
    var c, r := Gen(e.scrutinee, sc, pc, consts), Eval(e.scrutinee, fuel, env);
    PassedFails(e.arms, r.v, fuel, r.env);
    var pc1, m, env' := After(pc, c.bytes, 0), Mach(pl, pc, env, vals, []), Passed(e.arms, r.v, fuel, r.env).value;
    var a := GenArms(e.arms, WithScrutinee(sc), After(pc, c.bytes, 2), c.consts);
    GenArmsExtends(e.arms, WithScrutinee(sc), After(pc, c.bytes, 2), c.consts);
    MatchParts(pl, pc, c, |sc.locals|, a.0, a.1);
    LoadedPool(pl, pc, Gen(e, sc, pc, consts));
    var end := pc1 + 2 + ArmsWidth(a.0) + 1;
    var vals1 := CompileExpr(pl, e.scrutinee, fuel, env, sc, pc, consts, vals, []);
    SimulatesVal(pl, m, r, sc, vals1, [], pc1);
    MatchesSmall(pl, r.env, sc, vals1);
    ScrutineeStored(pl, pc1, r.env, vals1, r.v);
    var m1, m2 := Mach(pl, pc1, r.env, vals1, [] + [r.v]), Mach(pl, pc1 + 2, r.env, vals1, [r.v]);
    Then(pl, m, m1, Machine.Running(m2));
    vals' := PassedRuns(pl, e.arms, r.v, fuel, r.env, sc, pc1 + 2, c.consts, vals1, end);
    var m3 := Mach(pl, end - 1, env', vals', [r.v]);
    Then(pl, m, m2, Machine.Running(m3));
    NoArm(pl, end - 1, env', vals', r.v);
    var nothing := Val(Nil, env');
    Then(pl, m, m3, Machine.Running(Mach(pl, end, env', vals', [r.v] + [Nil])));
    RunsSimulate(pl, m, nothing, sc, vals', [r.v], end);
    MatchDone(pl, m, nothing, sc, vals', r.v, end);
    SimulatesVal(pl, m, nothing, sc, vals', [], end + 2);
  }
}
