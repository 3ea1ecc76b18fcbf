/**
 One unfolding of code generation and of evaluation per construct, so that the
 correctness proofs need not look at the whole definitions.
 */
module Unfoldings {
  import opened Values
  import opened Bytecode
  import opened ScopeChains
  import opened TreeWalker
  import opened CodeGen
  import Patterns

  lemma GenLogical(e: Expr, sc: Scope, pc: nat, consts: Pool)
    requires e.Binary? && e.op in {And, Or}
    ensures var l := Gen(e.lhs, sc, pc, consts);
            var rhsPc := After(pc, l.bytes, 5);
            var r := Gen(e.rhs, sc, rhsPc, l.consts);
            Gen(e, sc, pc, consts) == Code(JoinLogical(e.op, l.bytes, r.bytes, After(rhsPc, r.bytes, 0)), r.consts)
  {
    hide After, JoinLogical, Extends, GenStmts, GenOption, JoinWhile, Join3, JoinIf;
  }

  lemma GenStrict(e: Expr, sc: Scope, pc: nat, consts: Pool)
    requires e.Binary? && e.op !in {And, Or}
    ensures var l := Gen(e.lhs, sc, pc, consts);
            var r := Gen(e.rhs, sc, After(pc, l.bytes, 0), l.consts);
            Gen(e, sc, pc, consts) == Code(Join3(l.bytes, r.bytes, Plain(Strict(e.op))), r.consts)
  {
    hide After, JoinLogical, Extends, GenStmts, GenOption, JoinWhile, Join3, JoinIf;
  }

  lemma GenIf(e: Expr, sc: Scope, pc: nat, consts: Pool)
    requires e.If?
    ensures var c := Gen(e.cond, sc, pc, consts);
            var thnPc := After(pc, c.bytes, 3);
            var t := Gen(e.thn, sc, thnPc, c.consts);
            var elsPc := After(thnPc, t.bytes, 3);
            var f := GenOption(e.els, sc, elsPc, t.consts);
            Gen(e, sc, pc, consts) == Code(JoinIf(c.bytes, t.bytes, f.bytes, elsPc, After(elsPc, f.bytes, 0)), f.consts)
  {
    hide After, JoinLogical, Extends, GenStmts, GenOption, JoinWhile, Join3, JoinIf;
  }

  lemma GenBlock(e: Expr, sc: Scope, pc: nat, consts: Pool)
    requires e.Block?
    ensures var (b, inner) := GenStmts(e.stmts, Scope(sc.locals, sc.depth + 1), pc, consts);
            var t := GenOption(e.tail, inner, After(pc, b.bytes, 0), b.consts);
            && Grows(Scope(sc.locals, sc.depth + 1), inner)
            && |inner.locals| >= |sc.locals|
            && Gen(e, sc, pc, consts) ==
                 Code(Join3(b.bytes, t.bytes, DropLocals(|inner.locals| - |sc.locals|)), t.consts)
  {
    hide After, JoinLogical, Extends, GenStmts, GenOption, JoinWhile, Join3, JoinIf, DropLocals;
  }

  lemma GenAssign(e: Expr, sc: Scope, pc: nat, consts: Pool)
    requires e.Assign?
    ensures var c := Gen(e.e, sc, pc, consts);
            var st := Store(sc, e.x, c.consts);
            Gen(e, sc, pc, consts) == Code(Join3(c.bytes, st.bytes, Plain(PushNil)), st.consts)
  {
    hide After, JoinLogical, Extends, GenStmts, GenOption, JoinWhile, Join3, JoinIf, Store;
  }

  lemma GenCompound(e: Expr, sc: Scope, pc: nat, consts: Pool)
    requires e.Compound?
    ensures var ld := Load(sc, e.x, consts);
            var c := Gen(e.e, sc, After(pc, ld.bytes, 0), ld.consts);
            var st := Store(sc, e.x, c.consts);
            Gen(e, sc, pc, consts) ==
              Code(Join3(ld.bytes, c.bytes, Join3(Plain(Strict(e.op)), st.bytes, Plain(PushNil))), st.consts)
  {
    hide After, JoinLogical, Extends, GenStmts, GenOption, JoinWhile, Join3, JoinIf, Store, Load;
  }

  lemma GenWhile(e: Expr, sc: Scope, pc: nat, consts: Pool)
    requires e.While?
    ensures var start := After(pc, [], 5);
            var c := Gen(e.cond, sc, start, consts);
            var bodyPc := After(start, c.bytes, 3);
            var b := Gen(e.body, sc, bodyPc, c.consts);
            Gen(e, sc, pc, consts) == Code(JoinWhile(c.bytes, b.bytes, start, After(bodyPc, b.bytes, 4)), b.consts)
  {
    hide After, JoinLogical, Extends, GenStmts, GenOption, JoinWhile, Join3, JoinIf;
  }

  lemma EvalLogical(e: Expr, fuel: nat, env: Env)
    requires e.Binary? && e.op in {And, Or} && env != []
    ensures var r1 := Eval(e.lhs, fuel, env);
            Eval(e, fuel, env) == if !r1.Val? || ShortCircuits(e.op, r1.v) then r1 else Eval(e.rhs, fuel, r1.env)
  {
    hide EvalOption, EvalStmts, ApplyBinOp, ApplyUnary;
  }

  lemma EvalStrict(e: Expr, fuel: nat, env: Env)
    requires e.Binary? && e.op !in {And, Or} && env != []
    ensures var r1 := Eval(e.lhs, fuel, env);
            Eval(e, fuel, env) ==
              if !r1.Val? then r1
              else
                var r2 := Eval(e.rhs, fuel, r1.env);
                if r2.Val? then FromOp(ApplyBinOp(e.op, r1.v, r2.v), r2.env) else r2
  {
    hide EvalOption, EvalStmts, ApplyBinOp, ApplyUnary;
  }

  lemma EvalIf(e: Expr, fuel: nat, env: Env)
    requires e.If? && env != []
    ensures var r1 := Eval(e.cond, fuel, env);
            Eval(e, fuel, env) ==
              if !r1.Val? then r1
              else if Truthy(r1.v) then Eval(e.thn, fuel, r1.env)
              else EvalOption(e.els, fuel, r1.env)
  {
    hide EvalOption, EvalStmts, ApplyBinOp, ApplyUnary;
  }

  lemma EvalBlock(e: Expr, fuel: nat, env: Env)
    requires e.Block? && env != []
    ensures var r1 := EvalStmts(e.stmts, fuel, env + [map[]]);
            Eval(e, fuel, env) ==
              if !r1.Val? then r1
              else
                var r2 := EvalOption(e.tail, fuel, r1.env);
                if r2.Val? then Val(r2.v, r2.env[..|env|]) else r2
  {
    hide EvalOption, EvalStmts, ApplyBinOp, ApplyUnary;
  }

  lemma EvalCompound(e: Expr, fuel: nat, env: Env)
    requires e.Compound? && env != []
    ensures Eval(e, fuel, env) ==
              if Get(env, e.x).None? then Fail(NameError)
              else
                var r := Eval(e.e, fuel, env);
                if !r.Val? then r
                else
                  match ApplyBinOp(e.op, Get(env, e.x).value, r.v)
                  case Err(err) => Fail(err)
                  case Ok(v) => AssignResult(r.env, e.x, v)
  {
    hide EvalOption, EvalStmts, ApplyBinOp, ApplyUnary, AssignResult, Get;
  }

  lemma EvalWhile(e: Expr, fuel: nat, env: Env)
    requires e.While? && env != []
    ensures fuel == 0 ==> Eval(e, fuel, env) == OutOfFuel
    ensures fuel > 0 ==>
              var r1 := Eval(e.cond, fuel - 1, env);
              Eval(e, fuel, env) ==
                if !r1.Val? then r1
                else if !Truthy(r1.v) then Val(Nil, r1.env)
                else
                  var r2 := Eval(e.body, fuel - 1, r1.env);
                  if r2.Val? then Eval(e, fuel - 1, r2.env) else r2
  {
    hide EvalOption, EvalStmts, ApplyBinOp, ApplyUnary;
  }

  lemma GenUnary(e: Expr, sc: Scope, pc: nat, consts: Pool)
    requires e.Unary?
    ensures var c := Gen(e.e, sc, pc, consts);
            Gen(e, sc, pc, consts) ==
              Code(Join3(c.bytes, Plain(if e.uop == Neg then Negate else LogicalNot), []), c.consts)
  {
    hide After, JoinLogical, Extends, GenStmts, GenOption, JoinWhile, Join3, JoinIf;
  }

  lemma EvalUnary(e: Expr, fuel: nat, env: Env)
    requires e.Unary? && env != []
    ensures var r := Eval(e.e, fuel, env);
            Eval(e, fuel, env) == if r.Val? then FromOp(ApplyUnary(e.uop, r.v), r.env) else r
  {
    hide EvalOption, EvalStmts, ApplyBinOp, ApplyUnary;
  }

  lemma EvalAssign(e: Expr, fuel: nat, env: Env)
    requires e.Assign? && env != []
    ensures var r := Eval(e.e, fuel, env);
            Eval(e, fuel, env) == if r.Val? then AssignResult(r.env, e.x, r.v) else r
  {
    hide EvalOption, EvalStmts, ApplyBinOp, ApplyUnary, AssignResult;
  }

  lemma GenStmtsStep(stmts: seq<Stmt>, sc: Scope, pc: nat, consts: Pool)
    requires stmts != []
    ensures var first := GenStmt(stmts[0], sc, pc, consts);
            var rest := GenStmts(stmts[1..], first.1, After(pc, first.0.bytes, 0), first.0.consts);
            && GenStmts(stmts, sc, pc, consts) == (Code(Join3(first.0.bytes, rest.0.bytes, []), rest.0.consts), rest.1)
            && Extends(first.0.consts, rest.0.consts)
  {
    hide After, Extends, GenStmt, Join3;
  }

  lemma EvalStmtsStep(stmts: seq<Stmt>, fuel: nat, env: Env)
    requires stmts != [] && env != []
    ensures var r := EvalStmt(stmts[0], fuel, env);
            EvalStmts(stmts, fuel, env) == if r.Val? then EvalStmts(stmts[1..], fuel, r.env) else r
  {
    hide EvalStmt;
  }

  lemma GenMatch(e: Expr, sc: Scope, pc: nat, consts: Pool)
    requires e.Match?
    ensures var c := Gen(e.scrutinee, sc, pc, consts);
            var a := GenArms(e.arms, WithScrutinee(sc), After(pc, c.bytes, 2), c.consts);
            Gen(e, sc, pc, consts) == Code(JoinMatch(c.bytes, |sc.locals|, a.0, pc), a.1)
  {
    hide After, JoinLogical, Extends, GenStmts, GenOption, JoinWhile, Join3, JoinIf, JoinMatch, GenArms;
  }

  lemma GenArmsStep(arms: seq<Arm>, sc: Scope, pc: nat, consts: Pool)
    requires arms != []
    ensures var first := GenArm(arms[0], sc, pc, consts);
            var rest := GenArms(arms[1..], sc, pc + ArmWidth(first.0), first.1);
            && GenArms(arms, sc, pc, consts) == ([first.0] + rest.0, rest.1)
            && Extends(first.1, rest.1)
  {
    hide GenArm, Extends;
  }

  /** What an arm's code is made of. */
  lemma GenArmParts(arm: Arm, sc: Scope, pc: nat, consts: Pool)
    ensures var inner, consts1 := ArmScope(sc, arm.pattern), AddPattern(consts, arm.pattern);
            var r := GenArm(arm, sc, pc, consts);
            && r.0.test == |consts.patterns| && r.0.names == |Patterns.Names(arm.pattern)|
            && Extends(consts1, r.1)
            && match arm.guard
               case None =>
                 var b := Gen(arm.body, inner, After(pc, [], 7), consts1);
                 r.0.guard == None && r.0.body == b.bytes && r.1 == b.consts
               case Some(guard) =>
                 var g := Gen(guard, inner, After(pc, [], 7), consts1);
                 var b := Gen(arm.body, inner, After(pc, g.bytes, 10), g.consts);
                 r.0.guard == Some(g.bytes) && r.0.body == b.bytes && r.1 == b.consts
  {
    hide Gen, ArmScope, Patterns.Names, After;
  }

  lemma EvalMatch(e: Expr, fuel: nat, env: Env)
    requires e.Match? && env != []
    ensures var r := Eval(e.scrutinee, fuel, env);
            Eval(e, fuel, env) == if r.Val? then EvalArms(e.arms, r.v, fuel, r.env) else r
  {
    hide EvalOption, EvalStmts, ApplyBinOp, ApplyUnary, EvalArms;
  }

  lemma EvalArmsStep(arms: seq<Arm>, v: Value, fuel: nat, env: Env)
    requires env != [] && arms != []
    ensures var m := Patterns.MatchTree(arms[0].pattern, v, map[]);
            EvalArms(arms, v, fuel, env) ==
              if !m.0 then EvalArms(arms[1..], v, fuel, env)
              else
                var g := EvalGuard(arms[0], fuel, env + [m.1]);
                if !g.Val? then g
                else if Truthy(g.v) then Leave(Eval(arms[0].body, fuel, g.env), |env|)
                else EvalArms(arms[1..], v, fuel, g.env[..|env|])
  {
    hide EvalGuard, Patterns.MatchTree, Leave, Truthy;
  }
}
