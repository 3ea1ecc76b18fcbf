/**
 The reference semantics: the tree-walking evaluator over a scope chain
 (`src/interpreter/env.rs`, `eval_expr` in `src/interpreter/mod.rs`), for
 expressions without calls, exceptions, transactions and loop exits.
 */
module TreeWalker {
  import opened Values
  import opened ScopeChains
  import Patterns

  datatype Expr =
    | Literal(v: Value)
    | Ident(x: string)
    | Unary(uop: UnaryOp, e: Expr)
    | Binary(op: BinOp, lhs: Expr, rhs: Expr)
    | If(cond: Expr, thn: Expr, els: Option<Expr>)
    | Block(stmts: seq<Stmt>, tail: Option<Expr>)
    | Paren(e: Expr)
    | Assign(x: string, e: Expr)
    | Compound(op: BinOp, x: string, e: Expr)
    | While(cond: Expr, body: Expr)
    | Match(scrutinee: Expr, arms: seq<Arm>)

  datatype Arm = Arm(pattern: Patterns.Pattern, guard: Option<Expr>, body: Expr)

  datatype Stmt = Let(x: string, e: Expr) | ExprStmt(e: Expr)

  // ----- evaluation -----

  /** `OutOfFuel`: the step budget of some loop ran out. */
  datatype Evaluation = Val(v: Value, env: Env) | Fail(error: Error) | OutOfFuel

  function FromOp(r: Result<Value, Error>, env: Env): Evaluation {
    match r
    case Ok(v) => Val(v, env)
    case Err(err) => Fail(err)
  }

  predicate ShortCircuits(op: BinOp, left: Value) {
    (op == And && !Truthy(left)) || (op == Or && Truthy(left))
  }

  function AssignResult(env: Env, x: string, v: Value): (r: Evaluation)
    ensures r.Val? ==> |r.env| == |env|
  {
    match Update(env, x, v)
    case None => Fail(UnboundAssign)
    case Some(env1) => Val(Nil, env1)
  }

  function EvalOption(e: Option<Expr>, fuel: nat, env: Env): (r: Evaluation)
    requires env != []
    ensures r.Val? ==> |r.env| == |env|
    decreases fuel, e, 1
  {
    match e
    case None => Val(Nil, env)
    case Some(e1) => Eval(e1, fuel, env)
  }

  function EvalStmt(s: Stmt, fuel: nat, env: Env): (r: Evaluation)
    requires env != []
    ensures r.Val? ==> |r.env| == |env|
    decreases fuel, s, 1
  {
    match s
    case Let(x, e) =>
      var r := Eval(e, fuel, env);
      if r.Val? then Val(Nil, Define(r.env, x, r.v)) else r
    case ExprStmt(e) => Eval(e, fuel, env)
  }

  function EvalStmts(stmts: seq<Stmt>, fuel: nat, env: Env): (r: Evaluation)
    requires env != []
    ensures r.Val? ==> |r.env| == |env|
    decreases fuel, stmts, 0
  {
    if stmts == [] then Val(Nil, env)
    else
      var r := EvalStmt(stmts[0], fuel, env);
      if r.Val? then EvalStmts(stmts[1..], fuel, r.env) else r
  }

  function Eval(e: Expr, fuel: nat, env: Env): (r: Evaluation)
    requires env != []
    ensures r.Val? ==> |r.env| == |env|
    decreases fuel, e, 0
  {
    match e
    case Literal(v) => Val(v, env)
    case Ident(x) =>
      (match Get(env, x)
       case None => Fail(NameError)
       case Some(v) => Val(v, env))
    case Unary(uop, e1) =>
      var r := Eval(e1, fuel, env);
      if r.Val? then FromOp(ApplyUnary(uop, r.v), r.env) else r
    case Binary(op, lhs, rhs) =>
      var r1 := Eval(lhs, fuel, env);
      if !r1.Val? || ShortCircuits(op, r1.v) then r1
      else
        var r2 := Eval(rhs, fuel, r1.env);
        if !r2.Val? || op in {And, Or} then r2
        else FromOp(ApplyBinOp(op, r1.v, r2.v), r2.env)
    case If(cond, thn, els) =>
      var r := Eval(cond, fuel, env);
      if !r.Val? then r
      else if Truthy(r.v) then Eval(thn, fuel, r.env)
      else EvalOption(els, fuel, r.env)
    case Block(stmts, tail) =>
      var r1 := EvalStmts(stmts, fuel, env + [map[]]);
      if !r1.Val? then r1
      else
        var r2 := EvalOption(tail, fuel, r1.env);
        if r2.Val? then Val(r2.v, r2.env[..|env|]) else r2
    case Paren(e1) => Eval(e1, fuel, env)
    case Assign(x, e1) =>
      var r := Eval(e1, fuel, env);
      if r.Val? then AssignResult(r.env, x, r.v) else r
    case Compound(op, x, e1) =>
      (match Get(env, x)
       case None => Fail(NameError)
       case Some(cur) =>
         var r := Eval(e1, fuel, env);
         if !r.Val? then r
         else
           match ApplyBinOp(op, cur, r.v)
           case Err(err) => Fail(err)
           case Ok(v) => AssignResult(r.env, x, v))
    case While(cond, body) =>
      if fuel == 0 then OutOfFuel
      else
        var r1 := Eval(cond, fuel - 1, env);
        if !r1.Val? then r1
        else if !Truthy(r1.v) then Val(Nil, r1.env)
        else
          var r2 := Eval(body, fuel - 1, r1.env);
          if r2.Val? then Eval(e, fuel - 1, r2.env) else r2
    case Match(scrutinee, arms) =>
      var r := Eval(scrutinee, fuel, env);
      if r.Val? then EvalArms(arms, r.v, fuel, r.env) else r
  }

  /** The result in the enclosing scope. */
  function Leave(r: Evaluation, n: nat): (s: Evaluation)
    requires r.Val? ==> n <= |r.env|
    ensures s.Val? ==> |s.env| == n
  {
    if r.Val? then Val(r.v, r.env[..n]) else r
  }

  /** The first arm whose pattern matches and whose guard holds, in a scope of its own. */
  function EvalArms(arms: seq<Arm>, v: Value, fuel: nat, env: Env): (r: Evaluation)
    requires env != []
    ensures r.Val? ==> |r.env| == |env|
    decreases fuel, arms, 0
  {
    if arms == [] then Fail(CannotMatch)
    else
      var m := Patterns.MatchTree(arms[0].pattern, v, map[]);
      if !m.0 then EvalArms(arms[1..], v, fuel, env)
      else
        var g := EvalGuard(arms[0], fuel, env + [m.1]);
        if !g.Val? then g
        else if Truthy(g.v) then Leave(EvalBody(arms[0], fuel, g.env), |env|)
        else EvalArms(arms[1..], v, fuel, g.env[..|env|])
  }

  /** A missing guard holds. */
  function EvalGuard(arm: Arm, fuel: nat, env: Env): (r: Evaluation)
    requires env != []
    ensures r.Val? ==> |r.env| == |env|
    decreases fuel, arm, 1
  {
    if arm.guard.None? then Val(Bool(true), env) else Eval(arm.guard.value, fuel, env)
  }

  function EvalBody(arm: Arm, fuel: nat, env: Env): (r: Evaluation)
    requires env != []
    ensures r.Val? ==> |r.env| == |env|
    decreases fuel, arm, 1
  {
    Eval(arm.body, fuel, env)
  }

  /** A program's value is the value of its last statement if that is an unterminated expression. */
  function RunProgram(stmts: seq<Stmt>, result: Option<Expr>, fuel: nat, globals: Frame): Evaluation {
    var r := EvalStmts(stmts, fuel, [globals]);
    if r.Val? then EvalOption(result, fuel, r.env) else r
  }
}
