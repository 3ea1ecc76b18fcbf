/**
 The compiled code does what the tree-walker does: it pushes the same value,
 leaves the same bindings in slots and globals, and fails with the same error.
 */
module CompilerCorrectness {
  import opened Values
  import opened Bytecode
  import Machine
  import opened ScopeChains
  import opened TreeWalker
  import opened CodeGen
  import opened Slots
  import Patterns

  // ----- which programs -----

  /** How many locals a statement list declares. */
  function Lets(stmts: seq<Stmt>): nat {
    if stmts == [] then 0 else (if stmts[0].Let? then 1 else 0) + Lets(stmts[1..])
  }

  predicate CompilableOption(e: Option<Expr>, n: nat, clear: bool)
    decreases e, 1
  {
    e.Some? ==> Compilable(e.value, n, clear)
  }

  /** A declaration at the top level (`top`) makes a global and takes no slot. */
  predicate CompilableStmt(s: Stmt, n: nat, clear: bool, top: bool)
    decreases s, 1
  {
    Compilable(s.e, n, clear) && (s.Let? ==> s.x != SCRUTINEE) && (s.Let? && !top ==> clear && n < 255)
  }

  predicate CompilableStmts(stmts: seq<Stmt>, n: nat, clear: bool, top: bool)
    decreases stmts, 0
  {
    stmts != [] ==>
      && CompilableStmt(stmts[0], n, clear, top)
      && CompilableStmts(stmts[1..], if stmts[0].Let? && !top then n + 1 else n, clear, top)
  }

  /**
   With `n` locals declared: slots and the number of a block's locals fit a byte, blocks and `match` declare locals
   only where no operand lies above the locals (`clear`), the alternatives of or-patterns name alike, and no variable
   has the name the compiler gives to what is being matched.
   */
  predicate Compilable(e: Expr, n: nat, clear: bool)
    decreases e, 0
  {
    match e
    case Literal(_) => true
    case Ident(x) => x != SCRUTINEE
    case Unary(_, e1) => Compilable(e1, n, clear)
    case Binary(op, lhs, rhs) =>
      Compilable(lhs, n, clear) && Compilable(rhs, n, clear && op in {And, Or})
    case If(cond, thn, els) =>
      Compilable(cond, n, clear) && Compilable(thn, n, clear) && CompilableOption(els, n, clear)
    case Block(stmts, tail) =>
      CompilableStmts(stmts, n, clear, false) && CompilableOption(tail, n + Lets(stmts), clear)
    case Paren(e1) => Compilable(e1, n, clear)
    case Assign(x, e1) => x != SCRUTINEE && Compilable(e1, n, clear)
    case Compound(op, x, e1) => x != SCRUTINEE && op !in {And, Or} && Compilable(e1, n, false)
    case While(cond, body) => Compilable(cond, n, clear) && Compilable(body, n, clear)
    case Match(scrutinee, arms) =>
      clear && Compilable(scrutinee, n, clear) && forall k :: 0 <= k < |arms| ==> CompilableArm(arms[k], n, true)
  }

  /** An arm, in a scope with `n` locals around the `match`; `clear` if what is matched lies right above them. */
  predicate CompilableArm(arm: Arm, n: nat, clear: bool)
    decreases arm, 2
  {
    var names := Patterns.Names(arm.pattern);
    && Patterns.SameNames(arm.pattern) && SCRUTINEE !in names && n + 1 + |names| <= 255
    && CompilableOption(arm.guard, n + 1 + |names|, clear)
    && Compilable(arm.body, n + 1 + |names|, clear)
  }

  // ----- machine states that represent tree-walker states -----

  /**
   The chunk being run, what lies under the frame, the loops around it, the values being matched around it, and how
   many steps a run takes at least if the evaluation it follows runs out of its budget.
   */
  datatype Place = Place(chunk: Machine.Chunk, under: seq<Value>, loops: seq<Machine.LoopHandler>, hidden: seq<Value>,
                         budget: nat)

  function Mach(pl: Place, ip: nat, env: Env, vals: seq<Value>, temps: seq<Value>): Machine.Vm
    requires env != []
  {
    Machine.Vm(ip, pl.under + vals + temps, env[0], pl.loops)
  }

  ghost predicate Runs(pl: Place, m: Machine.Vm, end: Machine.Next) {
    Machine.Runs(pl.chunk, |pl.under|, m, end)
  }

  /** At least `k` steps without an end. */
  ghost predicate RunsOn(pl: Place, m: Machine.Vm, k: nat) {
    exists n: nat :: n >= k && Machine.Steps(pl.chunk, |pl.under|, m, n).Running?
  }

  /** Where the back ends part: assigning an unbound name makes a global, and an unmatched value yields nil. */
  predicate Excused(err: Error) {
    err == UnboundAssign || err == CannotMatch
  }

  predicate Loaded(pl: Place, pc: nat, c: Code) {
    && At(pl.chunk.code, pc, c.bytes)
    && Extends(c.consts, pl.chunk.consts)
    && |pl.chunk.code| < 65536
    && |pl.chunk.consts.values| <= 256 && |pl.chunk.consts.patterns| <= 256
  }

  predicate Matches(pl: Place, env: Env, sc: Scope, vals: seq<Value>) {
    Represents(env, sc.locals, sc.depth, vals) && Hidden(sc.locals, vals) == pl.hidden && |sc.locals| <= 255
  }

  /** Running from `m` has the effect the evaluation result `r` describes. */
  ghost predicate Simulates(pl: Place, m: Machine.Vm, r: Evaluation, sc: Scope, vals: seq<Value>, temps: seq<Value>,
                            end: nat) {
    match r
    case Val(v, env) =>
      Matches(pl, env, sc, vals) && Runs(pl, m, Machine.Running(Mach(pl, end, env, vals, temps + [v])))
    case Fail(err) => Excused(err) || Runs(pl, m, Machine.Faulted(err))
    case OutOfFuel => RunsOn(pl, m, pl.budget)
  }

  lemma MatchesNonempty(pl: Place, env: Env, sc: Scope, vals: seq<Value>)
    requires Matches(pl, env, sc, vals)
    ensures env != [] && |vals| == |sc.locals|
  {
    SameLength(env, sc.locals, sc.depth, vals);
  }

  lemma SimulatesVal(pl: Place, m: Machine.Vm, r: Evaluation, sc: Scope, vals: seq<Value>, temps: seq<Value>, end: nat)
    requires Simulates(pl, m, r, sc, vals, temps, end) && r.Val?
    ensures Matches(pl, r.env, sc, vals) && r.env != [] && |vals| == |sc.locals|
    ensures Runs(pl, m, Machine.Running(Mach(pl, end, r.env, vals, temps + [r.v])))
  {
    hide Runs, Mach;
  }

  lemma RunsSimulate(pl: Place, m: Machine.Vm, r: Evaluation, sc: Scope, vals: seq<Value>, temps: seq<Value>, end: nat)
    requires r.Val? && Matches(pl, r.env, sc, vals) && r.env != []
    requires Runs(pl, m, Machine.Running(Mach(pl, end, r.env, vals, temps + [r.v])))
    ensures Simulates(pl, m, r, sc, vals, temps, end)
  {
    hide Runs, Mach, Matches;
  }

  // ----- chaining runs -----

  lemma ThenOn(pl: Place, m: Machine.Vm, mid: Machine.Vm, k: nat)
    requires Runs(pl, m, Machine.Running(mid)) && RunsOn(pl, mid, k)
    ensures RunsOn(pl, m, k)
  {
    var i: nat :| Machine.Steps(pl.chunk, |pl.under|, m, i) == Machine.Running(mid);
    var j: nat :| j >= k && Machine.Steps(pl.chunk, |pl.under|, mid, j).Running?;
    Machine.StepsAppend(pl.chunk, |pl.under|, m, mid, Machine.Steps(pl.chunk, |pl.under|, mid, j), i, j);
  }

  lemma Then(pl: Place, m: Machine.Vm, mid: Machine.Vm, end: Machine.Next)
    requires Runs(pl, m, Machine.Running(mid)) && Runs(pl, mid, end)
    ensures Runs(pl, m, end)
  {
    Machine.RunsTransitive(pl.chunk, |pl.under|, m, mid, end);
  }

  /** The first part took a step at least. */
  lemma ThenOnMore(pl: Place, m: Machine.Vm, mid: Machine.Vm, k: nat)
    requires Runs(pl, m, Machine.Running(mid)) && m != mid && RunsOn(pl, mid, k)
    ensures RunsOn(pl, m, k + 1)
  {
    var i: nat :| Machine.Steps(pl.chunk, |pl.under|, m, i) == Machine.Running(mid);
    var j: nat :| j >= k && Machine.Steps(pl.chunk, |pl.under|, mid, j).Running?;
    Machine.StepsAppend(pl.chunk, |pl.under|, m, mid, Machine.Steps(pl.chunk, |pl.under|, mid, j), i, j);
  }

  lemma ThenSimulates(pl: Place, m: Machine.Vm, mid: Machine.Vm, r: Evaluation, sc: Scope, vals: seq<Value>,
                      temps: seq<Value>, end: nat)
    requires Runs(pl, m, Machine.Running(mid)) && Simulates(pl, mid, r, sc, vals, temps, end)
    ensures Simulates(pl, m, r, sc, vals, temps, end)
  {
    hide Runs, Matches;
    match r
    case Val(v, env) =>
      MatchesNonempty(pl, env, sc, vals);
      Then(pl, m, mid, Machine.Running(Mach(pl, end, env, vals, temps + [v])));
    case Fail(err) =>
      if !Excused(err) {
        Then(pl, m, mid, Machine.Faulted(err));
      }
    case OutOfFuel => ThenOn(pl, m, mid, pl.budget);
  }

  // ----- one instruction -----

  lemma RunPlain(pl: Place, m: Machine.Vm, op: OpCode)
    requires HasOpcode(op) && OperandBytes(op) == 0 && At(pl.chunk.code, m.ip, Plain(op))
    ensures Runs(pl, m, Machine.ExecPlain(op, m.(ip := m.ip + 1)))
  {
    hide Machine.Runs;
    Machine.RunsInstr(pl.chunk, |pl.under|, m, Instr(op, 0, 0));
  }

  lemma RunByte(pl: Place, m: Machine.Vm, op: OpCode, n: nat)
    requires OperandBytes(op) == 1 && n < 256 && At(pl.chunk.code, m.ip, WithByte(op, n))
    ensures Runs(pl, m, Machine.ExecByte(pl.chunk, |pl.under|, op, n, m.(ip := m.ip + 2)))
  {
    hide Machine.Runs;
    Machine.RunsInstr(pl.chunk, |pl.under|, m, Instr(op, n, 0));
  }

  lemma RunJump(pl: Place, m: Machine.Vm, op: OpCode, addr: nat)
    requires OperandBytes(op) == 2 && addr < 65536 && At(pl.chunk.code, m.ip, WithAddr(op, addr))
    ensures Runs(pl, m, Machine.ExecJump(op, addr, m.(ip := m.ip + 3)))
  {
    hide Machine.Runs;
    Machine.RunsInstr(pl.chunk, |pl.under|, m, Instr(op, addr, 0));
  }

  /** The top of a stack with one more temporary. */
  lemma Top(under: seq<Value>, vals: seq<Value>, temps: seq<Value>, v: Value)
    ensures var s := under + vals + (temps + [v]);
            && s != [] && s[|s| - 1] == v && s[..|s| - 1] == under + vals + temps
            && s == under + vals + temps + [v]
  {
  }

  lemma SetSlot(under: seq<Value>, vals: seq<Value>, temps: seq<Value>, slot: nat, v: Value)
    requires slot < |vals|
    ensures (under + vals + temps)[|under| + slot := v] == under + vals[slot := v] + temps
  {
  }

  // ----- leaves: literals, loads, stores -----

  lemma ConstRuns(pl: Place, pc: nat, v: Value, env: Env, vals: seq<Value>, temps: seq<Value>, consts: Pool)
    requires env != [] && Loaded(pl, pc, GenLiteral(v, consts))
    ensures Runs(pl, Mach(pl, pc, env, vals, temps),
                 Machine.Running(Mach(pl, pc + |GenLiteral(v, consts).bytes|, env, vals, temps + [v])))
  {
    hide Machine.Runs;
    var m := Mach(pl, pc, env, vals, temps);
    Top(pl.under, vals, temps, v);
    match v
    case Nil => RunPlain(pl, m, PushNil);
    case Bool(b) => RunPlain(pl, m, if b then PushTrue else PushFalse);
    case _ =>
      var i := ConstIndex(consts, v);
      assert pl.chunk.consts.values[i] == v;
      RunByte(pl, m, Const, i);
  }

  lemma LoadLocalRuns(pl: Place, pc: nat, slot: nat, env: Env, vals: seq<Value>, temps: seq<Value>)
    requires env != [] && slot < |vals| && slot < 256
    requires At(pl.chunk.code, pc, WithByte(LoadLocal, slot))
    ensures Runs(pl, Mach(pl, pc, env, vals, temps), Machine.Running(Mach(pl, pc + 2, env, vals, temps + [vals[slot]])))
  {
    hide Machine.Runs;
    var m := Mach(pl, pc, env, vals, temps);
    assert m.stack[|pl.under| + slot] == vals[slot];
    Top(pl.under, vals, temps, vals[slot]);
    RunByte(pl, m, LoadLocal, slot);
  }

  lemma LoadGlobalRuns(pl: Place, pc: nat, x: string, i: nat, env: Env, vals: seq<Value>, temps: seq<Value>)
    requires env != [] && i < 256 && i < |pl.chunk.consts.values| && pl.chunk.consts.values[i] == Str(x)
    requires At(pl.chunk.code, pc, WithByte(LoadGlobal, i))
    ensures Runs(pl, Mach(pl, pc, env, vals, temps),
                 if x in env[0] then Machine.Running(Mach(pl, pc + 2, env, vals, temps + [env[0][x]]))
                 else Machine.Faulted(NameError))
  {
    hide Machine.Runs;
    var m := Mach(pl, pc, env, vals, temps);
    RunByte(pl, m, LoadGlobal, i);
    if x in env[0] {
      Top(pl.under, vals, temps, env[0][x]);
    }
  }

  lemma LoadRuns(pl: Place, pc: nat, x: string, env: Env, sc: Scope, vals: seq<Value>, temps: seq<Value>,
                 consts: Pool)
    requires Matches(pl, env, sc, vals) && Loaded(pl, pc, Load(sc, x, consts)) && x != SCRUTINEE
    ensures Simulates(pl, Mach(pl, pc, env, vals, temps),
                      if Get(env, x).Some? then Val(Get(env, x).value, env) else Fail(NameError),
                      sc, vals, temps, pc + 2)
    ensures |Load(sc, x, consts).bytes| == 2
  {
    hide Runs, Get, Represents, Hidden;
    MatchesNonempty(pl, env, sc, vals);
    LookupAgrees(env, sc.locals, sc.depth, vals, sc.depth, x);
    match Resolve(sc.locals, sc.depth, x)
    case Some(slot) =>
      LoadLocalRuns(pl, pc, slot, env, vals, temps);
    case None =>
      var i := ConstIndex(consts, Str(x));
      assert pl.chunk.consts.values[i] == Str(x);
      LoadGlobalRuns(pl, pc, x, i, env, vals, temps);
  }

  lemma StoreLocalRuns(pl: Place, pc: nat, slot: nat, env: Env, vals: seq<Value>, temps: seq<Value>, v: Value)
    requires env != [] && slot < |vals| && slot < 256
    requires At(pl.chunk.code, pc, WithByte(AssignLocal, slot)) && At(pl.chunk.code, pc + 2, Plain(PushNil))
    ensures Runs(pl, Mach(pl, pc, env, vals, temps + [v]),
                 Machine.Running(Mach(pl, pc + 3, env, vals[slot := v], temps + [Nil])))
  {
    hide *;
    var m := Mach(pl, pc, env, vals, temps + [v]);
    SlotEffect(pl, pc, slot, env, vals, temps, v);
    RunByte(pl, m, AssignLocal, slot);
    StoreNil(pl, m, env, vals[slot := v], temps, pc + 2);
  }

  lemma SlotEffect(pl: Place, pc: nat, slot: nat, env: Env, vals: seq<Value>, temps: seq<Value>, v: Value)
    requires env != [] && slot < |vals|
    ensures var m := Mach(pl, pc, env, vals, temps + [v]);
            && m.ip == pc && OperandBytes(AssignLocal) == 1
            && Machine.ExecByte(pl.chunk, |pl.under|, AssignLocal, slot, m.(ip := pc + 2)) ==
                 Machine.Running(Mach(pl, pc + 2, env, vals[slot := v], temps))
  {
    Top(pl.under, vals, temps, v);
    SetSlot(pl.under, vals, temps, slot, v);
  }

  lemma StoreGlobalRuns(pl: Place, pc: nat, x: string, i: nat, env: Env, vals: seq<Value>, temps: seq<Value>, v: Value)
    requires env != [] && i < 256 && i < |pl.chunk.consts.values| && pl.chunk.consts.values[i] == Str(x)
    requires At(pl.chunk.code, pc, WithByte(AssignGlobal, i)) && At(pl.chunk.code, pc + 2, Plain(PushNil))
    ensures Runs(pl, Mach(pl, pc, env, vals, temps + [v]),
                 Machine.Running(Mach(pl, pc + 3, env[0 := env[0][x := v]], vals, temps + [Nil])))
  {
    hide Machine.Runs;
    var m := Mach(pl, pc, env, vals, temps + [v]);
    Top(pl.under, vals, temps, v);
    RunByte(pl, m, AssignGlobal, i);
    StoreNil(pl, m, env[0 := env[0][x := v]], vals, temps, pc + 2);
  }

  /** A store and the `nil` an assignment evaluates to. */
  lemma StoreRuns(pl: Place, pc: nat, x: string, v: Value, env: Env, sc: Scope, vals: seq<Value>, temps: seq<Value>,
                  consts: Pool)
    returns (vals': seq<Value>)
    requires Matches(pl, env, sc, vals) && x != SCRUTINEE
    requires Loaded(pl, pc, Code(Store(sc, x, consts).bytes + Plain(PushNil), Store(sc, x, consts).consts))
    ensures Simulates(pl, Mach(pl, pc, env, vals, temps + [v]), AssignResult(env, x, v), sc, vals', temps, pc + 3)
    ensures |Store(sc, x, consts).bytes| == 2
  {
    hide Runs, Update, Represents, Hidden;
    MatchesNonempty(pl, env, sc, vals);
    AssignAgrees(env, sc.locals, sc.depth, vals, sc.depth, x, v);
    AtConcat(pl.chunk.code, pc, Store(sc, x, consts).bytes, Plain(PushNil));
    vals' := vals;
    match Resolve(sc.locals, sc.depth, x)
    case Some(slot) =>
      vals' := vals[slot := v];
      HiddenUpdate(sc.locals, vals, slot, v);
      StoreLocalRuns(pl, pc, slot, env, vals, temps, v);
      assert Mach(pl, pc + 3, Update(env, x, v).value, vals', temps + [Nil])
          == Mach(pl, pc + 3, env, vals', temps + [Nil]);
    case None =>
      if x in env[0] {
        var i := ConstIndex(consts, Str(x));
        assert pl.chunk.consts.values[i] == Str(x);
        StoreGlobalRuns(pl, pc, x, i, env, vals, temps, v);
      }
  }

  lemma StoreNil(pl: Place, m: Machine.Vm, env: Env, vals: seq<Value>, temps: seq<Value>, pc: nat)
    requires env != [] && At(pl.chunk.code, pc, Plain(PushNil))
    requires Runs(pl, m, Machine.Running(Mach(pl, pc, env, vals, temps)))
    ensures Runs(pl, m, Machine.Running(Mach(pl, pc + 1, env, vals, temps + [Nil])))
  {
    hide Machine.Runs;
    var mid := Mach(pl, pc, env, vals, temps);
    Top(pl.under, vals, temps, Nil);
    RunPlain(pl, mid, PushNil);
    Then(pl, m, mid, Machine.Running(Mach(pl, pc + 1, env, vals, temps + [Nil])));
  }

  // ----- operators and jumps on a represented state -----

  lemma UnaryRuns(pl: Place, pc: nat, uop: UnaryOp, v: Value, env: Env, sc: Scope, vals: seq<Value>, temps: seq<Value>)
    requires Matches(pl, env, sc, vals)
    requires At(pl.chunk.code, pc, Plain(if uop == Neg then Negate else LogicalNot))
    ensures Simulates(pl, Mach(pl, pc, env, vals, temps + [v]), FromOp(ApplyUnary(uop, v), env), sc, vals, temps,
                      pc + 1)
  {
    hide Runs, Matches, ApplyUnary;
    MatchesNonempty(pl, env, sc, vals);
    UnaryEffect(pl, pc, uop, v, env, vals, temps);
    RunPlain(pl, Mach(pl, pc, env, vals, temps + [v]), if uop == Neg then Negate else LogicalNot);
    hide Machine.ExecPlain, Mach;
  }

  lemma UnaryEffect(pl: Place, pc: nat, uop: UnaryOp, v: Value, env: Env, vals: seq<Value>, temps: seq<Value>)
    requires env != []
    ensures var m := Mach(pl, pc, env, vals, temps + [v]);
            Machine.ExecPlain(if uop == Neg then Negate else LogicalNot, m.(ip := m.ip + 1)) ==
              match ApplyUnary(uop, v)
              case Ok(r) => Machine.Running(Mach(pl, pc + 1, env, vals, temps + [r]))
              case Err(err) => Machine.Faulted(err)
  {
    hide ApplyUnary;
    Top(pl.under, vals, temps, v);
    match ApplyUnary(uop, v)
    case Ok(r) => Top(pl.under, vals, temps, r);
    case Err(_) =>
  }

  lemma StrictRuns(pl: Place, pc: nat, op: BinOp, a: Value, b: Value, env: Env, sc: Scope, vals: seq<Value>,
                   temps: seq<Value>)
    requires Matches(pl, env, sc, vals) && op !in {And, Or}
    requires At(pl.chunk.code, pc, Plain(Strict(op)))
    ensures Simulates(pl, Mach(pl, pc, env, vals, temps + [a] + [b]), FromOp(ApplyBinOp(op, a, b), env), sc, vals,
                      temps, pc + 1)
  {
    hide Runs, Matches, ApplyBinOp;
    MatchesNonempty(pl, env, sc, vals);
    StrictEffect(pl, pc, op, a, b, env, vals, temps);
    RunPlain(pl, Mach(pl, pc, env, vals, temps + [a] + [b]), Strict(op));
    hide Machine.ExecPlain, Mach;
  }

  lemma StrictEffect(pl: Place, pc: nat, op: BinOp, a: Value, b: Value, env: Env, vals: seq<Value>, temps: seq<Value>)
    requires env != []
    ensures var m := Mach(pl, pc, env, vals, temps + [a] + [b]);
            Machine.ExecPlain(Strict(op), m.(ip := m.ip + 1)) ==
              match ApplyBinOp(op, a, b)
              case Ok(v) => Machine.Running(Mach(pl, pc + 1, env, vals, temps + [v]))
              case Err(err) => Machine.Faulted(err)
  {
    hide ApplyBinOp;
    Top(pl.under, vals, temps + [a], b);
    Top(pl.under, vals, temps, a);
    match ApplyBinOp(op, a, b)
    case Ok(r) => Top(pl.under, vals, temps, r);
    case Err(_) =>
  }

  lemma PopRuns(pl: Place, pc: nat, v: Value, env: Env, vals: seq<Value>, temps: seq<Value>)
    requires env != [] && At(pl.chunk.code, pc, Plain(Pop))
    ensures Runs(pl, Mach(pl, pc, env, vals, temps + [v]), Machine.Running(Mach(pl, pc + 1, env, vals, temps)))
  {
    hide Machine.Runs;
    Top(pl.under, vals, temps, v);
    RunPlain(pl, Mach(pl, pc, env, vals, temps + [v]), Pop);
  }

  lemma DupRuns(pl: Place, pc: nat, v: Value, env: Env, vals: seq<Value>, temps: seq<Value>)
    requires env != [] && At(pl.chunk.code, pc, Plain(Dup))
    ensures Runs(pl, Mach(pl, pc, env, vals, temps + [v]),
                 Machine.Running(Mach(pl, pc + 1, env, vals, temps + [v] + [v])))
  {
    hide Machine.Runs;
    Top(pl.under, vals, temps, v);
    Top(pl.under, vals, temps + [v], v);
    RunPlain(pl, Mach(pl, pc, env, vals, temps + [v]), Dup);
  }

  lemma JumpRuns(pl: Place, pc: nat, op: OpCode, addr: nat, env: Env, vals: seq<Value>, temps: seq<Value>)
    requires env != [] && op in {Jump, Loop} && addr < 65536 && At(pl.chunk.code, pc, WithAddr(op, addr))
    ensures Runs(pl, Mach(pl, pc, env, vals, temps), Machine.Running(Mach(pl, addr, env, vals, temps)))
  {
    hide Machine.Runs;
    RunJump(pl, Mach(pl, pc, env, vals, temps), op, addr);
  }

  lemma BranchRuns(pl: Place, pc: nat, op: OpCode, addr: nat, v: Value, env: Env, vals: seq<Value>, temps: seq<Value>)
    requires env != [] && op in {JumpIfFalse, JumpIfTrue} && addr < 65536
    requires At(pl.chunk.code, pc, WithAddr(op, addr))
    ensures Runs(pl, Mach(pl, pc, env, vals, temps + [v]),
                 Machine.Running(Mach(pl, if Truthy(v) == (op == JumpIfTrue) then addr else pc + 3, env, vals, temps)))
  {
    hide Machine.Runs;
    Top(pl.under, vals, temps, v);
    RunJump(pl, Mach(pl, pc, env, vals, temps + [v]), op, addr);
  }

  lemma AtSplit5(code: seq<byte>, pc: nat, a: seq<byte>, b: seq<byte>, c: seq<byte>, d: seq<byte>, e: seq<byte>)
    requires At(code, pc, a + (b + (c + (d + e))))
    ensures At(code, pc, a) && At(code, pc + |a|, b) && At(code, pc + |a| + |b|, c)
    ensures At(code, pc + |a| + |b| + |c|, d) && At(code, pc + |a| + |b| + |c| + |d|, e)
  {
    hide At;
    AtConcat(code, pc, a, b + (c + (d + e)));
    AtConcat(code, pc + |a|, b, c + (d + e));
    AtConcat(code, pc + |a| + |b|, c, d + e);
    AtConcat(code, pc + |a| + |b| + |c|, d, e);
  }

  lemma AtSplit3(code: seq<byte>, pc: nat, a: seq<byte>, b: seq<byte>, c: seq<byte>)
    requires At(code, pc, Join3(a, b, c))
    ensures At(code, pc, a) && At(code, pc + |a|, b) && At(code, pc + |a| + |b|, c)
  {
    hide At;
    AtConcat(code, pc, a, b + c);
    AtConcat(code, pc + |a|, b, c);
  }

  // ----- evaluation results followed by more code -----

  /** An operand, then the rest of an expression from the state the operand leaves. */
  lemma AfterOperand(pl: Place, m: Machine.Vm, r1: Evaluation, sc: Scope, vals1: seq<Value>, temps1: seq<Value>,
                     pc1: nat, r: Evaluation, vals': seq<Value>, temps: seq<Value>, end: nat)
    requires Simulates(pl, m, r1, sc, vals1, temps1, pc1)
    requires match r1
             case Val(v, env) =>
               env != [] && Simulates(pl, Mach(pl, pc1, env, vals1, temps1 + [v]), r, sc, vals', temps, end)
             case _ => r == r1
    ensures Simulates(pl, m, r, sc, vals', temps, end)
  {
    hide Runs, Represents;
    match r1
    case Val(v, env) =>
      ThenSimulates(pl, m, Mach(pl, pc1, env, vals1, temps1 + [v]), r, sc, vals', temps, end);
    case _ =>
  }

  /** A jump from the end of an expression. */
  lemma JumpAfter(pl: Place, m: Machine.Vm, r: Evaluation, sc: Scope, vals: seq<Value>, temps: seq<Value>,
                  pc: nat, end: nat)
    requires Simulates(pl, m, r, sc, vals, temps, pc)
    requires end < 65536 && At(pl.chunk.code, pc, WithAddr(Jump, end))
    ensures Simulates(pl, m, r, sc, vals, temps, end)
  {
    hide Runs, Represents;
    if r.Val? {
      MatchesNonempty(pl, r.env, sc, vals);
      JumpRuns(pl, pc, Jump, end, r.env, vals, temps + [r.v]);
      Then(pl, m, Mach(pl, pc, r.env, vals, temps + [r.v]), Machine.Running(Mach(pl, end, r.env, vals, temps + [r.v])));
    }
  }

  /** Testing a copy of the left operand: it is the result, or it is gone and the right operand follows. */
  lemma LogicalRuns(pl: Place, op: BinOp, pc1: nat, end: nat, v: Value, env: Env, vals: seq<Value>, temps: seq<Value>)
    requires env != [] && op in {And, Or} && end < 65536
    requires At(pl.chunk.code, pc1, Plain(Dup))
    requires At(pl.chunk.code, pc1 + 1, WithAddr(LogicalJump(op), end))
    requires At(pl.chunk.code, pc1 + 4, Plain(Pop))
    ensures Runs(pl, Mach(pl, pc1, env, vals, temps + [v]),
                 Machine.Running(if ShortCircuits(op, v) then Mach(pl, end, env, vals, temps + [v])
                                 else Mach(pl, pc1 + 5, env, vals, temps)))
  {
    hide Runs;
    var m := Mach(pl, pc1, env, vals, temps + [v]);
    DupRuns(pl, pc1, v, env, vals, temps);
    BranchRuns(pl, pc1 + 1, LogicalJump(op), end, v, env, vals, temps + [v]);
    var m1 := Mach(pl, pc1 + 1, env, vals, temps + [v] + [v]);
    var m2 := Mach(pl, if ShortCircuits(op, v) then end else pc1 + 4, env, vals, temps + [v]);
    Then(pl, m, m1, Machine.Running(m2));
    if !ShortCircuits(op, v) {
      PopRuns(pl, pc1 + 4, v, env, vals, temps);
      Then(pl, m, m2, Machine.Running(Mach(pl, pc1 + 5, env, vals, temps)));
    }
  }

  // ----- where the parts of an expression are -----

  lemma CompilableUnary(e: Expr, n: nat, clear: bool)
    requires e.Unary? && Compilable(e, n, clear)
    ensures Compilable(e.e, n, clear)
  {
  }

  lemma CompilableBinary(e: Expr, n: nat, clear: bool)
    requires e.Binary? && Compilable(e, n, clear)
    ensures Compilable(e.lhs, n, clear) && Compilable(e.rhs, n, clear && e.op in {And, Or})
  {
  }

  lemma CompilableIf(e: Expr, n: nat, clear: bool)
    requires e.If? && Compilable(e, n, clear)
    ensures Compilable(e.cond, n, clear) && Compilable(e.thn, n, clear) && CompilableOption(e.els, n, clear)
  {
  }

  lemma CompilableAssign(e: Expr, n: nat, clear: bool)
    requires e.Assign? && Compilable(e, n, clear)
    ensures e.x != SCRUTINEE && Compilable(e.e, n, clear)
  {
  }

  lemma CompilableCompound(e: Expr, n: nat, clear: bool)
    requires e.Compound? && Compilable(e, n, clear)
    ensures e.x != SCRUTINEE && e.op !in {And, Or} && Compilable(e.e, n, false)
  {
  }

  lemma CompilableBlock(e: Expr, n: nat, clear: bool)
    requires e.Block? && Compilable(e, n, clear)
    ensures CompilableStmts(e.stmts, n, clear, false) && CompilableOption(e.tail, n + Lets(e.stmts), clear)
  {
  }

  lemma CompilableWhile(e: Expr, n: nat, clear: bool)
    requires e.While? && Compilable(e, n, clear)
    ensures Compilable(e.cond, n, clear) && Compilable(e.body, n, clear)
  {
  }

  /** A block declares as many locals as it has `let` statements, and only where that is safe. */
  lemma {:induction false} BlockLocals(stmts: seq<Stmt>, n: nat, clear: bool, sc: Scope, pc: nat, consts: Pool)
    requires CompilableStmts(stmts, n, clear, false) && sc.depth > 0
    ensures |GenStmts(stmts, sc, pc, consts).1.locals| == |sc.locals| + Lets(stmts)
    ensures var locals := GenStmts(stmts, sc, pc, consts).1.locals;
            forall k :: |sc.locals| <= k < |locals| ==> locals[k].name != SCRUTINEE
    ensures Lets(stmts) > 0 ==> clear
  {
    hide Gen, Compilable;
    if stmts != [] {
      var first := GenStmt(stmts[0], sc, pc, consts);
      BlockLocals(stmts[1..], if stmts[0].Let? then n + 1 else n, clear, first.1, After(pc, first.0.bytes, 0),
                  first.0.consts);
    }
  }

  lemma UnaryParts(pl: Place, pc: nat, c: Code, uop: UnaryOp)
    requires var op := Plain(if uop == Neg then Negate else LogicalNot);
             Loaded(pl, pc, Code(Join3(c.bytes, op, []), c.consts))
    ensures var op := Plain(if uop == Neg then Negate else LogicalNot);
            && Loaded(pl, pc, c) && At(pl.chunk.code, After(pc, c.bytes, 0), op)
            && After(pc, Join3(c.bytes, op, []), 0) == After(pc, c.bytes, 0) + 1
  {
    AtSplit3(pl.chunk.code, pc, c.bytes, Plain(if uop == Neg then Negate else LogicalNot), []);
    hide At, Join3;
  }

  lemma StrictParts(pl: Place, pc: nat, l: Code, r: Code, op: BinOp)
    requires Loaded(pl, pc, Code(Join3(l.bytes, r.bytes, Plain(Strict(op))), r.consts)) && Extends(l.consts, r.consts)
    ensures Loaded(pl, pc, l) && Loaded(pl, After(pc, l.bytes, 0), r)
    ensures At(pl.chunk.code, After(After(pc, l.bytes, 0), r.bytes, 0), Plain(Strict(op)))
    ensures After(pc, Join3(l.bytes, r.bytes, Plain(Strict(op))), 0) == After(After(pc, l.bytes, 0), r.bytes, 0) + 1
  {
    AtSplit3(pl.chunk.code, pc, l.bytes, r.bytes, Plain(Strict(op)));
    hide At, Join3;
  }

  lemma LogicalParts(pl: Place, pc: nat, l: Code, r: Code, op: BinOp)
    requires var end := After(After(pc, l.bytes, 5), r.bytes, 0);
             Loaded(pl, pc, Code(JoinLogical(op, l.bytes, r.bytes, end), r.consts)) && Extends(l.consts, r.consts)
    ensures var pc1, end := After(pc, l.bytes, 0), After(After(pc, l.bytes, 5), r.bytes, 0);
            && Loaded(pl, pc, l) && Loaded(pl, After(pc, l.bytes, 5), r)
            && After(pc, l.bytes, 5) == pc1 + 5
            && At(pl.chunk.code, pc1, Plain(Dup))
            && At(pl.chunk.code, pc1 + 1, WithAddr(LogicalJump(op), end))
            && At(pl.chunk.code, pc1 + 4, Plain(Pop))
            && After(pc, JoinLogical(op, l.bytes, r.bytes, end), 0) == end < 65536
  {
    var end := After(After(pc, l.bytes, 5), r.bytes, 0);
    AtSplit5(pl.chunk.code, pc, l.bytes, Plain(Dup), WithAddr(LogicalJump(op), end), Plain(Pop), r.bytes);
  }

  lemma IfParts(pl: Place, pc: nat, c: Code, t: Code, f: Code)
    requires var thnPc := After(pc, c.bytes, 3);
             var elsPc := After(thnPc, t.bytes, 3);
             Loaded(pl, pc, Code(JoinIf(c.bytes, t.bytes, f.bytes, elsPc, After(elsPc, f.bytes, 0)), f.consts))
    requires Extends(c.consts, t.consts) && Extends(t.consts, f.consts)
    ensures var thnPc := After(pc, c.bytes, 3);
            var elsPc := After(thnPc, t.bytes, 3);
            var end := After(elsPc, f.bytes, 0);
            && Loaded(pl, pc, c) && Loaded(pl, thnPc, t) && Loaded(pl, elsPc, f)
            && thnPc == After(pc, c.bytes, 0) + 3
            && At(pl.chunk.code, After(pc, c.bytes, 0), WithAddr(JumpIfFalse, elsPc))
            && At(pl.chunk.code, After(thnPc, t.bytes, 0), WithAddr(Jump, end))
            && After(pc, JoinIf(c.bytes, t.bytes, f.bytes, elsPc, end), 0) == end < 65536
            && elsPc < 65536
  {
    var thnPc := After(pc, c.bytes, 3);
    var elsPc := After(thnPc, t.bytes, 3);
    var end := After(elsPc, f.bytes, 0);
    AtSplit5(pl.chunk.code, pc, c.bytes, WithAddr(JumpIfFalse, elsPc), t.bytes, WithAddr(Jump, end), f.bytes);
  }

  lemma AssignParts(pl: Place, pc: nat, c: Code, st: Code)
    requires Loaded(pl, pc, Code(Join3(c.bytes, st.bytes, Plain(PushNil)), st.consts)) && Extends(c.consts, st.consts)
    requires |st.bytes| == 2
    ensures Loaded(pl, pc, c)
    ensures Loaded(pl, After(pc, c.bytes, 0), Code(st.bytes + Plain(PushNil), st.consts))
    ensures After(pc, Join3(c.bytes, st.bytes, Plain(PushNil)), 0) == After(pc, c.bytes, 0) + 3
  {
    AtSplit3(pl.chunk.code, pc, c.bytes, st.bytes, Plain(PushNil));
    AtConcat(pl.chunk.code, pc, c.bytes, st.bytes + Plain(PushNil));
    hide At;
  }

  lemma CompoundParts(pl: Place, pc: nat, ld: Code, c: Code, st: Code, op: BinOp)
    requires var rest := Join3(Plain(Strict(op)), st.bytes, Plain(PushNil));
             Loaded(pl, pc, Code(Join3(ld.bytes, c.bytes, rest), st.consts))
    requires Extends(ld.consts, c.consts) && Extends(c.consts, st.consts)
    requires |st.bytes| == 2
    ensures var pc1 := After(pc, ld.bytes, 0);
            var pc2 := After(pc1, c.bytes, 0);
            && Loaded(pl, pc, ld) && Loaded(pl, pc1, c)
            && At(pl.chunk.code, pc2, Plain(Strict(op)))
            && Loaded(pl, pc2 + 1, Code(st.bytes + Plain(PushNil), st.consts))
            && After(pc, Join3(ld.bytes, c.bytes, Join3(Plain(Strict(op)), st.bytes, Plain(PushNil))), 0) == pc2 + 4
  {
    var rest := Join3(Plain(Strict(op)), st.bytes, Plain(PushNil));
    AtSplit3(pl.chunk.code, pc, ld.bytes, c.bytes, rest);
    AtConcat(pl.chunk.code, pc + |ld.bytes| + |c.bytes|, Plain(Strict(op)), st.bytes + Plain(PushNil));
    hide At;
  }

  lemma BlockParts(pl: Place, pc: nat, b: Code, t: Code, n: nat)
    requires Loaded(pl, pc, Code(Join3(b.bytes, t.bytes, DropLocals(n)), t.consts)) && Extends(b.consts, t.consts)
    ensures var pc1 := After(pc, b.bytes, 0);
            var pc2 := After(pc1, t.bytes, 0);
            && Loaded(pl, pc, b) && Loaded(pl, pc1, t) && At(pl.chunk.code, pc2, DropLocals(n))
            && After(pc, Join3(b.bytes, t.bytes, DropLocals(n)), 0) == pc2 + |DropLocals(n)|
  {
    AtSplit3(pl.chunk.code, pc, b.bytes, t.bytes, DropLocals(n));
    hide At;
  }

  lemma SequenceParts(pl: Place, pc: nat, a: Code, b: Code)
    requires Loaded(pl, pc, Code(Join3(a.bytes, b.bytes, []), b.consts)) && Extends(a.consts, b.consts)
    ensures var pc1 := After(pc, a.bytes, 0);
            && Loaded(pl, pc, a) && Loaded(pl, pc1, b)
            && After(pc, Join3(a.bytes, b.bytes, []), 0) == After(pc1, b.bytes, 0)
  {
    AtSplit3(pl.chunk.code, pc, a.bytes, b.bytes, []);
    hide At;
  }

  /** An expression and one instruction after it. */
  lemma TailParts(pl: Place, pc: nat, c: Code, op: seq<byte>, all: Code)
    requires Loaded(pl, pc, all) && all.bytes == Join3(c.bytes, op, []) && Extends(c.consts, all.consts)
    ensures Loaded(pl, pc, c) && At(pl.chunk.code, After(pc, c.bytes, 0), op)
    ensures After(pc, all.bytes, 0) == After(pc, c.bytes, 0) + |op|
  {
    AtSplit3(pl.chunk.code, pc, c.bytes, op, []);
    hide At, Join3;
  }

  lemma LoopExitParts(code: seq<byte>, exit: nat)
    requires At(code, exit, LoopExit(exit))
    ensures At(code, exit, Plain(PopLoop)) && At(code, exit + 1, Plain(PushNil))
    ensures At(code, exit + 2, WithAddr(Jump, exit + 6))
  {
    hide At;
    AtConcat(code, exit, Plain(PopLoop), Plain(PushNil) + (WithAddr(Jump, exit + 6) + Plain(PopLoop)));
    AtConcat(code, exit + 1, Plain(PushNil), WithAddr(Jump, exit + 6) + Plain(PopLoop));
    AtConcat(code, exit + 2, WithAddr(Jump, exit + 6), Plain(PopLoop));
  }

  /** The code of a loop whose condition starts at `start`. */
  predicate LoopLoaded(pl: Place, start: nat, c: Code, b: Code) {
    var bodyPc := After(start, c.bytes, 3);
    var exit := After(bodyPc, b.bytes, 4);
    && bodyPc == After(start, c.bytes, 0) + 3
    && Loaded(pl, start, c) && Loaded(pl, bodyPc, b)
    && At(pl.chunk.code, After(start, c.bytes, 0), WithAddr(JumpIfFalse, exit))
    && At(pl.chunk.code, After(bodyPc, b.bytes, 0), Plain(Pop))
    && At(pl.chunk.code, After(bodyPc, b.bytes, 0) + 1, WithAddr(Loop, start))
    && start <= exit < 65536
  }

  lemma WhileParts(pl: Place, pc: nat, c: Code, b: Code)
    requires var start := After(pc, [], 5);
             var bodyPc := After(start, c.bytes, 3);
             Loaded(pl, pc, Code(JoinWhile(c.bytes, b.bytes, start, After(bodyPc, b.bytes, 4)), b.consts))
    requires Extends(c.consts, b.consts)
    ensures var start := After(pc, [], 5);
            var bodyPc := After(start, c.bytes, 3);
            var exit := After(bodyPc, b.bytes, 4);
            && LoopLoaded(pl, start, c, b)
            && start == pc + 5 < 65536
            && At(pl.chunk.code, pc, Encode(Instr(PushLoop, AsWord(start), AsWord(exit + 5))))
            && At(pl.chunk.code, exit, LoopExit(exit))
            && After(pc, JoinWhile(c.bytes, b.bytes, start, exit), 0) == exit + 6 < 65536
  {
    hide At, JoinWhile, LoopExit, Extends;
    var start := After(pc, [], 5);
    var bodyPc := After(start, c.bytes, 3);
    var exit := After(bodyPc, b.bytes, 4);
    WhileSplit(pl.chunk.code, pc, c.bytes, b.bytes, start, exit);
    LoadedPart(pl, pc, bodyPc, b, Code(JoinWhile(c.bytes, b.bytes, start, exit), b.consts));
    LoadedPart(pl, pc, start, c, Code(JoinWhile(c.bytes, b.bytes, start, exit), b.consts));
  }

  /** A part of loaded code. */
  lemma LoadedPart(pl: Place, pc: nat, pc1: nat, part: Code, all: Code)
    requires Loaded(pl, pc, all) && Extends(part.consts, all.consts) && At(pl.chunk.code, pc1, part.bytes)
    ensures Loaded(pl, pc1, part) && pc + |all.bytes| < 65536
  {
  }

  lemma WhileSplit(code: seq<byte>, pc: nat, c: seq<byte>, b: seq<byte>, start: nat, exit: nat)
    requires At(code, pc, JoinWhile(c, b, start, exit))
    ensures At(code, pc, Encode(Instr(PushLoop, AsWord(start), AsWord(exit + 5))))
    ensures At(code, pc + 5, c) && At(code, pc + 5 + |c|, WithAddr(JumpIfFalse, exit))
    ensures At(code, pc + 5 + |c| + 3, b) && At(code, pc + 5 + |c| + 3 + |b|, Plain(Pop))
    ensures At(code, pc + 5 + |c| + 3 + |b| + 1, WithAddr(Loop, start))
    ensures At(code, pc + 5 + |c| + 3 + |b| + 4, LoopExit(exit))
  {
    var tail := Join3(Plain(Pop), WithAddr(Loop, start), LoopExit(exit));
    hide At, LoopExit, Join3;
    AtSplit5(code, pc, Encode(Instr(PushLoop, AsWord(start), AsWord(exit + 5))), c, WithAddr(JumpIfFalse, exit), b,
             tail);
    AtSplit3(code, pc + 5 + |c| + 3 + |b|, Plain(Pop), WithAddr(Loop, start), LoopExit(exit));
  }

  // ----- statements -----

  /** As `Simulates`, for code that leaves no value. */
  ghost predicate Reaches(pl: Place, m: Machine.Vm, r: Evaluation, sc: Scope, vals: seq<Value>, temps: seq<Value>,
                          end: nat) {
    match r
    case Val(_, env) => Matches(pl, env, sc, vals) && Runs(pl, m, Machine.Running(Mach(pl, end, env, vals, temps)))
    case Fail(err) => Excused(err) || Runs(pl, m, Machine.Faulted(err))
    case OutOfFuel => RunsOn(pl, m, pl.budget)
  }

  lemma ThenReaches(pl: Place, m: Machine.Vm, mid: Machine.Vm, r: Evaluation, sc: Scope, vals: seq<Value>,
                    temps: seq<Value>, end: nat)
    requires Runs(pl, m, Machine.Running(mid)) && Reaches(pl, mid, r, sc, vals, temps, end)
    ensures Reaches(pl, m, r, sc, vals, temps, end)
  {
    hide Runs, Matches;
    match r
    case Val(_, env) =>
      MatchesNonempty(pl, env, sc, vals);
      Then(pl, m, mid, Machine.Running(Mach(pl, end, env, vals, temps)));
    case Fail(err) =>
      if !Excused(err) {
        Then(pl, m, mid, Machine.Faulted(err));
      }
    case OutOfFuel => ThenOn(pl, m, mid, pl.budget);
  }

  lemma ReachesVal(pl: Place, m: Machine.Vm, r: Evaluation, sc: Scope, vals: seq<Value>, temps: seq<Value>, end: nat)
    requires Reaches(pl, m, r, sc, vals, temps, end) && r.Val?
    ensures Matches(pl, r.env, sc, vals) && r.env != [] && |vals| == |sc.locals|
    ensures Runs(pl, m, Machine.Running(Mach(pl, end, r.env, vals, temps)))
  {
    hide Runs, Mach;
  }

  lemma RunsReach(pl: Place, m: Machine.Vm, r: Evaluation, sc: Scope, vals: seq<Value>, temps: seq<Value>, end: nat)
    requires r.Val? && Matches(pl, r.env, sc, vals) && r.env != []
    requires Runs(pl, m, Machine.Running(Mach(pl, end, r.env, vals, temps)))
    ensures Reaches(pl, m, r, sc, vals, temps, end)
  {
    hide Runs, Mach, Matches;
  }

  lemma NoFuelReaches(pl: Place, m: Machine.Vm, sc: Scope, vals: seq<Value>, temps: seq<Value>, end: nat)
    requires pl.budget == 0
    ensures Reaches(pl, m, OutOfFuel, sc, vals, temps, end)
  {
    assert Machine.Steps(pl.chunk, |pl.under|, m, 0).Running?;
  }

  /** An evaluation without a value ends nowhere in particular. */
  lemma Failing(pl: Place, m: Machine.Vm, r: Evaluation, sc1: Scope, vals: seq<Value>, temps: seq<Value>, end1: nat,
                sc: Scope, end: nat)
    requires !r.Val? && Reaches(pl, m, r, sc1, vals, temps, end1)
    ensures Simulates(pl, m, r, sc, vals, temps, end)
  {
    hide Runs;
  }

  lemma FailingReaches(pl: Place, m: Machine.Vm, r: Evaluation, sc: Scope, vals: seq<Value>, temps: seq<Value>,
                       end1: nat, end: nat)
    requires !r.Val? && Simulates(pl, m, r, sc, vals, temps, end1)
    ensures Reaches(pl, m, r, sc, vals, temps, end)
  {
    hide Runs;
  }

  lemma ReachesElsewhere(pl: Place, m: Machine.Vm, r: Evaluation, sc1: Scope, vals: seq<Value>, temps: seq<Value>,
                         end1: nat, sc: Scope, end: nat)
    requires !r.Val? && Reaches(pl, m, r, sc1, vals, temps, end1)
    ensures Reaches(pl, m, r, sc, vals, temps, end)
  {
    hide Runs;
  }

  /** An expression statement: its value is dropped. */
  lemma PopAfter(pl: Place, m: Machine.Vm, r: Evaluation, sc: Scope, vals: seq<Value>, temps: seq<Value>, pc: nat)
    requires Simulates(pl, m, r, sc, vals, temps, pc) && At(pl.chunk.code, pc, Plain(Pop))
    ensures Reaches(pl, m, r, sc, vals, temps, pc + 1)
  {
    hide Runs, Represents;
    if r.Val? {
      MatchesNonempty(pl, r.env, sc, vals);
      PopRuns(pl, pc, r.v, r.env, vals, temps);
      Then(pl, m, Mach(pl, pc, r.env, vals, temps + [r.v]), Machine.Running(Mach(pl, pc + 1, r.env, vals, temps)));
    }
  }

  /** A declaration in a block: its value becomes the next slot. */
  lemma LetAfter(pl: Place, m: Machine.Vm, r: Evaluation, sc: Scope, vals: seq<Value>, pc: nat, x: string)
    requires Simulates(pl, m, r, sc, vals, [], pc)
    requires sc.depth > 0 && |sc.locals| < 255 && x != SCRUTINEE
    requires At(pl.chunk.code, pc, WithByte(StoreLocal, |sc.locals|))
    ensures r.Val? ==> r.env != []
    ensures Reaches(pl, m, if r.Val? then Val(Nil, Define(r.env, x, r.v)) else r,
                    Scope(sc.locals + [Local(x, sc.depth)], sc.depth),
                    if r.Val? then vals + [r.v] else vals, [], pc + 2)
  {
    hide Machine.Runs, Represents, Hidden;
    if r.Val? {
      MatchesNonempty(pl, r.env, sc, vals);
      DeclareMatches(pl, r.env, sc, vals, x, r.v);
      StoreLocalGrows(pl, pc, r.env, vals, r.v);
      assert Mach(pl, pc + 2, Define(r.env, x, r.v), vals + [r.v], []) == Mach(pl, pc + 2, r.env, vals + [r.v], []);
      hide Runs;
      Then(pl, m, Mach(pl, pc, r.env, vals, [] + [r.v]), Machine.Running(Mach(pl, pc + 2, r.env, vals + [r.v], [])));
    }
  }

  lemma DeclareMatches(pl: Place, env: Env, sc: Scope, vals: seq<Value>, x: string, v: Value)
    requires Matches(pl, env, sc, vals) && sc.depth > 0 && |sc.locals| < 255 && x != SCRUTINEE
    ensures |env| > 1 && Define(env, x, v)[0] == env[0]
    ensures Matches(pl, Define(env, x, v), Scope(sc.locals + [Local(x, sc.depth)], sc.depth), vals + [v])
  {
    SameLength(env, sc.locals, sc.depth, vals);
    Declare(env, sc.locals, sc.depth, vals, x, v);
    HiddenAppend(sc.locals, [Local(x, sc.depth)], vals, [v]);
    HiddenNone([Local(x, sc.depth)], [v]);
    hide Represents, Hidden;
  }

  lemma StoreLocalGrows(pl: Place, pc: nat, env: Env, vals: seq<Value>, v: Value)
    requires env != [] && |vals| < 256 && At(pl.chunk.code, pc, WithByte(StoreLocal, |vals|))
    ensures Runs(pl, Mach(pl, pc, env, vals, [] + [v]), Machine.Running(Mach(pl, pc + 2, env, vals + [v], [])))
  {
    hide Machine.Runs;
    Top(pl.under, vals, [], v);
    RunByte(pl, Mach(pl, pc, env, vals, [] + [v]), StoreLocal, |vals|);
    var stack := pl.under + vals + [];
    assert Machine.SetLocal(stack, |pl.under| + |vals|, v) == pl.under + (vals + [v]) + [];
  }

  /** A declaration at the top level makes a global. */
  lemma GlobalAfter(pl: Place, m: Machine.Vm, r: Evaluation, sc: Scope, vals: seq<Value>, temps: seq<Value>, pc: nat,
                    x: string, i: nat)
    requires Simulates(pl, m, r, sc, vals, temps, pc) && sc.depth == 0 && sc.locals == []
    requires i < 256 && i < |pl.chunk.consts.values| && pl.chunk.consts.values[i] == Str(x)
    requires At(pl.chunk.code, pc, WithByte(DefineGlobal, i))
    ensures r.Val? ==> r.env != []
    ensures Reaches(pl, m, if r.Val? then Val(Nil, Define(r.env, x, r.v)) else r, sc, vals, temps, pc + 2)
  {
    hide Machine.Runs, Represents;
    if r.Val? {
      GlobalMatches(pl, r.env, sc, vals, x, r.v);
      var mid := Mach(pl, pc, r.env, vals, temps + [r.v]);
      Top(pl.under, vals, temps, r.v);
      RunByte(pl, mid, DefineGlobal, i);
      hide Runs;
      Then(pl, m, mid, Machine.Running(Mach(pl, pc + 2, Define(r.env, x, r.v), vals, temps)));
    }
  }

  lemma GlobalMatches(pl: Place, env: Env, sc: Scope, vals: seq<Value>, x: string, v: Value)
    requires Matches(pl, env, sc, vals) && sc.depth == 0 && sc.locals == []
    ensures |env| == 1 && Matches(pl, Define(env, x, v), sc, vals)
  {
  }

  /** The end of a block: its locals are dropped from under its value. */
  lemma DropAfter(pl: Place, m: Machine.Vm, r: Evaluation, inner: Scope, sc: Scope, vals: seq<Value>,
                  temps: seq<Value>, pc: nat)
    requires Simulates(pl, m, r, inner, vals, temps, pc)
    requires Grows(Scope(sc.locals, sc.depth + 1), inner)
    requires forall k :: 0 <= k < |sc.locals| ==> sc.locals[k].depth <= sc.depth
    requires |sc.locals| <= |inner.locals|
    requires forall k :: |sc.locals| <= k < |inner.locals| ==> inner.locals[k].name != SCRUTINEE
    requires |inner.locals| > |sc.locals| ==> temps == []
    requires At(pl.chunk.code, pc, DropLocals(|inner.locals| - |sc.locals|))
    ensures r.Val? ==> |r.env| > 1 && |sc.locals| <= |vals|
    ensures Simulates(pl, m, if r.Val? then Val(r.v, r.env[..|r.env| - 1]) else r, sc,
                      if r.Val? then vals[..|sc.locals|] else vals, temps,
                      pc + |DropLocals(|inner.locals| - |sc.locals|)|)
  {
    hide Runs, Represents;
    if r.Val? {
      MatchesNonempty(pl, r.env, inner, vals);
      var kept, env' := vals[..|sc.locals|], r.env[..|r.env| - 1];
      DropMatches(pl, r.env, inner, sc, vals);
      var mid := Mach(pl, pc, r.env, vals, temps + [r.v]);
      if |inner.locals| == |sc.locals| {
        assert kept == vals;
        assert mid == Mach(pl, pc, env', kept, temps + [r.v]);
      } else {
        DropRuns(pl, pc, r.env, vals, |sc.locals|, r.v);
        Then(pl, m, mid, Machine.Running(Mach(pl, pc + 2, env', kept, temps + [r.v])));
      }
    }
  }

  lemma DropMatches(pl: Place, env: Env, inner: Scope, sc: Scope, vals: seq<Value>)
    requires Matches(pl, env, inner, vals)
    requires Grows(Scope(sc.locals, sc.depth + 1), inner)
    requires forall k :: 0 <= k < |sc.locals| ==> sc.locals[k].depth <= sc.depth
    requires forall k :: |sc.locals| <= k < |inner.locals| ==> inner.locals[k].name != SCRUTINEE
    ensures |env| > 1 && |sc.locals| <= |vals|
    ensures Matches(pl, env[..|env| - 1], sc, vals[..|sc.locals|])
    ensures env[..|env| - 1][0] == env[0]
  {
    hide *;
    var n := |sc.locals|;
    MatchesNonempty(pl, env, inner, vals);
    InnerScope(inner, sc);
    MatchesMean(pl, env, inner, vals);
    LeaveBlock(env, inner.locals, inner.depth, sc.locals, vals);
    MatchesMean(pl, env[..|env| - 1], sc, vals[..n]);
    assert inner.locals == sc.locals + inner.locals[n..] && vals == vals[..n] + vals[n..];
    HiddenAppend(sc.locals, inner.locals[n..], vals[..n], vals[n..]);
    HiddenNone(inner.locals[n..], vals[n..]);
  }

  lemma MatchesMean(pl: Place, env: Env, sc: Scope, vals: seq<Value>)
    requires |vals| == |sc.locals|
    ensures Matches(pl, env, sc, vals) <==>
              Represents(env, sc.locals, sc.depth, vals) && Hidden(sc.locals, vals) == pl.hidden && |sc.locals| <= 255
  {
  }

  lemma InnerScope(inner: Scope, sc: Scope)
    requires Grows(Scope(sc.locals, sc.depth + 1), inner)
    requires forall k :: |sc.locals| <= k < |inner.locals| ==> inner.locals[k].name != SCRUTINEE
    ensures inner.depth == sc.depth + 1 && sc.locals <= inner.locals
    ensures forall k :: |sc.locals| <= k < |inner.locals| ==> InFrame(inner.locals[k], inner.depth)
  {
  }

  lemma DropRuns(pl: Place, pc: nat, env: Env, vals: seq<Value>, k: nat, v: Value)
    requires env != [] && k < |vals| <= 255
    requires At(pl.chunk.code, pc, WithByte(PopLocalKeep, |vals| - k))
    ensures Runs(pl, Mach(pl, pc, env, vals, [] + [v]), Machine.Running(Mach(pl, pc + 2, env, vals[..k], [] + [v])))
  {
    hide *;
    DropEffect(pl, pc, env, vals, k, v);
    RunByte(pl, Mach(pl, pc, env, vals, [] + [v]), PopLocalKeep, |vals| - k);
  }

  lemma DropEffect(pl: Place, pc: nat, env: Env, vals: seq<Value>, k: nat, v: Value)
    requires env != [] && k < |vals|
    ensures var m := Mach(pl, pc, env, vals, [] + [v]);
            && m.ip == pc && OperandBytes(PopLocalKeep) == 1
            && Machine.ExecByte(pl.chunk, |pl.under|, PopLocalKeep, |vals| - k, m.(ip := pc + 2)) ==
                 Machine.Running(Mach(pl, pc + 2, env, vals[..k], [] + [v]))
  {
    Top(pl.under, vals, [], v);
    var stack := pl.under + vals + [];
    assert stack[..|stack| - (|vals| - k)] + [v] == pl.under + vals[..k] + ([] + [v]);
  }

  // ----- loops -----

  lemma LoopParts(pl: Place, start: nat, c: Code, b: Code)
    requires LoopLoaded(pl, start, c, b)
    ensures var bodyPc := After(start, c.bytes, 3);
            var exit := After(bodyPc, b.bytes, 4);
            && bodyPc == After(start, c.bytes, 0) + 3
            && Loaded(pl, start, c) && Loaded(pl, bodyPc, b)
            && At(pl.chunk.code, After(start, c.bytes, 0), WithAddr(JumpIfFalse, exit))
            && At(pl.chunk.code, After(bodyPc, b.bytes, 0), Plain(Pop))
            && At(pl.chunk.code, After(bodyPc, b.bytes, 0) + 1, WithAddr(Loop, start))
            && start <= exit < 65536
  {
    hide At, Loaded, After;
  }

  lemma LoopPlaced(pl: Place, pl1: Place, start: nat, c: Code, b: Code)
    requires LoopLoaded(pl, start, c, b) && pl1.chunk == pl.chunk
    ensures LoopLoaded(pl1, start, c, b)
  {
    hide At, After, Extends;
  }

  /** Entering a loop installs its handler. */
  lemma WhileEnter(pl: Place, pl1: Place, pc: nat, start: nat, exit: nat, env: Env, vals: seq<Value>, temps: seq<Value>)
    requires env != [] && start == pc + 5 && exit + 5 < 65536 && start < 65536
    requires At(pl.chunk.code, pc, Encode(Instr(PushLoop, AsWord(start), AsWord(exit + 5))))
    requires var handler := Machine.LoopHandler(start, exit + 5, |Mach(pl, pc, env, vals, temps).stack|);
             pl1 == pl.(loops := pl.loops + [handler], budget := Before(pl.budget))
    ensures Runs(pl, Mach(pl, pc, env, vals, temps), Machine.Running(Mach(pl1, start, env, vals, temps)))
  {
    hide Machine.Runs, At, Encode;
    Machine.RunsInstr(pl.chunk, |pl.under|, Mach(pl, pc, env, vals, temps), Instr(PushLoop, start, exit + 5));
  }

  /** Leaving a loop removes its handler and pushes nil. */
  lemma ExitRuns(pl: Place, pl1: Place, exit: nat, env: Env, vals: seq<Value>, temps: seq<Value>)
    requires env != [] && exit + 6 < 65536 && At(pl.chunk.code, exit, LoopExit(exit))
    requires |pl1.loops| == |pl.loops| + 1 && pl1.loops[..|pl.loops|] == pl.loops
    requires pl1 == pl.(loops := pl1.loops, budget := Before(pl.budget))
    ensures Runs(pl, Mach(pl1, exit, env, vals, temps), Machine.Running(Mach(pl, exit + 6, env, vals, temps + [Nil])))
  {
    LoopExitParts(pl.chunk.code, exit);
    hide Machine.Runs;
    var m0, m1 := Mach(pl1, exit, env, vals, temps), Mach(pl, exit + 1, env, vals, temps);
    RunPlain(pl, m0, PopLoop);
    assert Runs(pl, m0, Machine.Running(m1));
    hide Runs;
    StoreNil(pl, m0, env, vals, temps, exit + 1);
    JumpRuns(pl, exit + 2, Jump, exit + 6, env, vals, temps + [Nil]);
    Then(pl, m0, Mach(pl, exit + 2, env, vals, temps + [Nil]),
         Machine.Running(Mach(pl, exit + 6, env, vals, temps + [Nil])));
  }

  lemma WhileLeave(pl: Place, pl1: Place, m: Machine.Vm, m1: Machine.Vm, r: Evaluation, sc: Scope, vals: seq<Value>,
                   temps: seq<Value>, exit: nat)
    requires Runs(pl, m, Machine.Running(m1)) && m != m1 && Reaches(pl1, m1, r, sc, vals, temps, exit)
    requires r.Val? ==> r.v == Nil
    requires exit + 6 < 65536 && At(pl.chunk.code, exit, LoopExit(exit))
    requires |pl1.loops| == |pl.loops| + 1 && pl1.loops[..|pl.loops|] == pl.loops
    requires pl1 == pl.(loops := pl1.loops, budget := Before(pl.budget))
    ensures Simulates(pl, m, r, sc, vals, temps, exit + 6)
  {
    SameRuns(pl, pl1, m1);
    hide Runs, Represents;
    match r
    case Val(_, env) =>
      MatchesNonempty(pl, env, sc, vals);
      var mid := Mach(pl1, exit, env, vals, temps);
      Then(pl, m, m1, Machine.Running(mid));
      ExitRuns(pl, pl1, exit, env, vals, temps);
      Then(pl, m, mid, Machine.Running(Mach(pl, exit + 6, env, vals, temps + [Nil])));
    case Fail(err) =>
      if !Excused(err) {
        Then(pl, m, m1, Machine.Faulted(err));
      }
    case OutOfFuel => ThenOnMore(pl, m, m1, pl1.budget);
  }

  /** Another turn of a loop: the step back to its start makes up for the turn. */
  lemma BackReaches(pl: Place, pl1: Place, m: Machine.Vm, m1: Machine.Vm, r: Evaluation, sc: Scope, vals: seq<Value>,
                    temps: seq<Value>, end: nat)
    requires Runs(pl, m, Machine.Running(m1)) && m != m1 && Reaches(pl1, m1, r, sc, vals, temps, end)
    requires pl1 == pl.(budget := Before(pl.budget))
    ensures Reaches(pl, m, r, sc, vals, temps, end)
  {
    SameRuns(pl, pl1, m1);
    hide Runs, Represents;
    match r
    case Val(_, env) =>
      MatchesNonempty(pl, env, sc, vals);
      Then(pl, m, m1, Machine.Running(Mach(pl, end, env, vals, temps)));
    case Fail(err) =>
      if !Excused(err) {
        Then(pl, m, m1, Machine.Faulted(err));
      }
    case OutOfFuel => ThenOnMore(pl, m, m1, pl1.budget);
  }

  function Before(n: nat): nat {
    if n == 0 then 0 else n - 1
  }

  /** Runs depend on the chunk and the frame base, not on the loops around. */
  lemma SameRuns(pl: Place, pl1: Place, m: Machine.Vm)
    requires pl.chunk == pl1.chunk && pl.under == pl1.under
    ensures forall end :: Runs(pl1, m, end) ==> Runs(pl, m, end)
    ensures forall k :: RunsOn(pl1, m, k) ==> RunsOn(pl, m, k)
  {
  }
}
