/**
 What the one-pass compiler emits (`src/compiler/mod.rs`), as a function: the
 code of an expression at a given address, with every jump target written
 directly instead of being patched in afterwards.
 */
module CodeGen {
  import opened Values
  import opened Bytecode
  import opened TreeWalker
  import Patterns

  datatype Local = Local(name: string, depth: nat)

  /** The compiler's view of the current frame: declared locals and the block depth. */
  datatype Scope = Scope(locals: seq<Local>, depth: nat)

  datatype Code = Code(bytes: seq<byte>, consts: Pool)

  // ----- names and constants -----

  /** The pools only grow, so indices handed out earlier stay good. */
  predicate Extends(a: Pool, b: Pool) {
    a.values <= b.values && a.patterns <= b.patterns
  }

  /** Statements add locals at the current depth and leave the others alone. */
  predicate Grows(before: Scope, after: Scope) {
    && before.locals <= after.locals
    && before.depth == after.depth
    && forall k :: |before.locals| <= k < |after.locals| ==> after.locals[k].depth == before.depth > 0
  }

  /** The slot of the last visible local called `x`. */
  function Resolve(locals: seq<Local>, depth: nat, x: string): (r: Option<nat>)
    ensures r.Some? ==> r.value < |locals| && locals[r.value].name == x
  {
    if locals == [] then None
    else
      var n := |locals| - 1;
      if locals[n].name == x && locals[n].depth <= depth then Some(n) else Resolve(locals[..n], depth, x)
  }

  function IndexIn(values: seq<Value>, v: Value): (i: nat)
    ensures i <= |values|
    ensures i < |values| ==> values[i] == v
    ensures forall k :: 0 <= k < i ==> values[k] != v
  {
    if values == [] || values[0] == v then 0 else 1 + IndexIn(values[1..], v)
  }

  function ConstIndex(consts: Pool, v: Value): nat {
    IndexIn(consts.values, v)
  }

  function AddConst(consts: Pool, v: Value): (r: Pool)
    ensures Extends(consts, r)
    ensures ConstIndex(consts, v) < |r.values| && r.values[ConstIndex(consts, v)] == v
  {
    if ConstIndex(consts, v) < |consts.values| then consts else consts.(values := consts.values + [v])
  }

  /** A pattern is never shared between arms. */
  function AddPattern(consts: Pool, p: Patterns.Pattern): (r: Pool)
    ensures Extends(consts, r)
  {
    consts.(patterns := consts.patterns + [p])
  }

  // ----- single instructions -----

  function Plain(op: OpCode): seq<byte> {
    Encode(Instr(op, 0, 0))
  }

  function WithByte(op: OpCode, n: nat): seq<byte> {
    Encode(Instr(op, AsByte(n), 0))
  }

  function WithAddr(op: OpCode, addr: nat): seq<byte> {
    Encode(Instr(op, AsWord(addr), 0))
  }

  function WithConst(op: OpCode, v: Value, consts: Pool): (c: Code)
    ensures Extends(consts, c.consts)
  {
    Code(WithByte(op, ConstIndex(consts, v)), AddConst(consts, v))
  }

  /** A load or store of `x`, as a local if there is one and as a global otherwise. */
  function Access(local: OpCode, global: OpCode, sc: Scope, x: string, consts: Pool): (c: Code)
    ensures Extends(consts, c.consts)
  {
    match Resolve(sc.locals, sc.depth, x)
    case Some(slot) => Code(WithByte(local, slot), consts)
    case None => WithConst(global, Str(x), consts)
  }

  function Load(sc: Scope, x: string, consts: Pool): (c: Code)
    ensures Extends(consts, c.consts)
  {
    Access(LoadLocal, LoadGlobal, sc, x, consts)
  }

  function Store(sc: Scope, x: string, consts: Pool): (c: Code)
    ensures Extends(consts, c.consts)
  {
    Access(AssignLocal, AssignGlobal, sc, x, consts)
  }

  function GenLiteral(v: Value, consts: Pool): (c: Code)
    ensures Extends(consts, c.consts)
  {
    match v
    case Nil => Code(Plain(PushNil), consts)
    case Bool(b) => Code(Plain(if b then PushTrue else PushFalse), consts)
    case _ => WithConst(Const, v, consts)
  }

  // ----- layouts -----

  /** The address `gap` bytes after `bytes` placed at `pc`. */
  function After(pc: nat, bytes: seq<byte>, gap: nat): nat {
    pc + |bytes| + gap
  }

  function Join3(a: seq<byte>, b: seq<byte>, c: seq<byte>): (r: seq<byte>)
    ensures |r| == |a| + |b| + |c|
  {
    a + (b + c)
  }

  function LogicalJump(op: BinOp): OpCode {
    if op == And then JumpIfFalse else JumpIfTrue
  }

  /** `l; Dup; jump to end if l decides; Pop; r` */
  function JoinLogical(op: BinOp, l: seq<byte>, r: seq<byte>, end: nat): (c: seq<byte>)
    ensures |c| == |l| + |r| + 5
  {
    l + (Plain(Dup) + (WithAddr(LogicalJump(op), end) + (Plain(Pop) + r)))
  }

  /** `c; jump to els if falsy; t; jump to end; f` */
  function JoinIf(c: seq<byte>, t: seq<byte>, f: seq<byte>, els: nat, end: nat): (r: seq<byte>)
    ensures |r| == |c| + |t| + |f| + 6
  {
    c + (WithAddr(JumpIfFalse, els) + (t + (WithAddr(Jump, end) + f)))
  }

  /** Drop `n` locals from under the value of a block. */
  function DropLocals(n: nat): seq<byte> {
    if n > 0 then WithByte(PopLocalKeep, n) else []
  }

  /** `exit: PopLoop; Nil; jump past the break handler; break: PopLoop` */
  function LoopExit(exit: nat): (r: seq<byte>)
    ensures |r| == 6
  {
    Plain(PopLoop) + (Plain(PushNil) + (WithAddr(Jump, exit + 6) + Plain(PopLoop)))
  }

  /** `PushLoop start, exit + 5; start: c; jump to exit if falsy; b; Pop; loop to start`, then the exit. */
  function JoinWhile(c: seq<byte>, b: seq<byte>, start: nat, exit: nat): (r: seq<byte>)
    ensures |r| == |c| + |b| + 18
  {
    Encode(Instr(PushLoop, AsWord(start), AsWord(exit + 5)))
    + (c + (WithAddr(JumpIfFalse, exit) + (b + (Join3(Plain(Pop), WithAddr(Loop, start), LoopExit(exit))))))
  }

  /** The name of the local that holds what is being matched. */
  const SCRUTINEE := "__match_scrutinee"

  /** The compiled parts of an arm: the index of its pattern, how many locals it binds, and its guard and body. */
  datatype ArmCode = ArmCode(test: nat, names: nat, guard: Option<seq<byte>>, body: seq<byte>)

  function ArmWidth(a: ArmCode): nat {
    match a.guard
    case None => |a.body| + 12
    case Some(g) => |g| + |a.body| + 17
  }

  function ArmsWidth(arms: seq<ArmCode>): nat {
    if arms == [] then 0 else ArmWidth(arms[0]) + ArmsWidth(arms[1..])
  }

  /** `body; keep the value and drop the bindings; jump to end` */
  function JoinBody(a: ArmCode, end: nat): (r: seq<byte>)
    ensures |r| == |a.body| + 5
  {
    a.body + (WithByte(PopLocalKeep, a.names) + WithAddr(Jump, end))
  }

  /** What follows an arm's test; `next` is the address after the arm. */
  function JoinGuarded(a: ArmCode, next: nat, end: nat): (r: seq<byte>)
    requires next >= 2
    ensures |r| + 7 == ArmWidth(a)
  {
    match a.guard
    case None => JoinBody(a, end)
    case Some(g) =>
      g + (WithAddr(JumpIfFalse, next - 2) + (JoinBody(a, end) + WithByte(PopN, a.names)))
  }

  /** `load the scrutinee; test; jump to the next arm if it fails; guard; body` */
  function JoinArm(slot: nat, a: ArmCode, pc: nat, end: nat): (r: seq<byte>)
    ensures |r| == ArmWidth(a)
  {
    var next := pc + ArmWidth(a);
    WithByte(LoadLocal, slot)
    + (WithByte(OpCode.Match, a.test) + (WithAddr(JumpIfFalse, next) + JoinGuarded(a, next, end)))
  }

  function JoinArms(slot: nat, arms: seq<ArmCode>, pc: nat, end: nat): (r: seq<byte>)
    ensures |r| == ArmsWidth(arms)
  {
    if arms == [] then []
    else JoinArm(slot, arms[0], pc, end) + JoinArms(slot, arms[1..], pc + ArmWidth(arms[0]), end)
  }

  /** `c; make it a local; arms; Nil; end: keep the value and drop the local` */
  function JoinMatch(c: seq<byte>, slot: nat, arms: seq<ArmCode>, pc: nat): (r: seq<byte>)
    ensures |r| == |c| + ArmsWidth(arms) + 5
  {
    var armsPc := pc + |c| + 2;
    var end := armsPc + ArmsWidth(arms) + 1;
    c + (WithByte(StoreLocal, slot)
         + (JoinArms(slot, arms, armsPc, end) + (Plain(PushNil) + WithByte(PopLocalKeep, 1))))
  }

  /** The locals an arm binds. */
  function Bound(names: seq<string>, depth: nat): seq<Local> {
    seq(|names|, i requires 0 <= i < |names| => Local(names[i], depth))
  }

  function WithScrutinee(sc: Scope): Scope {
    Scope(sc.locals + [Local(SCRUTINEE, sc.depth)], sc.depth)
  }

  function ArmScope(sc: Scope, p: Patterns.Pattern): Scope {
    Scope(sc.locals + Bound(Patterns.Names(p), sc.depth), sc.depth)
  }

  // ----- expressions and statements -----

  function GenOption(e: Option<Expr>, sc: Scope, pc: nat, consts: Pool): (c: Code)
    ensures Extends(consts, c.consts)
    decreases e, 1
  {
    match e
    case None => Code(Plain(PushNil), consts)
    case Some(e1) => Gen(e1, sc, pc, consts)
  }

  /** A statement's code and the scope after it. At block depth 0 a `let` makes a global. */
  function GenStmt(s: Stmt, sc: Scope, pc: nat, consts: Pool): (r: (Code, Scope))
    ensures Extends(consts, r.0.consts)
    ensures Grows(sc, r.1)
    decreases s, 1
  {
    match s
    case Let(x, e) =>
      var c := Gen(e, sc, pc, consts);
      if sc.depth == 0 then
        var d := WithConst(DefineGlobal, Str(x), c.consts);
        (Code(Join3(c.bytes, d.bytes, []), d.consts), sc)
      else
        (Code(Join3(c.bytes, WithByte(StoreLocal, |sc.locals|), []), c.consts),
         Scope(sc.locals + [Local(x, sc.depth)], sc.depth))
    case ExprStmt(e) =>
      var c := Gen(e, sc, pc, consts);
      (Code(Join3(c.bytes, Plain(Pop), []), c.consts), sc)
  }

  function GenStmts(stmts: seq<Stmt>, sc: Scope, pc: nat, consts: Pool): (r: (Code, Scope))
    ensures Extends(consts, r.0.consts)
    ensures Grows(sc, r.1)
    decreases stmts, 0
  {
    if stmts == [] then (Code([], consts), sc)
    else
      var first := GenStmt(stmts[0], sc, pc, consts);
      var rest := GenStmts(stmts[1..], first.1, After(pc, first.0.bytes, 0), first.0.consts);
      (Code(Join3(first.0.bytes, rest.0.bytes, []), rest.0.consts), rest.1)
  }

  function Gen(e: Expr, sc: Scope, pc: nat, consts: Pool): (c: Code)
    ensures Extends(consts, c.consts)
    decreases e, 0
  {
    match e
    case Literal(v) => GenLiteral(v, consts)
    case Ident(x) => Load(sc, x, consts)
    case Unary(uop, e1) =>
      var c := Gen(e1, sc, pc, consts);
      Code(Join3(c.bytes, Plain(if uop == Neg then Negate else LogicalNot), []), c.consts)
    case Binary(op, lhs, rhs) =>
      var l := Gen(lhs, sc, pc, consts);
      if op in {And, Or} then
        var rhsPc := After(pc, l.bytes, 5);
        var r := Gen(rhs, sc, rhsPc, l.consts);
        Code(JoinLogical(op, l.bytes, r.bytes, After(rhsPc, r.bytes, 0)), r.consts)
      else
        var r := Gen(rhs, sc, After(pc, l.bytes, 0), l.consts);
        Code(Join3(l.bytes, r.bytes, Plain(Strict(op))), r.consts)
    case If(cond, thn, els) =>
      var c := Gen(cond, sc, pc, consts);
      var thnPc := After(pc, c.bytes, 3);
      var t := Gen(thn, sc, thnPc, c.consts);
      var elsPc := After(thnPc, t.bytes, 3);
      var f := GenOption(els, sc, elsPc, t.consts);
      assert Extends(consts, t.consts);
      Code(JoinIf(c.bytes, t.bytes, f.bytes, elsPc, After(elsPc, f.bytes, 0)), f.consts)
    case Block(stmts, tail) =>
      var (b, inner) := GenStmts(stmts, Scope(sc.locals, sc.depth + 1), pc, consts);
      var t := GenOption(tail, inner, After(pc, b.bytes, 0), b.consts);
      var n := |inner.locals| - |sc.locals|;
      Code(Join3(b.bytes, t.bytes, DropLocals(n)), t.consts)
    case Paren(e1) => Gen(e1, sc, pc, consts)
    case Assign(x, e1) =>
      var c := Gen(e1, sc, pc, consts);
      var st := Store(sc, x, c.consts);
      Code(Join3(c.bytes, st.bytes, Plain(PushNil)), st.consts)
    case Compound(op, x, e1) =>
      var ld := Load(sc, x, consts);
      var c := Gen(e1, sc, After(pc, ld.bytes, 0), ld.consts);
      var st := Store(sc, x, c.consts);
      assert Extends(consts, c.consts);
      Code(Join3(ld.bytes, c.bytes, Join3(Plain(Strict(op)), st.bytes, Plain(PushNil))), st.consts)
    case While(cond, body) =>
      var start := After(pc, [], 5);
      var c := Gen(cond, sc, start, consts);
      var bodyPc := After(start, c.bytes, 3);
      var b := Gen(body, sc, bodyPc, c.consts);
      var exit := After(bodyPc, b.bytes, 4);
      Code(JoinWhile(c.bytes, b.bytes, start, exit), b.consts)
    case Match(scrutinee, arms) =>
      var c := Gen(scrutinee, sc, pc, consts);
      var a := GenArms(arms, WithScrutinee(sc), After(pc, c.bytes, 2), c.consts);
      Code(JoinMatch(c.bytes, |sc.locals|, a.0, pc), a.1)
  }

  function GenArms(arms: seq<Arm>, sc: Scope, pc: nat, consts: Pool): (r: (seq<ArmCode>, Pool))
    ensures Extends(consts, r.1)
    decreases arms, 0
  {
    if arms == [] then ([], consts)
    else
      var first := GenArm(arms[0], sc, pc, consts);
      var rest := GenArms(arms[1..], sc, pc + ArmWidth(first.0), first.1);
      ([first.0] + rest.0, rest.1)
  }

  /** An arm at `pc`, in a scope that ends with the scrutinee. */
  function GenArm(arm: Arm, sc: Scope, pc: nat, consts: Pool): (r: (ArmCode, Pool))
    ensures Extends(consts, r.1)
    decreases arm, 1
  {
    var test, inner := |consts.patterns|, ArmScope(sc, arm.pattern);
    var names, consts1 := |Patterns.Names(arm.pattern)|, AddPattern(consts, arm.pattern);
    match arm.guard
    case None =>
      var b := Gen(arm.body, inner, After(pc, [], 7), consts1);
      (ArmCode(test, names, None, b.bytes), b.consts)
    case Some(guard) =>
      var g := Gen(guard, inner, After(pc, [], 7), consts1);
      var b := Gen(arm.body, inner, After(pc, g.bytes, 10), g.consts);
      (ArmCode(test, names, Some(g.bytes), b.bytes), b.consts)
  }

  /** A whole script: its statements, its result, and the final return. */
  function GenProgram(stmts: seq<Stmt>, result: Option<Expr>): Code {
    var (b, sc) := GenStmts(stmts, Scope([], 0), 0, EMPTY);
    var t := GenOption(result, sc, |b.bytes|, b.consts);
    Code(Join3(b.bytes, t.bytes, Plain(ReturnTop)), t.consts)
  }
}
