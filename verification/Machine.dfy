/**
 The stack machine (`VmCtx::step` in `src/vm/vm.rs`) on one script frame whose
 stack region starts at `base`. Values are plain: cells, lazy imports, closures
 and actor state are not part of this machine.
 */
module Machine {
  import opened Values
  import opened Bytecode
  import Patterns

  datatype LoopHandler = LoopHandler(continueAddr: nat, breakAddr: nat, depth: nat)

  datatype Vm = Vm(ip: nat, stack: seq<Value>, globals: map<string, Value>, loops: seq<LoopHandler>)

  datatype Chunk = Chunk(code: seq<byte>, consts: Pool)

  /** `Faulted` is a language error; `Crashed` is a stack underflow or a bad byte. */
  datatype Next = Running(vm: Vm) | Halted(v: Value, globals: map<string, Value>) | Faulted(error: Error) | Crashed

  function Push(m: Vm, v: Value): Next {
    Running(m.(stack := m.stack + [v]))
  }

  /** `set_local`: overwrite the slot, or grow the stack up to it. */
  function SetLocal(stack: seq<Value>, index: nat, v: Value): seq<Value> {
    if index < |stack| then stack[index := v]
    else stack + seq(index - |stack|, _ => Nil) + [v]
  }

  /** The name in a constant slot, if there is one. */
  function NameAt(consts: seq<Value>, i: nat): Option<string> {
    if i < |consts| && consts[i].Str? then Some(consts[i].s) else None
  }

  function PushResult(m: Vm, r: Result<Value, Error>): Next {
    match r
    case Ok(v) => Push(m, v)
    case Err(err) => Faulted(err)
  }

  /** An operator applied to the top of the stack, which is popped. */
  function ExecTop(op: OpCode, top: Value, m: Vm): Next {
    if op == Dup then Push(Push(m, top).vm, top)
    else if op == ReturnTop then Halted(top, m.globals)
    else if op == Negate then PushResult(m, ApplyUnary(Neg, top))
    else if op == LogicalNot then PushResult(m, ApplyUnary(Not, top))
    else if op.Strict? && m.stack != [] then
      PushResult(m.(stack := m.stack[..|m.stack| - 1]), ApplyBinOp(op.op, m.stack[|m.stack| - 1], top))
    else if op == Pop then Running(m)
    else Crashed
  }

  /** Instructions without operands. */
  function ExecPlain(op: OpCode, m: Vm): Next {
    if op == PushNil then Push(m, Nil)
    else if op == PushTrue then Push(m, Bool(true))
    else if op == PushFalse then Push(m, Bool(false))
    else if op == PopLoop then Running(if m.loops == [] then m else m.(loops := m.loops[..|m.loops| - 1]))
    else if m.stack == [] then Crashed
    else ExecTop(op, m.stack[|m.stack| - 1], m.(stack := m.stack[..|m.stack| - 1]))
  }

  /** The values the pattern binds and then true, or false alone. */
  function ExecMatch(p: Patterns.Pattern, top: Value, m: Vm): Next {
    var r := Patterns.MatchVm(p, top, []);
    if r.0 then Running(m.(stack := m.stack + r.1 + [Bool(true)])) else Push(m, Bool(false))
  }

  /** A store or a test with a byte operand: `top` has been popped. */
  function ExecStore(c: Chunk, base: nat, op: OpCode, a: nat, top: Value, m: Vm): Next {
    if op == StoreLocal then Running(m.(stack := SetLocal(m.stack, base + a, top)))
    else if op == AssignLocal then
      if base + a < |m.stack| then Running(m.(stack := m.stack[base + a := top])) else Crashed
    else if op == PopLocalKeep then
      if a <= |m.stack| then Running(m.(stack := m.stack[..|m.stack| - a] + [top])) else Crashed
    else if op == Match then
      if a < |c.consts.patterns| then ExecMatch(c.consts.patterns[a], top, m) else Crashed
    else if op in {DefineGlobal, AssignGlobal} then
      (match NameAt(c.consts.values, a)
       case None => Crashed
       case Some(x) => Running(m.(globals := m.globals[x := top])))
    else Crashed
  }

  /** Instructions with a byte operand. */
  function ExecByte(c: Chunk, base: nat, op: OpCode, a: nat, m: Vm): Next {
    if op == Const then
      if a < |c.consts.values| then Push(m, c.consts.values[a]) else Crashed
    else if op == LoadLocal then
      if base + a < |m.stack| then Push(m, m.stack[base + a]) else Crashed
    else if op == LoadGlobal then
      (match NameAt(c.consts.values, a)
       case None => Crashed
       case Some(x) => if x in m.globals then Push(m, m.globals[x]) else Faulted(NameError))
    else if op == PopN then
      if a <= |m.stack| then Running(m.(stack := m.stack[..|m.stack| - a])) else Crashed
    else if m.stack == [] then Crashed
    else ExecStore(c, base, op, a, m.stack[|m.stack| - 1], m.(stack := m.stack[..|m.stack| - 1]))
  }

  function ExecJump(op: OpCode, addr: nat, m: Vm): Next {
    if op in {Jump, Loop} then Running(m.(ip := addr))
    else if m.stack == [] then Crashed
    else
      var top, m1 := m.stack[|m.stack| - 1], m.(stack := m.stack[..|m.stack| - 1]);
      Running(if Truthy(top) == (op == JumpIfTrue) then m1.(ip := addr) else m1)
  }

  function Exec(c: Chunk, base: nat, i: Instr, m: Vm): Next {
    var width := OperandBytes(i.op);
    if width == 0 then ExecPlain(i.op, m)
    else if width == 1 then ExecByte(c, base, i.op, i.a, m)
    else if width == 2 then ExecJump(i.op, i.a, m)
    else Running(m.(loops := m.loops + [LoopHandler(i.a, i.b, |m.stack|)]))
  }

  function Step(c: Chunk, base: nat, m: Vm): Next {
    match Decode(c.code, m.ip)
    case None => Crashed
    case Some((i, next)) => Exec(c, base, i, m.(ip := next))
  }

  // ----- runs -----

  function Steps(c: Chunk, base: nat, m: Vm, n: nat): Next
    decreases n
  {
    if n == 0 then Running(m)
    else
      match Step(c, base, m)
      case Running(next) => Steps(c, base, next, n - 1)
      case stopped => stopped
  }

  /** Some number of steps leads from `m` to `end`. */
  ghost predicate Runs(c: Chunk, base: nat, m: Vm, end: Next) {
    exists n: nat :: Steps(c, base, m, n) == end
  }

  lemma {:induction false} StepsAppend(c: Chunk, base: nat, m: Vm, mid: Vm, end: Next, i: nat, j: nat)
    requires Steps(c, base, m, i) == Running(mid) && Steps(c, base, mid, j) == end
    ensures Steps(c, base, m, i + j) == end
    decreases i
  {
    hide Step;
    if i > 0 {
      StepsAppend(c, base, Step(c, base, m).vm, mid, end, i - 1, j);
    }
  }

  lemma RunsTransitive(c: Chunk, base: nat, m: Vm, mid: Vm, end: Next)
    requires Runs(c, base, m, Running(mid)) && Runs(c, base, mid, end)
    ensures Runs(c, base, m, end)
  {
    var i: nat :| Steps(c, base, m, i) == Running(mid);
    var j: nat :| Steps(c, base, mid, j) == end;
    StepsAppend(c, base, m, mid, end, i, j);
  }

  lemma RunsHere(c: Chunk, base: nat, m: Vm)
    ensures Runs(c, base, m, Running(m))
  {
    assert Steps(c, base, m, 0) == Running(m);
  }

  /** One instruction of known code. */
  lemma RunsInstr(c: Chunk, base: nat, m: Vm, i: Instr)
    requires WellFormed(i) && At(c.code, m.ip, Encode(i))
    ensures Runs(c, base, m, Exec(c, base, i, m.(ip := m.ip + 1 + OperandBytes(i.op))))
  {
    DecodeEncode(c.code, m.ip, i);
    var end := Exec(c, base, i, m.(ip := m.ip + 1 + OperandBytes(i.op)));
    assert Step(c, base, m) == end;
    assert Steps(c, base, m, 1) == end;
  }
}
