/**
 The one-pass compiler as it runs (`src/compiler/mod.rs`): it appends to a code
 buffer, leaves jump operands blank, and patches them once the target address
 is known. One function context, that of the script.
 */
module ScriptCompiler {
  import opened Values
  import opened Bytecode
  import opened TreeWalker
  import opened CodeGen
  import opened Slots
  import opened Unfoldings
  import Patterns

  /** Overwrite the word at `offset`. */
  function Patched(code: seq<byte>, offset: nat, w: word): seq<byte>
    requires offset + 2 <= |code|
  {
    code[offset := LowByte(w)][offset + 1 := HighByte(w)]
  }

  /** Patching the operand of a jump that was emitted blank. */
  lemma PatchJumpOperand(before: seq<byte>, op: OpCode, rest: seq<byte>, addr: nat)
    requires OperandBytes(op) == 2
    ensures |WithAddr(op, 0)| == 3
    ensures Patched(before + WithAddr(op, 0) + rest, |before| + 1, AsWord(addr)) == before + WithAddr(op, addr) + rest
  {
    hide OpByte;
  }

  /** A byte operand is truncated once. */
  lemma ByteTwice(op: OpCode, n: nat)
    ensures WithByte(op, AsByte(n)) == WithByte(op, n)
  {
  }

  /** Patching the operands of a loop's handler. */
  lemma PatchLoopOperands(before: seq<byte>, rest: seq<byte>, a: nat, b: nat)
    ensures var blank, half, full := Encode(Instr(PushLoop, 0, 0)), Encode(Instr(PushLoop, AsWord(a), 0)),
                                     Encode(Instr(PushLoop, AsWord(a), AsWord(b)));
            && |blank| == |half| == |full| == 5
            && Patched(before + blank, |before| + 1, AsWord(a)) == before + half
            && Patched(before + half + rest, |before| + 3, AsWord(b)) == before + full + rest
  {
  }

  lemma Widths(op: OpCode)
    ensures |Plain(op)| == |WithByte(op, 0)| == |WithAddr(op, 0)| == 1 + OperandBytes(op)
  {
  }

  lemma LogicalPatched(before: seq<byte>, op: BinOp, l: seq<byte>, r: seq<byte>, end: nat)
    ensures var blank := before + l + Plain(Dup) + WithAddr(LogicalJump(op), 0) + Plain(Pop) + r;
            && |blank| == |before| + |JoinLogical(op, l, r, end)|
            && Patched(blank, |before| + |l| + 2, AsWord(end)) == before + JoinLogical(op, l, r, end)
  {
    var jump, start := LogicalJump(op), before + l + Plain(Dup);
    PatchJumpOperand(start, jump, Plain(Pop) + r, end);
    Widths(Dup);
    hide Plain, WithAddr, Patched, LogicalJump;
    assert start + WithAddr(jump, 0) + Plain(Pop) + r == start + WithAddr(jump, 0) + (Plain(Pop) + r);
    assert start + WithAddr(jump, end) + (Plain(Pop) + r) == before + JoinLogical(op, l, r, end);
  }

  lemma IfPatched(before: seq<byte>, c: seq<byte>, t: seq<byte>, f: seq<byte>, els: nat, end: nat)
    ensures var blank := before + c + WithAddr(JumpIfFalse, 0) + t + WithAddr(Jump, 0);
            var half := before + c + WithAddr(JumpIfFalse, els) + t + WithAddr(Jump, 0);
            && |blank| == |half| == |before| + |c| + |t| + 6
            && Patched(blank, |before| + |c| + 1, AsWord(els)) == half
            && Patched(half + f, |before| + |c| + |t| + 4, AsWord(end)) == before + JoinIf(c, t, f, els, end)
  {
    FirstPatched(before, c, t, els);
    SecondPatched(before + c + WithAddr(JumpIfFalse, els) + t, f, end);
    AddrWidth(JumpIfFalse, els);
    AddrWidth(Jump, 0);
    IfLayout(before, c, t, f, els, end);
    hide *;
  }

  lemma AddrWidth(op: OpCode, addr: nat)
    ensures |WithAddr(op, addr)| == 1 + OperandBytes(op)
  {
  }

  /** The jump to the else branch. */
  lemma FirstPatched(before: seq<byte>, c: seq<byte>, t: seq<byte>, els: nat)
    ensures var blank := before + c + WithAddr(JumpIfFalse, 0) + t + WithAddr(Jump, 0);
            && |blank| == |before| + |c| + |t| + 6
            && Patched(blank, |before| + |c| + 1, AsWord(els))
                 == before + c + WithAddr(JumpIfFalse, els) + t + WithAddr(Jump, 0)
  {
    PatchJumpOperand(before + c, JumpIfFalse, t + WithAddr(Jump, 0), els);
    AddrWidth(JumpIfFalse, 0);
    AddrWidth(Jump, 0);
    hide *;
    var start := before + c;
    assert start + WithAddr(JumpIfFalse, 0) + t + WithAddr(Jump, 0)
        == start + WithAddr(JumpIfFalse, 0) + (t + WithAddr(Jump, 0));
    assert start + WithAddr(JumpIfFalse, els) + t + WithAddr(Jump, 0)
        == start + WithAddr(JumpIfFalse, els) + (t + WithAddr(Jump, 0));
  }

  /** The jump to the end. */
  lemma SecondPatched(start: seq<byte>, f: seq<byte>, end: nat)
    ensures |start + WithAddr(Jump, 0) + f| == |start| + 3 + |f|
    ensures Patched(start + WithAddr(Jump, 0) + f, |start| + 1, AsWord(end)) == start + WithAddr(Jump, end) + f
  {
    AddrWidth(Jump, 0);
    PatchJumpOperand(start, Jump, f, end);
    hide *;
  }

  lemma IfLayout(before: seq<byte>, c: seq<byte>, t: seq<byte>, f: seq<byte>, els: nat, end: nat)
    ensures before + c + WithAddr(JumpIfFalse, els) + t + WithAddr(Jump, end) + f == before + JoinIf(c, t, f, els, end)
  {
    hide WithAddr;
  }

  lemma LoopHeader(before: seq<byte>, start: nat)
    ensures var blank := before + [OpByte(PushLoop)] + WordBytes(AsWord(0)) + WordBytes(AsWord(0));
            && |blank| == |before| + 5
            && Patched(blank, |before| + 1, AsWord(start))
                 == before + Encode(Instr(PushLoop, AsWord(start), AsWord(0)))
  {
    PatchLoopOperands(before, [], start, 0);
    assert before + [OpByte(PushLoop)] + WordBytes(AsWord(0)) + WordBytes(AsWord(0))
        == before + Encode(Instr(PushLoop, 0, 0));
  }

  /** From a loop's start to its exit, with the exit jump leading to `exit`. */
  function Around(c: seq<byte>, b: seq<byte>, start: nat, exit: nat): (r: seq<byte>)
    ensures |r| == |c| + |b| + 7
  {
    c + WithAddr(JumpIfFalse, exit) + b + Plain(Pop) + WithAddr(Loop, start)
  }

  lemma ExitPatched(before: seq<byte>, c: seq<byte>, b: seq<byte>, start: nat, exit: nat)
    ensures var blank := before + c + WithAddr(JumpIfFalse, 0) + b + Plain(Pop) + WithAddr(Loop, start);
            && |blank| == |before| + |c| + |b| + 7
            && Patched(blank, |before| + |c| + 1, AsWord(exit)) == before + Around(c, b, start, exit)
  {
    var rest := b + Plain(Pop) + WithAddr(Loop, start);
    PatchJumpOperand(before + c, JumpIfFalse, rest, exit);
    Widths(Pop);
    assert |WithAddr(Loop, start)| == 3;
    hide Plain, WithAddr, Patched;
    assert before + c + WithAddr(JumpIfFalse, 0) + b + Plain(Pop) + WithAddr(Loop, start)
        == before + c + WithAddr(JumpIfFalse, 0) + rest;
    assert before + c + WithAddr(JumpIfFalse, exit) + rest == before + Around(c, b, start, exit);
  }

  lemma Sizes()
    ensures OperandBytes(Jump) == OperandBytes(JumpIfFalse) == 2 && OperandBytes(PopN) == 1
    ensures OperandBytes(PopLoop) == OperandBytes(PushNil) == 0 && AsWord(0) == 0
  {
  }

  lemma BreakPatched(before: seq<byte>, body: seq<byte>, start: nat, addr: nat)
    ensures var tail := Plain(PopLoop) + Plain(PushNil) + WithAddr(Jump, 0);
            var blank := before + Encode(Instr(PushLoop, AsWord(start), AsWord(0))) + body
                         + Plain(PopLoop) + Plain(PushNil) + WithAddr(Jump, 0);
            && |blank| == |before| + |body| + 10
            && Patched(blank, |before| + 3, AsWord(addr))
                 == before + Encode(Instr(PushLoop, AsWord(start), AsWord(addr))) + body
                    + Plain(PopLoop) + Plain(PushNil) + WithAddr(Jump, 0)
  {
    hide *;
    var tail := Plain(PopLoop) + Plain(PushNil) + WithAddr(Jump, 0);
    PatchLoopOperands(before, body + tail, start, addr);
    Widths(PopLoop);
    Widths(PushNil);
    Widths(Jump);
    Sizes();
    var half := before + Encode(Instr(PushLoop, AsWord(start), 0));
    var full := before + Encode(Instr(PushLoop, AsWord(start), AsWord(addr)));
    assert half + body + Plain(PopLoop) + Plain(PushNil) + WithAddr(Jump, 0) == half + (body + tail);
    assert full + body + Plain(PopLoop) + Plain(PushNil) + WithAddr(Jump, 0) == full + (body + tail);
  }

  lemma WhilePatched(before: seq<byte>, c: seq<byte>, b: seq<byte>, start: nat, exit: nat)
    ensures var body := Around(c, b, start, exit);
            var blank := before + Encode(Instr(PushLoop, AsWord(start), AsWord(exit + 5))) + body
                         + Plain(PopLoop) + Plain(PushNil) + WithAddr(Jump, 0) + Plain(PopLoop);
            && |blank| == |before| + |body| + 11
            && Patched(blank, |before| + |body| + 8, AsWord(exit + 6)) == before + JoinWhile(c, b, start, exit)
  {
    var head, body := Encode(Instr(PushLoop, AsWord(start), AsWord(exit + 5))), Around(c, b, start, exit);
    PatchJumpOperand(before + head + body + Plain(PopLoop) + Plain(PushNil), Jump, Plain(PopLoop), exit + 6);
    Widths(PopLoop);
    Widths(PushNil);
    Widths(Jump);
    hide Plain, WithAddr, Patched, Encode;
    WhileLayout(before, c, b, start, exit);
  }

  lemma WhileLayout(before: seq<byte>, c: seq<byte>, b: seq<byte>, start: nat, exit: nat)
    ensures var head, body := Encode(Instr(PushLoop, AsWord(start), AsWord(exit + 5))), Around(c, b, start, exit);
            before + head + body + Plain(PopLoop) + Plain(PushNil) + WithAddr(Jump, exit + 6) + Plain(PopLoop)
              == before + JoinWhile(c, b, start, exit)
  {
    hide Plain, WithAddr, Encode;
    var head, body := Encode(Instr(PushLoop, AsWord(start), AsWord(exit + 5))), Around(c, b, start, exit);
    var tail := Join3(Plain(Pop), WithAddr(Loop, start), LoopExit(exit));
    assert LoopExit(exit) == Plain(PopLoop) + Plain(PushNil) + WithAddr(Jump, exit + 6) + Plain(PopLoop);
    assert tail == Plain(Pop) + WithAddr(Loop, start) + LoopExit(exit);
    assert JoinWhile(c, b, start, exit) == head + (body + LoopExit(exit));
  }

  /** The locals a block declared are those its end drops. */
  lemma BlockScope(outer: seq<Local>, locals: seq<Local>, depth: nat)
    requires depth > 0 && Grows(Scope(outer, depth), Scope(locals, depth))
    requires forall k :: 0 <= k < |outer| ==> outer[k].depth < depth
    ensures Outer(locals, depth) == |outer| && locals[..|outer|] == outer
  {
    var n := |outer|;
    assert locals[..n] == outer;
    assert n > 0 ==> locals[n - 1] == outer[n - 1];
    OuterUnique(locals, depth, n);
  }

  // ----- the arms of a match -----

  lemma ByteOpWidth(op: OpCode, n: nat)
    ensures |WithByte(op, n)| == 1 + OperandBytes(op)
  {
  }

  /** Where an arm's jump to the end has its operand. */
  function EndOffset(a: ArmCode): nat {
    match a.guard
    case None => |a.body| + 10
    case Some(g) => |g| + |a.body| + 13
  }

  /** The part of an arm before its test's jump. */
  function ArmHead(slot: nat, a: ArmCode): (r: seq<byte>)
    ensures |r| == 4
  {
    WithByte(LoadLocal, slot) + WithByte(OpCode.Match, a.test)
  }

  function ArmTail(a: ArmCode, end: nat): (r: seq<byte>)
    ensures |r| == |a.body| + 5
  {
    a.body + WithByte(PopLocalKeep, a.names) + WithAddr(Jump, end)
  }

  /** An arm without a guard, once the jump over it is patched. */
  lemma BareArmPatched(before: seq<byte>, slot: nat, a: ArmCode, end: nat)
    requires a.guard.None?
    ensures var blank := before + ArmHead(slot, a) + WithAddr(JumpIfFalse, 0) + ArmTail(a, end);
            var next := |before| + ArmWidth(a);
            && |blank| == next
            && Patched(blank, |before| + 5, AsWord(next)) == before + JoinArm(slot, a, |before|, end)
  {
    var head, next := before + ArmHead(slot, a), |before| + ArmWidth(a);
    PatchJumpOperand(head, JumpIfFalse, ArmTail(a, end), next);
    BareArmIs(slot, a, |before|, end);
    hide *;
    Shift(before, ArmHead(slot, a), WithAddr(JumpIfFalse, next), ArmTail(a, end));
  }

  lemma Shift(a: seq<byte>, b: seq<byte>, c: seq<byte>, d: seq<byte>)
    ensures a + b + c + d == a + (b + (c + d))
  {
  }

  lemma BareArmIs(slot: nat, a: ArmCode, pc: nat, end: nat)
    requires a.guard.None?
    ensures JoinArm(slot, a, pc, end) == ArmHead(slot, a) + (WithAddr(JumpIfFalse, pc + ArmWidth(a)) + ArmTail(a, end))
    ensures |WithAddr(JumpIfFalse, 0)| == 3 && ArmWidth(a) == |a.body| + 12
  {
    AddrWidth(JumpIfFalse, 0);
    hide WithByte, WithAddr;
    var head, test := WithByte(LoadLocal, slot), WithByte(OpCode.Match, a.test);
    Shift(head, test, WithAddr(JumpIfFalse, pc + ArmWidth(a)), JoinBody(a, end));
  }

  /** An arm with a guard, once both jumps to what follows its body are patched. */
  lemma GuardedArmPatched(before: seq<byte>, slot: nat, a: ArmCode, end: nat)
    requires a.guard.Some?
    ensures var next := |before| + ArmWidth(a);
            var head := before + ArmHead(slot, a) + WithAddr(JumpIfFalse, 0) + a.guard.value;
            var blank := head + WithAddr(JumpIfFalse, 0) + ArmTail(a, end);
            var half := head + WithAddr(JumpIfFalse, next - 2) + ArmTail(a, end);
            && |head| == |before| + 7 + |a.guard.value| && |blank| == next - 2
            && Patched(blank, |head| + 1, AsWord(next - 2)) == half
            && |half + WithByte(PopN, a.names)| == next
            && Patched(half + WithByte(PopN, a.names), |before| + 5, AsWord(next)) ==
                before + JoinArm(slot, a, |before|, end)
  {
    hide *;
    Sizes();
    GuardedArmIs(slot, a, |before|, end);
    var next := |before| + ArmWidth(a);
    var head := before + ArmHead(slot, a) + WithAddr(JumpIfFalse, 0) + a.guard.value;
    PatchJumpOperand(head, JumpIfFalse, ArmTail(a, end), next - 2);
    PatchJumpOperand(before + ArmHead(slot, a), JumpIfFalse, GuardedRest(a, next, end), next);
    AddrWidth(JumpIfFalse, next - 2);
    ByteOpWidth(PopN, a.names);
    Shift3(before + ArmHead(slot, a), WithAddr(JumpIfFalse, 0), a.guard.value, WithAddr(JumpIfFalse, next - 2),
           ArmTail(a, end),
           WithByte(PopN, a.names));
    assert before + ArmHead(slot, a) + WithAddr(JumpIfFalse, next) + GuardedRest(a, next, end)
        == before + (ArmHead(slot, a) + (WithAddr(JumpIfFalse, next) + GuardedRest(a, next, end))) by {
      Shift(before, ArmHead(slot, a), WithAddr(JumpIfFalse, next), GuardedRest(a, next, end));
    }
    GuardedRestIs(a, next, end);
  }

  /** What follows the test's jump. */
  function GuardedRest(a: ArmCode, next: nat, end: nat): seq<byte>
    requires a.guard.Some? && next >= 2
  {
    a.guard.value + (WithAddr(JumpIfFalse, next - 2) + (ArmTail(a, end) + WithByte(PopN, a.names)))
  }

  lemma GuardedRestIs(a: ArmCode, next: nat, end: nat)
    requires a.guard.Some? && next >= 2
    ensures GuardedRest(a, next, end) ==
              a.guard.value + (WithAddr(JumpIfFalse, next - 2) + (ArmTail(a, end) + WithByte(PopN, a.names)))
  {
  }

  lemma Shift3(a: seq<byte>, b: seq<byte>, c: seq<byte>, d: seq<byte>, e: seq<byte>, f: seq<byte>)
    ensures a + b + c + d + e + f == a + b + (c + (d + (e + f)))
  {
    assert a + b + (c + (d + (e + f))) == a + b + c + (d + (e + f));
  }

  lemma GuardedArmIs(slot: nat, a: ArmCode, pc: nat, end: nat)
    requires a.guard.Some?
    ensures var next := pc + ArmWidth(a);
            JoinArm(slot, a, pc, end) == ArmHead(slot, a) + (WithAddr(JumpIfFalse, next) + GuardedRest(a, next, end))
    ensures |WithAddr(JumpIfFalse, 0)| == 3 && ArmWidth(a) == |a.guard.value| + |a.body| + 17
  {
    AddrWidth(JumpIfFalse, 0);
    hide WithByte, WithAddr;
    var head, test := WithByte(LoadLocal, slot), WithByte(OpCode.Match, a.test);
    var next := pc + ArmWidth(a);
    Shift(head, test, WithAddr(JumpIfFalse, next), JoinGuarded(a, next, end));
    assert JoinBody(a, end) == ArmTail(a, end);
  }

  lemma {:induction false} ArmsAppend(slot: nat, arms: seq<ArmCode>, a: ArmCode, pc: nat, end: nat)
    ensures ArmsWidth(arms + [a]) == ArmsWidth(arms) + ArmWidth(a)
    ensures JoinArms(slot, arms + [a], pc, end) ==
              JoinArms(slot, arms, pc, end) + JoinArm(slot, a, pc + ArmsWidth(arms), end)
    decreases |arms|
  {
    hide JoinArm, ArmWidth;
    if arms == [] {
      assert ([] + [a])[1..] == [];
    } else {
      assert (arms + [a])[1..] == arms[1..] + [a];
      ArmsAppend(slot, arms[1..], a, pc + ArmWidth(arms[0]), end);
    }
  }

  /** The arms with the jumps of the first `i` leading to `end`, and the others still blank. */
  function Mixed(slot: nat, arms: seq<ArmCode>, pc: nat, i: nat, end: nat): (r: seq<byte>)
    ensures |r| == ArmsWidth(arms)
  {
    if arms == [] then []
    else
      JoinArm(slot, arms[0], pc, if i > 0 then end else 0)
      + Mixed(slot, arms[1..], pc + ArmWidth(arms[0]), if i > 0 then i - 1 else 0, end)
  }

  lemma {:induction false} NoneMixed(slot: nat, arms: seq<ArmCode>, pc: nat, end: nat)
    ensures Mixed(slot, arms, pc, 0, end) == JoinArms(slot, arms, pc, 0)
    decreases |arms|
  {
    hide JoinArm, ArmWidth;
    if arms != [] {
      NoneMixed(slot, arms[1..], pc + ArmWidth(arms[0]), end);
    }
  }

  lemma {:induction false} AllMixed(slot: nat, arms: seq<ArmCode>, pc: nat, i: nat, end: nat)
    requires i >= |arms|
    ensures Mixed(slot, arms, pc, i, end) == JoinArms(slot, arms, pc, end)
    decreases |arms|
  {
    hide JoinArm, ArmWidth;
    if arms != [] {
      AllMixed(slot, arms[1..], pc + ArmWidth(arms[0]), i - 1, end);
    }
  }

  /** Where the operand of an arm's jump to the end is. */
  function EndAt(arms: seq<ArmCode>, pc: nat, i: nat): nat
    requires i < |arms|
  {
    if i == 0 then pc + EndOffset(arms[0]) else EndAt(arms[1..], pc + ArmWidth(arms[0]), i - 1)
  }

  lemma OneEndPatched(before: seq<byte>, slot: nat, a: ArmCode, pc: nat, rest: seq<byte>, end: nat)
    ensures var blank := before + JoinArm(slot, a, pc, 0) + rest;
            && |before| + EndOffset(a) + 2 <= |blank|
            && Patched(blank, |before| + EndOffset(a), AsWord(end)) == before + JoinArm(slot, a, pc, end) + rest
  {
    var front, back := ArmFront(slot, a, pc), ArmBack(a);
    ArmAroundJump(slot, a, pc, 0);
    ArmAroundJump(slot, a, pc, end);
    PatchJumpOperand(before + front, Jump, back + rest, end);
    hide *;
    Shift4(before, front, WithAddr(Jump, 0), back, rest);
    Shift4(before, front, WithAddr(Jump, end), back, rest);
  }

  lemma Shift4(a: seq<byte>, b: seq<byte>, c: seq<byte>, d: seq<byte>, e: seq<byte>)
    ensures a + (b + (c + d)) + e == a + b + c + (d + e)
  {
  }

  /** An arm up to its jump to the end. */
  function ArmFront(slot: nat, a: ArmCode, pc: nat): seq<byte> {
    var next := pc + ArmWidth(a);
    ArmHead(slot, a) + WithAddr(JumpIfFalse, next)
    + (if a.guard.Some? then a.guard.value + WithAddr(JumpIfFalse, next - 2) else [])
    + (a.body + WithByte(PopLocalKeep, a.names))
  }

  /** An arm after its jump to the end. */
  function ArmBack(a: ArmCode): seq<byte> {
    if a.guard.Some? then WithByte(PopN, a.names) else []
  }

  lemma ArmAroundJump(slot: nat, a: ArmCode, pc: nat, end: nat)
    ensures JoinArm(slot, a, pc, end) == ArmFront(slot, a, pc) + (WithAddr(Jump, end) + ArmBack(a))
    ensures |ArmFront(slot, a, pc)| + 1 == EndOffset(a) && |WithAddr(Jump, end)| == 3
  {
    hide *;
    FrontWidth(slot, a, pc, end);
    if a.guard.Some? {
      GuardedArmIs(slot, a, pc, end);
      GuardedAround(slot, a, pc, end);
    } else {
      BareArmIs(slot, a, pc, end);
      BareAround(slot, a, pc, end);
    }
  }

  lemma FrontWidth(slot: nat, a: ArmCode, pc: nat, end: nat)
    ensures |ArmFront(slot, a, pc)| + 1 == EndOffset(a) && |WithAddr(Jump, end)| == 3
  {
    AddrWidth(JumpIfFalse, pc + ArmWidth(a));
    AddrWidth(JumpIfFalse, pc + ArmWidth(a) - 2);
    AddrWidth(Jump, end);
    ByteOpWidth(PopLocalKeep, a.names);
    hide WithAddr, WithByte, ArmHead;
  }

  lemma BareAround(slot: nat, a: ArmCode, pc: nat, end: nat)
    requires a.guard.None?
    ensures ArmHead(slot, a) + (WithAddr(JumpIfFalse, pc + ArmWidth(a)) + ArmTail(a, end)) ==
              ArmFront(slot, a, pc) + (WithAddr(Jump, end) + ArmBack(a))
  {
    hide WithAddr, WithByte, ArmHead, ArmWidth;
    var h, j := ArmHead(slot, a), WithAddr(JumpIfFalse, pc + ArmWidth(a));
    var b, k, e := a.body, WithByte(PopLocalKeep, a.names), WithAddr(Jump, end);
    assert h + (j + (b + k + e)) == h + j + [] + (b + k) + (e + []);
  }

  lemma GuardedAround(slot: nat, a: ArmCode, pc: nat, end: nat)
    requires a.guard.Some?
    ensures ArmHead(slot, a) + (WithAddr(JumpIfFalse, pc + ArmWidth(a)) + GuardedRest(a, pc + ArmWidth(a), end)) ==
              ArmFront(slot, a, pc) + (WithAddr(Jump, end) + ArmBack(a))
  {
    var next := pc + ArmWidth(a);
    assert next >= 2;
    hide WithAddr, WithByte, ArmHead, ArmWidth;
    Shift6(ArmHead(slot, a), WithAddr(JumpIfFalse, next), a.guard.value, WithAddr(JumpIfFalse, next - 2), a.body,
           WithByte(PopLocalKeep, a.names), WithAddr(Jump, end), WithByte(PopN, a.names));
  }

  lemma Shift6(h: seq<byte>, j: seq<byte>, g: seq<byte>, i: seq<byte>, b: seq<byte>, k: seq<byte>, e: seq<byte>,
               p: seq<byte>)
    ensures h + (j + (g + (i + (b + k + e + p)))) == h + j + (g + i) + (b + k) + (e + p)
  {
    assert h + (j + (g + (i + (b + k + e + p)))) == h + j + (g + i) + (b + k + e + p);
    assert b + k + e + p == b + k + (e + p);
  }

  /** One more jump to the end patched. */
  lemma {:induction false} EndPatched(before: seq<byte>, slot: nat, arms: seq<ArmCode>, pc: nat, i: nat,
                                      rest: seq<byte>, end: nat)
    requires i < |arms| && |before| == pc
    ensures var blank := before + Mixed(slot, arms, pc, i, end) + rest;
            && EndAt(arms, pc, i) + 2 <= |blank|
            && Patched(blank, EndAt(arms, pc, i), AsWord(end)) == before + Mixed(slot, arms, pc, i + 1, end) + rest
    decreases |arms|
  {
    hide JoinArm, ArmWidth, Patched, EndOffset;
    var a, pc1 := arms[0], pc + ArmWidth(arms[0]);
    if i == 0 {
      var others := Mixed(slot, arms[1..], pc1, 0, end);
      OneEndPatched(before, slot, a, pc, others + rest, end);
      assert before + JoinArm(slot, a, pc, 0) + (others + rest) == before + (JoinArm(slot, a, pc, 0) + others) + rest;
      assert before + JoinArm(slot, a, pc, end) + (others + rest) ==
          before + (JoinArm(slot, a, pc, end) + others) + rest;
    } else {
      var first := JoinArm(slot, a, pc, end);
      EndPatched(before + first, slot, arms[1..], pc1, i - 1, rest, end);
      assert before + first + Mixed(slot, arms[1..], pc1, i - 1, end) + rest
          == before + (first + Mixed(slot, arms[1..], pc1, i - 1, end)) + rest;
      assert before + first + Mixed(slot, arms[1..], pc1, i, end) + rest
          == before + (first + Mixed(slot, arms[1..], pc1, i, end)) + rest;
    }
  }

  lemma EndsAppend(arms: seq<ArmCode>, a: ArmCode, pc: nat)
    ensures forall k :: 0 <= k < |arms| ==> EndAt(arms + [a], pc, k) == EndAt(arms, pc, k)
    ensures EndAt(arms + [a], pc, |arms|) == pc + ArmsWidth(arms) + EndOffset(a)
    decreases |arms|
  {
    hide ArmWidth, EndOffset;
    if arms != [] {
      assert (arms + [a])[1..] == arms[1..] + [a];
      EndsAppend(arms[1..], a, pc + ArmWidth(arms[0]));
    }
  }

  lemma ArmStarts(before: seq<byte>, slot: nat, a: ArmCode)
    ensures before + WithByte(LoadLocal, slot) + WithByte(OpCode.Match, a.test) == before + ArmHead(slot, a)
    ensures |before + ArmHead(slot, a)| == |before| + 4 && |WithAddr(JumpIfFalse, 0)| == 3
  {
    hide WithByte;
  }

  lemma ArmTailIs(head: seq<byte>, a: ArmCode, end: nat)
    ensures head + a.body + WithByte(PopLocalKeep, a.names) + WithAddr(Jump, end) == head + ArmTail(a, end)
    ensures |head + a.body + WithByte(PopLocalKeep, a.names)| == |head| + |a.body| + 2
  {
    ByteOpWidth(PopLocalKeep, a.names);
    hide WithByte, WithAddr;
  }

  lemma EndOffsetIs(a: ArmCode)
    ensures EndOffset(a) == if a.guard.Some? then |a.guard.value| + |a.body| + 13 else |a.body| + 10
  {
  }

  lemma BoundValid(locals: seq<Local>, names: seq<string>, depth: nat)
    requires forall k :: 0 <= k < |locals| ==> locals[k].depth <= depth
    ensures forall k :: 0 <= k < |locals + Bound(names, depth)| ==> (locals + Bound(names, depth))[k].depth <= depth
    ensures |Bound(names, depth)| == |names|
  {
  }

  lemma ScrutineeValid(locals: seq<Local>, depth: nat)
    requires forall k :: 0 <= k < |locals| ==> locals[k].depth <= depth
    ensures forall k :: 0 <= k < |locals| + 1 ==> (locals + [Local(SCRUTINEE, depth)])[k].depth <= depth
  {
  }

  lemma PoppedValid(locals: seq<Local>, bound: seq<Local>, depth: nat)
    ensures (locals + bound)[..|locals + bound| - |bound|] == locals
  {
  }

  lemma NothingYet(arms: seq<Arm>, sc: Scope, pc: nat, consts: Pool, slot: nat)
    ensures arms[0..] == arms && ArmsWidth([]) == 0 && JoinArms(slot, [], pc, 0) == []
    ensures var a := GenArms(arms, sc, pc, consts); a.0 == [] + a.0 && Extends(consts, a.1)
  {
    hide GenArms;
  }

  lemma NothingLeft(arms: seq<Arm>, sc: Scope, pc: nat, consts: Pool, done: seq<ArmCode>)
    ensures arms[|arms|..] == []
    ensures var rest := GenArms(arms[|arms|..], sc, pc, consts); done + rest.0 == done && rest.1 == consts
  {
  }

  lemma OneMoreArm(done: seq<ArmCode>, a: ArmCode, rest: seq<ArmCode>)
    ensures done + ([a] + rest) == (done + [a]) + rest
  {
  }

  lemma SmallBefore(a: Pool, b: Pool)
    requires Small(b) && Extends(a, b)
    ensures Small(a)
  {
  }

  lemma MatchSmall(arms: seq<Arm>, sc: Scope, pc: nat, consts: Pool)
    requires Small(GenArms(arms, sc, pc, consts).1)
    ensures Small(consts)
  {
    hide GenArms;
  }

  lemma MatchEmitted(before: seq<byte>, c: seq<byte>, slot: nat, arms: seq<ArmCode>)
    ensures var armsPc := |before| + |c| + 2;
            var end := armsPc + ArmsWidth(arms) + 1;
            before + c + WithByte(StoreLocal, slot) + JoinArms(slot, arms, armsPc, end) + Plain(PushNil)
              + WithByte(PopLocalKeep, 1) == before + JoinMatch(c, slot, arms, |before|)
  {
    hide WithByte, Plain, JoinArms;
  }

  lemma GenLeaf(e: Expr, sc: Scope, pc: nat, consts: Pool)
    ensures e.Literal? ==> Gen(e, sc, pc, consts) == GenLiteral(e.v, consts)
    ensures e.Ident? ==> Gen(e, sc, pc, consts) == Access(LoadLocal, LoadGlobal, sc, e.x, consts)
    ensures e.Paren? ==> Gen(e, sc, pc, consts) == Gen(e.e, sc, pc, consts)
  {
  }

  /** Constants and patterns are referred to by a byte; the source panics beyond. */
  predicate Small(consts: Pool) {
    |consts.values| <= 256 && |consts.patterns| <= 256
  }

  class Compiler {
    var code: seq<byte>
    var consts: Pool
    var locals: seq<Local>
    var scopeDepth: nat

    /** No local outlives the block it was declared in. */
    ghost predicate Valid()
      reads `locals, `scopeDepth
    {
      forall k :: 0 <= k < |locals| ==> locals[k].depth <= scopeDepth
    }

    ghost function Here(): Scope
      reads `locals, `scopeDepth
    {
      Scope(locals, scopeDepth)
    }

    constructor ()
      ensures Valid() && code == [] && consts == EMPTY && Here() == Scope([], 0)
    {
      code, consts, locals, scopeDepth := [], EMPTY, [], 0;
    }

    // ----- emission -----

    method EmitOp(op: OpCode)
      modifies `code
      ensures code == old(code) + [OpByte(op)]
    {
      code := code + [OpByte(op)];
    }

    method EmitU8(n: nat)
      modifies `code
      ensures code == old(code) + [AsByte(n)]
    {
      code := code + [AsByte(n)];
    }

    method EmitU16(n: nat)
      modifies `code
      ensures code == old(code) + WordBytes(AsWord(n))
    {
      code := code + [LowByte(AsWord(n)), HighByte(AsWord(n))];
    }

    method EmitPlain(op: OpCode)
      requires OperandBytes(op) == 0
      modifies `code
      ensures code == old(code) + Plain(op)
    {
      EmitOp(op);
    }

    method EmitWithByte(op: OpCode, n: nat)
      requires OperandBytes(op) == 1
      modifies `code
      ensures code == old(code) + WithByte(op, n)
    {
      EmitOp(op);
      EmitU8(n);
    }

    /** The index of `v` in the pool, which gains it if it is new. The source panics on a 257th constant. */
    method EmitConst(v: Value) returns (i: byte)
      requires |AddConst(consts, v).values| <= 256
      modifies `consts
      ensures i == AsByte(ConstIndex(old(consts), v)) && consts == AddConst(old(consts), v)
    {
      var k := 0;
      while k < |consts.values|
        invariant k <= |consts.values| && consts == old(consts)
        invariant forall j :: 0 <= j < k ==> consts.values[j] != v
      {
        if consts.values[k] == v {
          return k;
        }
        k := k + 1;
      }
      i := |consts.values|;
      consts := consts.(values := consts.values + [v]);
    }

    /** Emit a jump without its target; `PatchJump` fills it in. */
    method EmitJump(op: OpCode) returns (offset: nat)
      requires OperandBytes(op) == 2
      modifies `code
      ensures code == old(code) + WithAddr(op, 0) && offset == |old(code)| + 1
    {
      EmitOp(op);
      offset := |code|;
      EmitU16(0);
    }

    method PatchU16(offset: nat, n: nat)
      requires offset + 2 <= |code|
      modifies `code
      ensures code == Patched(old(code), offset, AsWord(n))
    {
      code := code[offset := LowByte(AsWord(n))];
      code := code[offset + 1 := HighByte(AsWord(n))];
    }

    method PatchJump(offset: nat)
      requires offset + 2 <= |code|
      modifies `code
      ensures code == Patched(old(code), offset, AsWord(|old(code)|))
    {
      PatchU16(offset, |code|);
    }

    method EmitLoop(start: nat)
      modifies `code
      ensures code == old(code) + WithAddr(Loop, start)
    {
      EmitOp(Loop);
      EmitU16(start);
    }

    // ----- scopes and names -----

    method BeginScope()
      modifies `scopeDepth
      ensures scopeDepth == old(scopeDepth) + 1
    {
      scopeDepth := scopeDepth + 1;
    }

    /** Drop the locals of the innermost scope, from the end, and say how many there were. */
    method EndScope() returns (n: nat)
      requires scopeDepth > 0
      modifies `locals, `scopeDepth
      ensures locals == old(locals[..Outer(locals, scopeDepth)])
      ensures scopeDepth == old(scopeDepth) - 1 && n == |old(locals)| - |locals|
    {
      n := 0;
      while locals != [] && locals[|locals| - 1].depth == scopeDepth
        invariant n + |locals| == |old(locals)| && locals == old(locals)[..|locals|] && scopeDepth == old(scopeDepth)
        invariant Outer(locals, scopeDepth) == old(Outer(locals, scopeDepth))
        decreases |locals|
      {
        locals := locals[..|locals| - 1];
        n := n + 1;
      }
      scopeDepth := scopeDepth - 1;
    }

    method DeclareLocal(name: string) returns (slot: nat)
      modifies `locals
      ensures locals == old(locals) + [Local(name, scopeDepth)] && slot == |old(locals)|
    {
      slot := |locals|;
      locals := locals + [Local(name, scopeDepth)];
    }

    /** Search the locals backwards. */
    method ResolveLocal(name: string) returns (r: Option<nat>)
      ensures r == Resolve(locals, scopeDepth, name)
    {
      var i := |locals|;
      assert locals[..i] == locals;
      while i > 0
        invariant i <= |locals| && Resolve(locals, scopeDepth, name) == Resolve(locals[..i], scopeDepth, name)
      {
        i := i - 1;
        assert locals[..i + 1][..i] == locals[..i];
        if locals[i].name == name && locals[i].depth <= scopeDepth {
          return Some(i);
        }
      }
      return None;
    }

    method EmitAccess(local: OpCode, global: OpCode, name: string)
      requires OperandBytes(local) == OperandBytes(global) == 1
      requires Small(Access(local, global, Here(), name, consts).consts)
      modifies `code, `consts
      ensures var c := old(Access(local, global, Here(), name, consts));
              code == old(code) + c.bytes && consts == c.consts
    {
      var slot := ResolveLocal(name);
      if slot.Some? {
        EmitWithByte(local, slot.value);
      } else {
        var i := EmitConst(Str(name));
        EmitWithByte(global, i);
      }
    }

    // ----- expressions -----

    method EmitLiteral(v: Value)
      requires Small(GenLiteral(v, consts).consts)
      modifies `code, `consts
      ensures var c := GenLiteral(v, old(consts));
              code == old(code) + c.bytes && consts == c.consts
    {
      hide Encode, ConstIndex, AddConst, OpByte;
      if v.Nil? {
        EmitPlain(PushNil);
      } else if v.Bool? {
        EmitPlain(if v.b then PushTrue else PushFalse);
      } else {
        ByteTwice(Const, ConstIndex(consts, v));
        var i := EmitConst(v);
        EmitWithByte(Const, i);
      }
    }

    /** An operand, then a one-byte operator. */
    method CompileUnary(e: Expr)
      requires e.Unary? && Valid() && Small(Gen(e, Here(), |code|, consts).consts)
      modifies this
      ensures Valid() && Here() == old(Here())
      ensures var c := old(Gen(e, Here(), |code|, consts));
              code == old(code) + c.bytes && consts == c.consts
      decreases e, 1
    {
      hide Gen, GenOption, GenStmts, GenStmt, GenLiteral, Access, Valid, Plain, WithAddr, WithByte, Patched, Grows;
      hide Encode, JoinLogical;
      GenUnary(e, Here(), |code|, consts);
      CompileExpr(e.e);
      EmitPlain(if e.uop == Neg then Negate else LogicalNot);
    }

    method CompileStrict(e: Expr)
      requires e.Binary? && e.op !in {And, Or} && Valid() && Small(Gen(e, Here(), |code|, consts).consts)
      modifies this
      ensures Valid() && Here() == old(Here())
      ensures var c := old(Gen(e, Here(), |code|, consts));
              code == old(code) + c.bytes && consts == c.consts
      decreases e, 1
    {
      hide Gen, GenOption, GenStmts, GenStmt, GenLiteral, Access, Valid, Plain, WithAddr, WithByte, Patched, Grows;
      hide Encode, JoinLogical;
      GenStrict(e, Here(), |code|, consts);
      ghost var before, l := code, Gen(e.lhs, Here(), |code|, consts);
      CompileExpr(e.lhs);
      ghost var r := Gen(e.rhs, Here(), |code|, consts);
      CompileExpr(e.rhs);
      EmitPlain(Strict(e.op));
    }

    method CompileLogical(e: Expr)
      requires e.Binary? && e.op in {And, Or} && Valid() && Small(Gen(e, Here(), |code|, consts).consts)
      modifies this
      ensures Valid() && Here() == old(Here())
      ensures var c := old(Gen(e, Here(), |code|, consts));
              code == old(code) + c.bytes && consts == c.consts
      decreases e, 1
    {
      hide Gen, GenOption, GenStmts, GenStmt, GenLiteral, Access, Valid, Plain, WithAddr, WithByte, Patched, Grows;
      hide Encode, JoinLogical, JoinIf, JoinWhile;
      GenLogical(e, Here(), |code|, consts);
      Widths(Dup);
      Widths(Pop);
      Widths(LogicalJump(e.op));
      ghost var before, l := code, Gen(e.lhs, Here(), |code|, consts);
      CompileExpr(e.lhs);
      EmitPlain(Dup);
      var jump := EmitJump(LogicalJump(e.op));
      EmitPlain(Pop);
      ghost var r := Gen(e.rhs, Here(), |code|, consts);
      CompileExpr(e.rhs);
      LogicalPatched(before, e.op, l.bytes, r.bytes, |code|);
      PatchJump(jump);
    }

    method CompileIf(e: Expr)
      requires e.If? && Valid() && Small(Gen(e, Here(), |code|, consts).consts)
      modifies this
      ensures Valid() && Here() == old(Here())
      ensures var c := old(Gen(e, Here(), |code|, consts));
              code == old(code) + c.bytes && consts == c.consts
      decreases e, 1
    {
      hide Gen, GenOption, GenStmts, GenStmt, GenLiteral, Access, Valid, Plain, WithAddr, WithByte, Patched, Grows;
      hide Encode, JoinLogical, JoinIf, JoinWhile;
      GenIf(e, Here(), |code|, consts);
      ghost var before, c := code, Gen(e.cond, Here(), |code|, consts);
      CompileExpr(e.cond);
      var elseJump := EmitJump(JumpIfFalse);
      Widths(JumpIfFalse);
      ghost var t := Gen(e.thn, Here(), |code|, consts);
      CompileExpr(e.thn);
      var endJump := EmitJump(Jump);
      Widths(Jump);
      ghost var els := |code|;
      IfPatched(before, c.bytes, t.bytes, [], els, 0);
      PatchJump(elseJump);
      ghost var f := GenOption(e.els, Here(), |code|, consts);
      CompileOption(e.els);
      IfPatched(before, c.bytes, t.bytes, f.bytes, els, |code|);
      PatchJump(endJump);
    }

    /** An optional last part: nil stands for a missing one. */
    method CompileOption(e: Option<Expr>)
      requires Valid() && Small(GenOption(e, Here(), |code|, consts).consts)
      modifies this
      ensures Valid() && Here() == old(Here())
      ensures var c := old(GenOption(e, Here(), |code|, consts));
              code == old(code) + c.bytes && consts == c.consts
      decreases e, 3
    {
      hide Gen, Valid, Plain;
      match e
      case None => EmitPlain(PushNil);
      case Some(e1) => CompileExpr(e1);
    }

    method CompileAssign(e: Expr)
      requires e.Assign? && Valid() && Small(Gen(e, Here(), |code|, consts).consts)
      modifies this
      ensures Valid() && Here() == old(Here())
      ensures var c := old(Gen(e, Here(), |code|, consts));
              code == old(code) + c.bytes && consts == c.consts
      decreases e, 1
    {
      hide Gen, GenOption, GenStmts, GenStmt, GenLiteral, Access, Valid, Plain, WithAddr, WithByte, Patched, Grows;
      hide Encode, JoinLogical, JoinIf, JoinWhile;
      GenAssign(e, Here(), |code|, consts);
      CompileExpr(e.e);
      EmitAccess(AssignLocal, AssignGlobal, e.x);
      EmitPlain(PushNil);
    }

    method CompileCompound(e: Expr)
      requires e.Compound? && Valid() && Small(Gen(e, Here(), |code|, consts).consts)
      modifies this
      ensures Valid() && Here() == old(Here())
      ensures var c := old(Gen(e, Here(), |code|, consts));
              code == old(code) + c.bytes && consts == c.consts
      decreases e, 1
    {
      hide Gen, GenOption, GenStmts, GenStmt, GenLiteral, Access, Valid, Plain, WithAddr, WithByte, Patched, Grows;
      hide Encode, JoinLogical, JoinIf, JoinWhile;
      GenCompound(e, Here(), |code|, consts);
      EmitAccess(LoadLocal, LoadGlobal, e.x);
      CompileExpr(e.e);
      EmitPlain(Strict(e.op));
      EmitAccess(AssignLocal, AssignGlobal, e.x);
      EmitPlain(PushNil);
    }

    /** Emit a loop's header: the start is known, the break handler is not. */
    method StartLoop() returns (breakPatch: nat, loopStart: nat)
      modifies `code
      ensures loopStart == |code| == |old(code)| + 5 && breakPatch == |old(code)| + 3
      ensures code == old(code) + Encode(Instr(PushLoop, AsWord(loopStart), AsWord(0)))
    {
      hide Patched, Encode, WordBytes;
      LoopHeader(code, |code| + 5);
      EmitOp(PushLoop);
      var continuePatch := |code|;
      EmitU16(0);
      breakPatch := |code|;
      EmitU16(0);
      loopStart := |code|;
      PatchU16(continuePatch, loopStart);
    }

    /** Emit a loop's exits, and patch the jumps to them. */
    method FinishLoop(exitJump: nat, breakPatch: nat, ghost before: seq<byte>, ghost c: seq<byte>, ghost b: seq<byte>)
      requires exitJump == |before| + 5 + |c| + 1 && breakPatch == |before| + 3
      requires var head := before + Encode(Instr(PushLoop, AsWord(|before| + 5), AsWord(0)));
               code == head + c + WithAddr(JumpIfFalse, 0) + b + Plain(Pop) + WithAddr(Loop, |before| + 5)
      modifies `code
      ensures code == before + JoinWhile(c, b, |before| + 5, |old(code)|)
      ensures |old(code)| == |before| + |c| + |b| + 12
    {
      hide Around, WordBytes, Gen, GenOption, GenStmts, GenStmt, Valid, Plain, WithAddr, WithByte, Patched, Grows;
      hide Encode, JoinWhile;
      ghost var start, exit := |before| + 5, |code|;
      ghost var head := before + Encode(Instr(PushLoop, AsWord(start), AsWord(0)));
      ghost var body := Around(c, b, start, exit);
      ExitPatched(head, c, b, start, exit);
      PatchJump(exitJump);
      EmitPlain(PopLoop);
      EmitPlain(PushNil);
      Widths(PopLoop);
      Widths(PushNil);
      var overBreak := EmitJump(Jump);
      BreakPatched(before, body, start, exit + 5);
      PatchU16(breakPatch, |code|);
      EmitPlain(PopLoop);
      WhilePatched(before, c, b, start, exit);
      PatchJump(overBreak);
    }

    method CompileWhile(e: Expr)
      requires e.While? && Valid() && Small(Gen(e, Here(), |code|, consts).consts)
      modifies this
      ensures Valid() && Here() == old(Here())
      ensures var c := old(Gen(e, Here(), |code|, consts));
              code == old(code) + c.bytes && consts == c.consts
      decreases e, 1
    {
      hide Around, WordBytes, Gen, GenOption, GenStmts, GenStmt, Valid, Plain, WithAddr, WithByte, Patched, Grows;
      hide Encode, JoinWhile;
      GenWhile(e, Here(), |code|, consts);
      ghost var before := code;
      var breakPatch, loopStart := StartLoop();
      ghost var c := Gen(e.cond, Here(), |code|, consts);
      CompileExpr(e.cond);
      var exitJump := EmitJump(JumpIfFalse);
      Widths(JumpIfFalse);
      ghost var b := Gen(e.body, Here(), |code|, consts);
      CompileExpr(e.body);
      EmitPlain(Pop);
      EmitLoop(loopStart);
      FinishLoop(exitJump, breakPatch, before, c.bytes, b.bytes);
    }

    method CompileStmt(s: Stmt)
      requires Valid() && Small(GenStmt(s, Here(), |code|, consts).0.consts)
      modifies this
      ensures Valid() && Here() == old(GenStmt(s, Here(), |code|, consts).1)
      ensures var c := old(GenStmt(s, Here(), |code|, consts).0);
              code == old(code) + c.bytes && consts == c.consts
      decreases s, 4
    {
      hide Gen, Access, Plain, WithByte, Patched, Encode;
      CompileExpr(s.e);
      match s
      case Let(x, _) =>
        if scopeDepth == 0 {
          var i := EmitConst(Str(x));
          EmitWithByte(DefineGlobal, i);
        } else {
          var slot := DeclareLocal(x);
          EmitWithByte(StoreLocal, slot);
        }
      case ExprStmt(_) => EmitPlain(Pop);
    }

    method CompileStmts(stmts: seq<Stmt>)
      requires Valid() && Small(GenStmts(stmts, Here(), |code|, consts).0.consts)
      modifies this
      ensures Valid() && Here() == old(GenStmts(stmts, Here(), |code|, consts).1)
      ensures var c := old(GenStmts(stmts, Here(), |code|, consts).0);
              code == old(code) + c.bytes && consts == c.consts
      decreases stmts, 5
    {
      hide GenStmt, Valid, Grows;
      ghost var all := GenStmts(stmts, Here(), |code|, consts);
      var i := 0;
      while i < |stmts|
        invariant i <= |stmts| && Valid()
        invariant var rest := GenStmts(stmts[i..], Here(), |code|, consts);
                  && all.0.consts == rest.0.consts && all.1 == rest.1
                  && old(code) + all.0.bytes == code + rest.0.bytes
      {
        GenStmtsStep(stmts[i..], Here(), |code|, consts);
        assert stmts[i..][0] == stmts[i] && stmts[i..][1..] == stmts[i + 1..];
        CompileStmt(stmts[i]);
        i := i + 1;
      }
    }

    method CompileBlock(e: Expr)
      requires e.Block? && Valid() && Small(Gen(e, Here(), |code|, consts).consts)
      modifies this
      ensures Valid() && Here() == old(Here())
      ensures var c := old(Gen(e, Here(), |code|, consts));
              code == old(code) + c.bytes && consts == c.consts
      decreases e, 1
    {
      hide Gen, GenOption, GenStmts, GenStmt, GenLiteral, Access, Plain, WithByte, Patched, Encode;
      GenBlock(e, Here(), |code|, consts);
      BeginScope();
      CompileStmts(e.stmts);
      CompileOption(e.tail);
      BlockScope(old(locals), locals, scopeDepth);
      var n := EndScope();
      if n > 0 {
        EmitWithByte(PopLocalKeep, n);
      }
    }

    // ----- match -----

    /** The index of a new pattern in the pool. The source panics on a 257th. */
    method EmitPattern(p: Patterns.Pattern) returns (i: nat)
      modifies `consts
      ensures i == |old(consts).patterns| && consts == AddPattern(old(consts), p)
    {
      i := |consts.patterns|;
      consts := consts.(patterns := consts.patterns + [p]);
    }

    method DeclareBindings(names: seq<string>)
      modifies `locals
      ensures locals == old(locals) + Bound(names, scopeDepth)
    {
      for i := 0 to |names|
        invariant locals == old(locals) + Bound(names, scopeDepth)[..i]
      {
        var _ := DeclareLocal(names[i]);
      }
    }

    method PopLocals(n: nat)
      requires n <= |locals|
      modifies `locals
      ensures locals == old(locals)[..|old(locals)| - n]
    {
      for i := 0 to n
        invariant locals == old(locals)[..|old(locals)| - i]
      {
        locals := locals[..|locals| - 1];
      }
    }

    /** An arm: what is matched is in `slot`. The jump to the end stays blank. */
    method CompileArm(arm: Arm, slot: nat) returns (endJump: nat)
      requires Valid() && Small(GenArm(arm, Here(), |code|, consts).1)
      modifies this
      ensures Valid() && Here() == old(Here())
      ensures var a := old(GenArm(arm, Here(), |code|, consts));
              && code == old(code) + JoinArm(slot, a.0, |old(code)|, 0) && consts == a.1
              && endJump == |old(code)| + EndOffset(a.0)
      decreases arm, 4
    {
      hide Gen, GenArm, Valid, Plain, WithAddr, WithByte, Patched, Encode, JoinArm, JoinGuarded, ArmWidth, ArmHead,
           EndOffset, Patterns.Names;
      GenArmParts(arm, Here(), |code|, consts);
      ghost var before, a := code, GenArm(arm, Here(), |code|, consts).0;
      var failJump := CompileTest(arm, slot, a);
      if arm.guard.Some? {
        endJump := CompileGuarded(arm, slot, before, a, failJump);
      } else {
        endJump := CompileBare(arm, slot, before, a, failJump);
      }
      PopLocals(|Patterns.Names(arm.pattern)|);
      PoppedValid(old(locals), Bound(Patterns.Names(arm.pattern), scopeDepth), scopeDepth);
      ValidIs();
    }

    /** Test what is matched, and declare what the pattern binds. */
    method CompileTest(arm: Arm, slot: nat, ghost a: ArmCode) returns (failJump: nat)
      requires Valid() && a.test == |consts.patterns|
      modifies this
      ensures Valid() && Here() == ArmScope(old(Here()), arm.pattern)
      ensures consts == AddPattern(old(consts), arm.pattern) && failJump == |old(code)| + 5
      ensures code == old(code) + ArmHead(slot, a) + WithAddr(JumpIfFalse, 0)
      ensures |code| == |old(code)| + 7 && |WithAddr(JumpIfFalse, 0)| == 3
      ensures locals == old(locals) + Bound(Patterns.Names(arm.pattern), scopeDepth) && scopeDepth == old(scopeDepth)
      ensures |Bound(Patterns.Names(arm.pattern), scopeDepth)| == |Patterns.Names(arm.pattern)|
    {
      ValidIs();
      BoundValid(locals, Patterns.Names(arm.pattern), scopeDepth);
      hide Valid, WithAddr, WithByte, Bound, ArmHead, Patterns.Names;
      ghost var before := code;
      EmitWithByte(LoadLocal, slot);
      var test := EmitPattern(arm.pattern);
      EmitWithByte(OpCode.Match, test);
      failJump := EmitJump(JumpIfFalse);
      ArmStarts(before, slot, a);
      DeclareBindings(Patterns.Names(arm.pattern));
      ValidIs();
    }

    lemma ValidIs()
      ensures Valid() == forall k :: 0 <= k < |locals| ==> locals[k].depth <= scopeDepth
    {
    }

    /** The body of an arm without a guard, and the jumps around it. */
    method CompileBare(arm: Arm, slot: nat, ghost before: seq<byte>, ghost a: ArmCode, failJump: nat)
      returns (endJump: nat)
      requires arm.guard.None? && Valid() && a.guard.None? && failJump == |before| + 5
      requires code == before + ArmHead(slot, a) + WithAddr(JumpIfFalse, 0) && |WithAddr(JumpIfFalse, 0)| == 3
      requires a.names == |Patterns.Names(arm.pattern)|
      requires var b := Gen(arm.body, Here(), After(|before|, [], 7), consts);
               a.body == b.bytes && Small(b.consts)
      modifies this
      ensures Valid() && Here() == old(Here())
      ensures code == before + JoinArm(slot, a, |before|, 0) && endJump == |before| + EndOffset(a)
      ensures consts == old(Gen(arm.body, Here(), After(|before|, [], 7), consts)).consts
      decreases arm, 3
    {
      hide Gen, Valid, Plain, WithAddr, WithByte, Patched, Encode, JoinArm, JoinGuarded, ArmWidth, ArmHead, ArmTail;
      ghost var head := code;
      CompileExpr(arm.body);
      EmitWithByte(PopLocalKeep, |Patterns.Names(arm.pattern)|);
      endJump := EmitJump(Jump);
      BareArmPatched(before, slot, a, 0);
      ArmTailIs(head, a, 0);
      EndOffsetIs(a);
      PatchJump(failJump);
    }

    /** The guard, the body, and the jumps of an arm that has both. */
    method CompileGuarded(arm: Arm, slot: nat, ghost before: seq<byte>, ghost a: ArmCode, failJump: nat)
      returns (endJump: nat)
      requires arm.guard.Some? && Valid() && a.guard.Some? && failJump == |before| + 5
      requires code == before + ArmHead(slot, a) + WithAddr(JumpIfFalse, 0) && |WithAddr(JumpIfFalse, 0)| == 3
      requires a.names == |Patterns.Names(arm.pattern)|
      requires var g := Gen(arm.guard.value, Here(), After(|before|, [], 7), consts);
               var b := Gen(arm.body, Here(), After(|before|, g.bytes, 10), g.consts);
               a.guard.value == g.bytes && a.body == b.bytes && Small(b.consts) && Extends(g.consts, b.consts)
      modifies this
      ensures Valid() && Here() == old(Here())
      ensures code == before + JoinArm(slot, a, |before|, 0) && endJump == |before| + EndOffset(a)
      ensures var g := old(Gen(arm.guard.value, Here(), After(|before|, [], 7), consts));
              consts == old(Gen(arm.body, Here(), After(|before|, g.bytes, 10), g.consts)).consts
      decreases arm, 3
    {
      hide Gen, GenArm, Valid, Plain, WithAddr, WithByte, Patched, Encode, JoinArm, JoinGuarded, ArmWidth, ArmHead;
      hide ArmTail;
      CompileExpr(arm.guard.value);
      ghost var head := code;
      var guardJump := EmitJump(JumpIfFalse);
      CompileExpr(arm.body);
      EmitWithByte(PopLocalKeep, |Patterns.Names(arm.pattern)|);
      endJump := EmitJump(Jump);
      GuardedArmPatched(before, slot, a, 0);
      ArmTailIs(head + WithAddr(JumpIfFalse, 0), a, 0);
      EndOffsetIs(a);
      PatchJump(guardJump);
      EmitWithByte(PopN, |Patterns.Names(arm.pattern)|);
      PatchJump(failJump);
    }

    /** All arms, with their jumps to the end blank. */
    method CompileArms(arms: seq<Arm>, slot: nat) returns (endJumps: seq<nat>)
      requires Valid() && Small(GenArms(arms, Here(), |code|, consts).1)
      modifies this
      ensures Valid() && Here() == old(Here())
      ensures var a := old(GenArms(arms, Here(), |code|, consts));
              && code == old(code) + JoinArms(slot, a.0, |old(code)|, 0) && consts == a.1
              && |endJumps| == |a.0|
              && forall k :: 0 <= k < |endJumps| ==> endJumps[k] == EndAt(a.0, |old(code)|, k)
      decreases arms, 5
    {
      hide GenArm, GenArms, Valid, JoinArms, JoinArm, ArmsWidth, ArmWidth, EndOffset, EndAt, Small;
      NothingYet(arms, Here(), |code|, consts, slot);
      ghost var all, pc, sc := GenArms(arms, Here(), |code|, consts), |code|, Here();
      ghost var done: seq<ArmCode> := [];
      endJumps := [];
      for i := 0 to |arms|
        invariant Valid() && Here() == sc && |endJumps| == |done|
        invariant |code| == pc + ArmsWidth(done) && code == old(code) + JoinArms(slot, done, pc, 0)
        invariant var rest := GenArms(arms[i..], sc, |code|, consts);
                  all.0 == done + rest.0 && all.1 == rest.1 && Extends(consts, all.1)
        invariant forall k :: 0 <= k < |endJumps| ==> endJumps[k] == EndAt(done, pc, k)
      {
        GenArmsStep(arms[i..], sc, |code|, consts);
        assert arms[i..][0] == arms[i] && arms[i..][1..] == arms[i + 1..];
        ghost var a := GenArm(arms[i], sc, |code|, consts);
        ArmsAppend(slot, done, a.0, pc, 0);
        EndsAppend(done, a.0, pc);
        SmallBefore(a.1, all.1);
        var endJump := CompileArm(arms[i], slot);
        endJumps := endJumps + [endJump];
        OneMoreArm(done, a.0, GenArms(arms[i + 1..], sc, |code|, consts).0);
        done := done + [a.0];
      }
      NothingLeft(arms, sc, |code|, consts, done);
    }

    /** Let every arm's last jump lead here. */
    method PatchEnds(endJumps: seq<nat>, ghost before: seq<byte>, slot: nat, ghost arms: seq<ArmCode>,
                     ghost rest: seq<byte>)
      requires code == before + JoinArms(slot, arms, |before|, 0) + rest && |endJumps| == |arms|
      requires forall k :: 0 <= k < |endJumps| ==> endJumps[k] == EndAt(arms, |before|, k)
      modifies `code
      ensures code == before + JoinArms(slot, arms, |before|, |old(code)|) + rest && |code| == |old(code)|
    {
      hide JoinArms, JoinArm, ArmWidth, Patched;
      ghost var end := |code|;
      NoneMixed(slot, arms, |before|, end);
      for i := 0 to |endJumps|
        invariant code == before + Mixed(slot, arms, |before|, i, end) + rest && |code| == end
      {
        EndPatched(before, slot, arms, |before|, i, rest, end);
        PatchJump(endJumps[i]);
      }
      AllMixed(slot, arms, |before|, |arms|, end);
    }

    method CompileMatch(e: Expr)
      requires e.Match? && Valid() && Small(Gen(e, Here(), |code|, consts).consts)
      modifies this
      ensures Valid() && Here() == old(Here())
      ensures var c := old(Gen(e, Here(), |code|, consts));
              code == old(code) + c.bytes && consts == c.consts
      decreases e, 1
    {
      hide Gen, GenArms, Valid, Plain, WithAddr, WithByte, Encode, JoinArms, ArmsWidth, JoinMatch;
      ValidIs();
      GenMatch(e, Here(), |code|, consts);
      ghost var before, pc, c := code, |code|, Gen(e.scrutinee, Here(), |code|, consts);
      ghost var a := GenArms(e.arms, WithScrutinee(Here()), After(pc, c.bytes, 2), c.consts);
      MatchSmall(e.arms, WithScrutinee(Here()), After(pc, c.bytes, 2), c.consts);
      CompileExpr(e.scrutinee);
      ValidIs();
      var slot := DeclareLocal(SCRUTINEE);
      ScrutineeValid(old(locals), scopeDepth);
      ValidIs();
      EmitWithByte(StoreLocal, slot);
      ByteOpWidth(StoreLocal, slot);
      ghost var armsStart := code;
      var endJumps := CompileArms(e.arms, slot);
      EmitPlain(PushNil);
      Widths(PushNil);
      PatchEnds(endJumps, armsStart, slot, a.0, Plain(PushNil));
      EmitWithByte(PopLocalKeep, 1);
      PopLocals(1);
      ValidIs();
      MatchEmitted(before, c.bytes, slot, a.0);
    }

    method CompileExpr(e: Expr)
      requires Valid() && Small(Gen(e, Here(), |code|, consts).consts)
      modifies this
      ensures Valid() && Here() == old(Here())
      ensures var c := old(Gen(e, Here(), |code|, consts));
              code == old(code) + c.bytes && consts == c.consts
      decreases e, 2
    {
      hide Gen, GenLiteral, Access, Valid, Small, GenOption, GenStmts;
      GenLeaf(e, Here(), |code|, consts);
      match e
      case Literal(v) => EmitLiteral(v);
      case Ident(x) => EmitAccess(LoadLocal, LoadGlobal, x);
      case Unary(_, _) => CompileUnary(e);
      case Binary(op, _, _) =>
        if op in {And, Or} {
          CompileLogical(e);
        } else {
          CompileStrict(e);
        }
      case If(_, _, _) => CompileIf(e);
      case Block(_, _) => CompileBlock(e);
      case Paren(e1) => CompileExpr(e1);
      case Assign(_, _) => CompileAssign(e);
      case Compound(_, _, _) => CompileCompound(e);
      case While(_, _) => CompileWhile(e);
      case Match(_, _) => CompileMatch(e);
    }

    /** Compile a whole script into an empty buffer. */
    method CompileProgram(stmts: seq<Stmt>, result: Option<Expr>)
      requires Valid() && code == [] && consts == EMPTY && Here() == Scope([], 0)
      requires Small(GenProgram(stmts, result).consts)
      modifies this
      ensures code == GenProgram(stmts, result).bytes && consts == GenProgram(stmts, result).consts
    {
      hide GenStmts, GenOption, Plain, Valid;
      CompileStmts(stmts);
      CompileOption(result);
      EmitPlain(ReturnTop);
    }
  }
}
