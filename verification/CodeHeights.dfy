/**
 The stack heights of compiled code: wherever the compiler's count of locals
 and temporaries says what lies on the stack, it is what the machine finds,
 on every path.
 */
module CodeHeights {
  import opened Values
  import opened Bytecode
  import Machine
  import opened ScopeChains
  import opened TreeWalker
  import opened CodeGen
  import opened Unfoldings
  import opened CompilerCorrectness
  import opened MatchCorrectness
  import opened CompilerTheorem
  import CompiledScripts
  import opened CodeShape
  import Patterns

  /** Code that finds what it needs at every step. */
  ghost predicate Sized(pl: Place, hs: Heights, a: nat, ha: nat, b: nat, hb: nat, exits: Heights) {
    Part(pl.chunk.code, pl.chunk.consts, hs, a, ha, b, hb, exits, true)
  }

  /** The locals and the temporaries above them make up the height `h`; if `clear`, there are no temporaries. */
  predicate Roomy(sc: Scope, h: nat, clear: bool) {
    |sc.locals| <= 255 && h >= |sc.locals| && (clear ==> h == |sc.locals|)
  }

  // ----- instructions -----

  predicate Straight(op: OpCode) {
    !op.Match? && op !in {ReturnTop, Jump, Loop, JumpIfFalse, JumpIfTrue, PushLoop}
  }

  lemma StraightSized(pl: Place, a: nat, i: Instr, h: nat, next: nat, exits: Heights) returns (hs: Heights)
    requires WellFormed(i) && At(pl.chunk.code, a, Encode(i)) && Fits(i, h, pl.chunk.consts)
    requires Straight(i.op) && HeightAfter(i, h) == next
    ensures Sized(pl, hs, a, h, a + 1 + OperandBytes(i.op), next, exits)
  {
    hide At, Encode, Part, WellFormed, Within;
    hs := PartInstr(pl.chunk.code, pl.chunk.consts, a, i, h, next, exits, true);
  }

  lemma PlainSized(pl: Place, a: nat, op: OpCode, h: nat, next: nat, exits: Heights) returns (hs: Heights)
    requires HasOpcode(op) && OperandBytes(op) == 0 && op != ReturnTop && At(pl.chunk.code, a, Plain(op))
    requires var i := Instr(op, 0, 0); Fits(i, h, pl.chunk.consts) && HeightAfter(i, h) == next
    ensures Sized(pl, hs, a, h, a + 1, next, exits)
  {
    hide Sized, At;
    hs := StraightSized(pl, a, Instr(op, 0, 0), h, next, exits);
  }

  lemma ByteSized(pl: Place, a: nat, op: OpCode, n: nat, h: nat, next: nat, exits: Heights) returns (hs: Heights)
    requires OperandBytes(op) == 1 && !op.Match? && n < 256 && At(pl.chunk.code, a, WithByte(op, n))
    requires var i := Instr(op, n, 0); Fits(i, h, pl.chunk.consts) && HeightAfter(i, h) == next
    ensures Sized(pl, hs, a, h, a + 2, next, exits)
  {
    hide Sized, At;
    hs := StraightSized(pl, a, Instr(op, n, 0), h, next, exits);
  }

  /** A conditional jump out of the code at hand. */
  lemma BranchSized(pl: Place, a: nat, op: OpCode, addr: nat, h: nat, exits: Heights) returns (hs: Heights)
    requires op in {JumpIfFalse, JumpIfTrue} && addr < 65536 && At(pl.chunk.code, a, WithAddr(op, addr))
    requires h >= 1 && Leads(exits, addr, h - 1)
    ensures Sized(pl, hs, a, h, a + 3, h - 1, exits)
  {
    hide At, Part;
    hs := PartInstr(pl.chunk.code, pl.chunk.consts, a, Instr(op, addr, 0), h, h - 1, exits, true);
  }

  /** A jump: what follows it is reached from elsewhere, at any height. */
  lemma JumpSized(pl: Place, a: nat, op: OpCode, addr: nat, h: nat, next: nat, exits: Heights) returns (hs: Heights)
    requires op in {Jump, Loop} && addr < 65536 && At(pl.chunk.code, a, WithAddr(op, addr)) && Leads(exits, addr, h)
    ensures Sized(pl, hs, a, h, a + 3, next, exits)
  {
    hide At, Part;
    hs := PartInstr(pl.chunk.code, pl.chunk.consts, a, Instr(op, addr, 0), h, next, exits, true);
  }

  lemma PushLoopSized(pl: Place, a: nat, start: nat, brk: nat, h: nat, exits: Heights) returns (hs: Heights)
    requires start == a + 5 && brk < 65536 && start < 65536 && At(pl.chunk.code, a, Encode(Instr(PushLoop, start, brk)))
    requires Leads(exits, brk, h + 1)
    ensures Sized(pl, hs, a, h, start, h, exits)
  {
    hide At, Part;
    hs := PartInstr(pl.chunk.code, pl.chunk.consts, a, Instr(PushLoop, start, brk), h, h, exits, true);
  }

  lemma NoneSized(pl: Place, a: nat, h: nat, exits: Heights) returns (hs: Heights)
    ensures Sized(pl, hs, a, h, a, h, exits) && hs == map[a := h]
  {
    hs := map[a := h];
    PartNone(pl.chunk.code, pl.chunk.consts, a, h, exits, true);
  }

  // ----- one after the other -----

  lemma Chain(pl: Place, hs1: Heights, hs2: Heights, a: nat, ha: nat, b: nat, hb: nat, c: nat, hc: nat, exits: Heights)
    returns (hs: Heights)
    requires Sized(pl, hs1, a, ha, b, hb, exits) && Sized(pl, hs2, b, hb, c, hc, exits)
    ensures Sized(pl, hs, a, ha, c, hc, exits) && Within(hs1, hs) && Within(hs2, hs)
  {
    hide Part, Within;
    PartJoin(pl.chunk.code, pl.chunk.consts, hs1, hs2, a, ha, b, hb, c, hc, exits, true);
    hs := hs1 + hs2;
  }

  lemma Among(pl: Place, hs: Heights, a: nat, ha: nat, b: nat, hb: nat, exits: Heights)
    requires Sized(pl, hs, a, ha, b, hb, map[])
    ensures Sized(pl, hs, a, ha, b, hb, exits)
  {
    hide Part;
    PartWeakens(pl.chunk.code, pl.chunk.consts, hs, a, ha, b, hb, map[], exits, true, true);
  }

  lemma Closes(pl: Place, hs: Heights, a: nat, ha: nat, b: nat, hb: nat, exits: Heights, far: Heights)
    requires Sized(pl, hs, a, ha, b, hb, exits) && Known(exits, hs, far)
    ensures Sized(pl, hs, a, ha, b, hb, far)
  {
    PartCloses(pl.chunk.code, pl.chunk.consts, hs, a, ha, b, hb, exits, far, true);
    hide Part;
  }

  lemma Ends(pl: Place, hs: Heights, a: nat, ha: nat, b: nat, hb: nat, exits: Heights)
    requires Sized(pl, hs, a, ha, b, hb, exits)
    ensures Leads(hs, a, ha) && Leads(hs, b, hb) && a <= b && Linear(pl.chunk.code, a, b)
  {
    PartMeans(pl.chunk.code, pl.chunk.consts, hs, a, ha, b, hb, exits, true);
  }

  // ----- leaves -----

  lemma LiteralSized(pl: Place, v: Value, pc: nat, consts: Pool, h: nat) returns (hs: Heights)
    requires Loaded(pl, pc, GenLiteral(v, consts))
    ensures Sized(pl, hs, pc, h, After(pc, GenLiteral(v, consts).bytes, 0), h + 1, map[])
  {
    hide Sized, At;
    match v
    case Nil => hs := PlainSized(pl, pc, PushNil, h, h + 1, map[]);
    case Bool(b) => hs := PlainSized(pl, pc, if b then PushTrue else PushFalse, h, h + 1, map[]);
    case _ => hs := ByteSized(pl, pc, Const, ConstIndex(consts, v), h, h + 1, map[]);
  }

  lemma LoadSized(pl: Place, x: string, sc: Scope, pc: nat, consts: Pool, h: nat, clear: bool) returns (hs: Heights)
    requires Loaded(pl, pc, Load(sc, x, consts)) && Roomy(sc, h, clear)
    ensures Sized(pl, hs, pc, h, After(pc, Load(sc, x, consts).bytes, 0), h + 1, map[])
  {
    hide Sized, At;
    match Resolve(sc.locals, sc.depth, x)
    case Some(slot) => hs := ByteSized(pl, pc, LoadLocal, slot, h, h + 1, map[]);
    case None =>
      assert pl.chunk.consts.values[ConstIndex(consts, Str(x))] == Str(x);
      hs := ByteSized(pl, pc, LoadGlobal, ConstIndex(consts, Str(x)), h, h + 1, map[]);
  }

  /** A store and the nil an assignment evaluates to. */
  lemma StoreSized(pl: Place, x: string, sc: Scope, pc: nat, consts: Pool, h: nat, clear: bool) returns (hs: Heights)
    requires Loaded(pl, pc, Code(Store(sc, x, consts).bytes + Plain(PushNil), Store(sc, x, consts).consts))
    requires Roomy(sc, h, clear)
    ensures Sized(pl, hs, pc, h + 1, pc + 3, h + 1, map[])
  {
    hide *;
    StoreParts(pl, x, sc, pc, consts);
    var first := StoredSized(pl, x, sc, pc, consts, h, clear);
    var second := NilSized(pl, pc + 2, h);
    hs := Chain(pl, first, second, pc, h + 1, pc + 2, h, pc + 3, h + 1, map[]);
  }

  lemma StoreParts(pl: Place, x: string, sc: Scope, pc: nat, consts: Pool)
    requires Loaded(pl, pc, Code(Store(sc, x, consts).bytes + Plain(PushNil), Store(sc, x, consts).consts))
    ensures Loaded(pl, pc, Store(sc, x, consts)) && At(pl.chunk.code, pc + 2, Plain(PushNil))
  {
    AccessWidth(sc, x, pc, consts, consts);
    AtConcat(pl.chunk.code, pc, Store(sc, x, consts).bytes, Plain(PushNil));
    hide At, Store;
  }

  lemma StoredSized(pl: Place, x: string, sc: Scope, pc: nat, consts: Pool, h: nat, clear: bool) returns (hs: Heights)
    requires Loaded(pl, pc, Store(sc, x, consts)) && Roomy(sc, h, clear)
    ensures Sized(pl, hs, pc, h + 1, pc + 2, h, map[])
  {
    hide Sized, At;
    match Resolve(sc.locals, sc.depth, x)
    case Some(slot) => hs := ByteSized(pl, pc, AssignLocal, slot, h + 1, h, map[]);
    case None =>
      assert pl.chunk.consts.values[ConstIndex(consts, Str(x))] == Str(x);
      hs := ByteSized(pl, pc, AssignGlobal, ConstIndex(consts, Str(x)), h + 1, h, map[]);
  }

  lemma NilSized(pl: Place, pc: nat, h: nat) returns (hs: Heights)
    requires At(pl.chunk.code, pc, Plain(PushNil))
    ensures Sized(pl, hs, pc, h, pc + 1, h + 1, map[])
  {
    hide Sized, At;
    hs := PlainSized(pl, pc, PushNil, h, h + 1, map[]);
  }

  // ----- layouts -----

  /** A copy of the left operand is tested, and the operand dropped if it does not decide. */
  lemma DecideSized(pl: Place, op: BinOp, pc1: nat, end: nat, h: nat, exits: Heights) returns (hs: Heights)
    requires op in {And, Or} && end < 65536 && Leads(exits, end, h + 1)
    requires At(pl.chunk.code, pc1, Plain(Dup)) && At(pl.chunk.code, pc1 + 1, WithAddr(LogicalJump(op), end))
    requires At(pl.chunk.code, pc1 + 4, Plain(Pop))
    ensures Sized(pl, hs, pc1, h + 1, pc1 + 5, h, exits)
  {
    hide Part, Sized, At, Within;
    var s1 := PlainSized(pl, pc1, Dup, h + 1, h + 2, exits);
    var s2 := BranchSized(pl, pc1 + 1, LogicalJump(op), end, h + 2, exits);
    var s3 := PlainSized(pl, pc1 + 4, Pop, h + 1, h, exits);
    hs := Chain(pl, s1, s2, pc1, h + 1, pc1 + 1, h + 2, pc1 + 4, h + 1, exits);
    hs := Chain(pl, hs, s3, pc1, h + 1, pc1 + 4, h + 1, pc1 + 5, h, exits);
  }

  lemma LogicalSized(pl: Place, op: BinOp, l: Heights, r: Heights, pc: nat, pc1: nat, end: nat, h: nat)
    returns (hs: Heights)
    requires op in {And, Or} && end < 65536
    requires Sized(pl, l, pc, h, pc1, h + 1, map[]) && Sized(pl, r, pc1 + 5, h, end, h + 1, map[])
    requires At(pl.chunk.code, pc1, Plain(Dup)) && At(pl.chunk.code, pc1 + 1, WithAddr(LogicalJump(op), end))
    requires At(pl.chunk.code, pc1 + 4, Plain(Pop))
    ensures Sized(pl, hs, pc, h, end, h + 1, map[])
  {
    hide *;
    Ends(pl, r, pc1 + 5, h, end, h + 1, map[]);
    var exits := OneExit(r, end, h + 1);
    Among(pl, l, pc, h, pc1, h + 1, exits);
    Among(pl, r, pc1 + 5, h, end, h + 1, exits);
    var s := DecideSized(pl, op, pc1, end, h, exits);
    hs := Chain(pl, l, s, pc, h, pc1, h + 1, pc1 + 5, h, exits);
    hs := Chain(pl, hs, r, pc, h, pc1 + 5, h, end, h + 1, exits);
    KnownWithin(exits, r, hs);
    Closes(pl, hs, pc, h, end, h + 1, exits, map[]);
  }

  lemma OneExit(hs: Heights, y: nat, h: nat) returns (exits: Heights)
    requires Leads(hs, y, h)
    ensures exits == map[y := h] && Leads(exits, y, h) && Within(exits, hs)
  {
    exits := map[y := h];
  }

  lemma KnownWithin(exits: Heights, part: Heights, hs: Heights)
    requires Within(exits, part) && Within(part, hs)
    ensures Known(exits, hs, map[])
  {
  }

  /** Where the parts of an `if` lead. */
  function IfExits(els: nat, end: nat, h: nat): Heights {
    map[els := h, end := h + 1]
  }

  lemma IfExitsAre(els: nat, end: nat, h: nat)
    requires els != end
    ensures Leads(IfExits(els, end, h), els, h) && Leads(IfExits(els, end, h), end, h + 1)
  {
  }

  lemma IfExitsKnown(hs: Heights, els: nat, end: nat, h: nat)
    requires Leads(hs, els, h) && Leads(hs, end, h + 1)
    ensures Known(IfExits(els, end, h), hs, map[])
  {
  }

  lemma Apart(hs: Heights, x: nat, h: nat, y: nat)
    requires Leads(hs, x, h) && Leads(hs, y, h + 1)
    ensures x != y
  {
  }

  lemma IfSized(pl: Place, c: Heights, t: Heights, f: Heights, pc: nat, pc1: nat, pc2: nat, end: nat, h: nat)
    returns (hs: Heights)
    requires pc2 + 3 < 65536 && end < 65536
    requires Sized(pl, c, pc, h, pc1, h + 1, map[]) && Sized(pl, t, pc1 + 3, h, pc2, h + 1, map[])
    requires Sized(pl, f, pc2 + 3, h, end, h + 1, map[])
    requires At(pl.chunk.code, pc1, WithAddr(JumpIfFalse, pc2 + 3)) && At(pl.chunk.code, pc2, WithAddr(Jump, end))
    ensures Sized(pl, hs, pc, h, end, h + 1, map[])
  {
    hide *;
    var els := pc2 + 3;
    Ends(pl, f, els, h, end, h + 1, map[]);
    Apart(f, els, h, end);
    var exits := IfExits(els, end, h);
    IfExitsAre(els, end, h);
    Among(pl, c, pc, h, pc1, h + 1, exits);
    Among(pl, t, pc1 + 3, h, pc2, h + 1, exits);
    Among(pl, f, els, h, end, h + 1, exits);
    var s1 := BranchSized(pl, pc1, JumpIfFalse, els, h + 1, exits);
    var s2 := JumpSized(pl, pc2, Jump, end, h + 1, h, exits);
    hs := Chain(pl, c, s1, pc, h, pc1, h + 1, pc1 + 3, h, exits);
    hs := Chain(pl, hs, t, pc, h, pc1 + 3, h, pc2, h + 1, exits);
    hs := Chain(pl, hs, s2, pc, h, pc2, h + 1, els, h, exits);
    hs := Chain(pl, hs, f, pc, h, els, h, end, h + 1, exits);
    LeadsWithin(f, hs, els, h);
    LeadsWithin(f, hs, end, h + 1);
    IfExitsKnown(hs, els, end, h);
    Closes(pl, hs, pc, h, end, h + 1, exits, map[]);
  }

  /** The body of a loop, from its condition to the jump back. */
  lemma TurnSized(pl: Place, c: Heights, b: Heights, start: nat, pc1: nat, pc2: nat, h: nat, exits: Heights)
    returns (hs: Heights)
    requires start < 65536 && pc2 + 4 < 65536
    requires Sized(pl, c, start, h, pc1, h + 1, map[]) && Sized(pl, b, pc1 + 3, h, pc2, h + 1, map[])
    requires At(pl.chunk.code, pc1, WithAddr(JumpIfFalse, pc2 + 4)) && At(pl.chunk.code, pc2, Plain(Pop))
    requires At(pl.chunk.code, pc2 + 1, WithAddr(Loop, start))
    requires Leads(exits, start, h) && Leads(exits, pc2 + 4, h)
    ensures Sized(pl, hs, start, h, pc2 + 4, h, exits)
  {
    hide Sized, At, Within;
    NothingIn(exits);
    Among(pl, c, start, h, pc1, h + 1, exits);
    Among(pl, b, pc1 + 3, h, pc2, h + 1, exits);
    var s1 := BranchSized(pl, pc1, JumpIfFalse, pc2 + 4, h + 1, exits);
    var s2 := PlainSized(pl, pc2, Pop, h + 1, h, exits);
    var s3 := JumpSized(pl, pc2 + 1, Loop, start, h, h, exits);
    hs := Chain(pl, c, s1, start, h, pc1, h + 1, pc1 + 3, h, exits);
    hs := Chain(pl, hs, b, start, h, pc1 + 3, h, pc2, h + 1, exits);
    hs := Chain(pl, hs, s2, start, h, pc2, h + 1, pc2 + 1, h, exits);
    hs := Chain(pl, hs, s3, start, h, pc2 + 1, h, pc2 + 4, h, exits);
  }

  lemma NothingIn(exits: Heights)
    ensures Within(map[], exits)
  {
  }

  /** The way out of a loop; the handler of `break` is reached with a value. */
  lemma ExitSized(pl: Place, exit: nat, h: nat, exits: Heights) returns (hs: Heights)
    requires exit + 6 < 65536 && At(pl.chunk.code, exit, LoopExit(exit)) && Leads(exits, exit + 6, h + 1)
    requires At(pl.chunk.code, exit + 5, Plain(PopLoop))
    ensures Sized(pl, hs, exit, h, exit + 6, h + 1, exits) && Leads(hs, exit + 5, h + 1)
  {
    hide Sized, At, Within;
    LoopExitParts(pl.chunk.code, exit);
    var s1 := PlainSized(pl, exit, PopLoop, h, h, exits);
    var s2 := PlainSized(pl, exit + 1, PushNil, h, h + 1, exits);
    var s3 := JumpSized(pl, exit + 2, Jump, exit + 6, h + 1, h + 1, exits);
    var s4 := PlainSized(pl, exit + 5, PopLoop, h + 1, h + 1, exits);
    hs := Chain(pl, s1, s2, exit, h, exit + 1, h, exit + 2, h + 1, exits);
    hs := Chain(pl, hs, s3, exit, h, exit + 2, h + 1, exit + 5, h + 1, exits);
    Ends(pl, hs, exit, h, exit + 5, h + 1, exits);
    var before := hs;
    hs := Chain(pl, before, s4, exit, h, exit + 5, h + 1, exit + 6, h + 1, exits);
    LeadsWithin(before, hs, exit + 5, h + 1);
  }

  lemma HandlerAt(code: seq<byte>, exit: nat)
    requires At(code, exit, LoopExit(exit))
    ensures At(code, exit + 5, Plain(PopLoop))
  {
    AtSplit4(code, exit, Plain(PopLoop), Plain(PushNil), WithAddr(Jump, exit + 6), Plain(PopLoop));
  }

  function LoopExits(start: nat, exit: nat, h: nat): Heights {
    map[start := h, exit := h, exit + 5 := h + 1, exit + 6 := h + 1]
  }

  lemma LoopExitsAre(start: nat, exit: nat, h: nat)
    requires start < exit
    ensures var exits := LoopExits(start, exit, h);
            && Leads(exits, start, h) && Leads(exits, exit, h)
            && Leads(exits, exit + 5, h + 1) && Leads(exits, exit + 6, h + 1)
  {
  }

  lemma LoopExitsKnown(hs: Heights, start: nat, exit: nat, h: nat)
    requires Leads(hs, start, h) && Leads(hs, exit, h) && Leads(hs, exit + 5, h + 1) && Leads(hs, exit + 6, h + 1)
    ensures Known(LoopExits(start, exit, h), hs, map[])
  {
  }

  lemma WhileSized(pl: Place, c: Heights, b: Heights, pc: nat, pc1: nat, pc2: nat, h: nat) returns (hs: Heights)
    requires pc2 + 10 < 65536 && pc + 5 < 65536
    requires Sized(pl, c, pc + 5, h, pc1, h + 1, map[]) && Sized(pl, b, pc1 + 3, h, pc2, h + 1, map[])
    requires At(pl.chunk.code, pc, Encode(Instr(PushLoop, pc + 5, pc2 + 9)))
    requires At(pl.chunk.code, pc1, WithAddr(JumpIfFalse, pc2 + 4)) && At(pl.chunk.code, pc2, Plain(Pop))
    requires At(pl.chunk.code, pc2 + 1, WithAddr(Loop, pc + 5)) && At(pl.chunk.code, pc2 + 4, LoopExit(pc2 + 4))
    ensures Sized(pl, hs, pc, h, pc2 + 10, h + 1, map[])
  {
    hide *;
    var start, exit := pc + 5, pc2 + 4;
    Ends(pl, c, start, h, pc1, h + 1, map[]);
    Ends(pl, b, pc1 + 3, h, pc2, h + 1, map[]);
    var exits := LoopExits(start, exit, h);
    LoopExitsAre(start, exit, h);
    HandlerAt(pl.chunk.code, exit);
    var s1 := PushLoopSized(pl, pc, start, exit + 5, h, exits);
    var s2 := TurnSized(pl, c, b, start, pc1, pc2, h, exits);
    var s3 := ExitSized(pl, exit, h, exits);
    Ends(pl, s1, pc, h, start, h, exits);
    Ends(pl, s3, exit, h, exit + 6, h + 1, exits);
    var before := Chain(pl, s1, s2, pc, h, start, h, exit, h, exits);
    hs := Chain(pl, before, s3, pc, h, exit, h, exit + 6, h + 1, exits);
    LeadsWithin(s1, before, start, h);
    LeadsWithin(before, hs, start, h);
    LeadsWithin(s3, hs, exit, h);
    LeadsWithin(s3, hs, exit + 5, h + 1);
    LeadsWithin(s3, hs, exit + 6, h + 1);
    LoopExitsKnown(hs, start, exit, h);
    Closes(pl, hs, pc, h, exit + 6, h + 1, exits, map[]);
  }

  // ----- arms -----

  /** The body of an arm and the jump to the end of the match. */
  lemma BodySized(pl: Place, b: Heights, pc: nat, pc1: nat, end: nat, names: nat, h: nat, next: nat, exits: Heights)
    returns (hs: Heights)
    requires Sized(pl, b, pc, h + names, pc1, h + names + 1, map[]) && names < 256 && end < 65536
    requires At(pl.chunk.code, pc1, WithByte(PopLocalKeep, names)) && At(pl.chunk.code, pc1 + 2, WithAddr(Jump, end))
    requires Leads(exits, end, h + 1)
    ensures Sized(pl, hs, pc, h + names, pc1 + 5, next, exits)
  {
    hide Sized, At, Within;
    NothingIn(exits);
    Among(pl, b, pc, h + names, pc1, h + names + 1, exits);
    var s1 := ByteSized(pl, pc1, PopLocalKeep, names, h + names + 1, h + 1, exits);
    var s2 := JumpSized(pl, pc1 + 2, Jump, end, h + 1, next, exits);
    hs := Chain(pl, b, s1, pc, h + names, pc1, h + names + 1, pc1 + 2, h + 1, exits);
    hs := Chain(pl, hs, s2, pc, h + names, pc1 + 2, h + 1, pc1 + 5, next, exits);
  }

  /** A guard, the body it admits, and the way to the next arm where it fails. */
  lemma GuardedSized(pl: Place, g: Heights, b: Heights, pc: nat, pcG: nat, pc1: nat, end: nat, names: nat, h: nat,
                     exits: Heights) returns (hs: Heights)
    requires Sized(pl, g, pc, h + names, pcG, h + names + 1, map[])
    requires Sized(pl, b, pcG + 3, h + names, pc1, h + names + 1, map[]) && names < 256 && end < 65536
    requires pc1 + 5 < 65536
    requires At(pl.chunk.code, pcG, WithAddr(JumpIfFalse, pc1 + 5))
    requires At(pl.chunk.code, pc1, WithByte(PopLocalKeep, names)) && At(pl.chunk.code, pc1 + 2, WithAddr(Jump, end))
    requires At(pl.chunk.code, pc1 + 5, WithByte(PopN, names))
    requires Leads(exits, end, h + 1) && Leads(exits, pc1 + 5, h + names)
    ensures Sized(pl, hs, pc, h + names, pc1 + 7, h, exits) && Leads(hs, pc1 + 5, h + names)
  {
    hide Sized, At, Within;
    NothingIn(exits);
    Among(pl, g, pc, h + names, pcG, h + names + 1, exits);
    var s1 := BranchSized(pl, pcG, JumpIfFalse, pc1 + 5, h + names + 1, exits);
    var s2 := BodySized(pl, b, pcG + 3, pc1, end, names, h, h + names, exits);
    var s3 := ByteSized(pl, pc1 + 5, PopN, names, h + names, h, exits);
    hs := Chain(pl, g, s1, pc, h + names, pcG, h + names + 1, pcG + 3, h + names, exits);
    hs := Chain(pl, hs, s2, pc, h + names, pcG + 3, h + names, pc1 + 5, h + names, exits);
    Ends(pl, hs, pc, h + names, pc1 + 5, h + names, exits);
    var before := hs;
    hs := Chain(pl, before, s3, pc, h + names, pc1 + 5, h + names, pc1 + 7, h, exits);
    LeadsWithin(before, hs, pc1 + 5, h + names);
  }

  /** The load of the scrutinee and the test. */
  lemma TestSized(pl: Place, pc: nat, slot: nat, test: nat, next: nat, h: nat, exits: Heights) returns (hs: Heights)
    requires slot < 256 && slot < h && next < 65536 && test < 256 && test < |pl.chunk.consts.patterns|
    requires Patterns.SameNames(pl.chunk.consts.patterns[test])
    requires At(pl.chunk.code, pc, WithByte(LoadLocal, slot)) && At(pl.chunk.code, pc + 2, WithByte(OpCode.Match, test))
    requires At(pl.chunk.code, pc + 4, WithAddr(JumpIfFalse, next)) && Leads(exits, next, h)
    ensures Sized(pl, hs, pc, h, pc + 7, h + |Patterns.Names(pl.chunk.consts.patterns[test])|, exits)
  {
    hide Part, At, Within, Patterns.Names, Patterns.SameNames;
    var s1 := ByteSized(pl, pc, LoadLocal, slot, h, h + 1, exits);
    var s2 := PartTest(pl.chunk.code, pl.chunk.consts, pc + 2, test, next, h + 1, exits, true);
    hs := Chain(pl, s1, s2, pc, h, pc + 2, h + 1, pc + 7, h + |Patterns.Names(pl.chunk.consts.patterns[test])|, exits);
  }

  // ----- which statements -----

  /** A statement list whose declarations find room, whatever lies above the locals. */
  predicate Slotted(stmts: seq<Stmt>, n: nat, clear: bool, top: bool) {
    stmts != [] ==>
      && Compilable(stmts[0].e, n, clear) && (stmts[0].Let? ==> stmts[0].x != SCRUTINEE)
      && (stmts[0].Let? && !top ==> n < 255)
      && Slotted(stmts[1..], if stmts[0].Let? && !top then n + 1 else n, clear, top)
  }

  lemma {:induction false} CompilableSlotted(stmts: seq<Stmt>, n: nat, clear: bool, top: bool)
    requires CompilableStmts(stmts, n, clear, top)
    ensures Slotted(stmts, n, clear, top)
    decreases |stmts|
  {
    hide Compilable;
    if stmts != [] {
      CompilableSlotted(stmts[1..], if stmts[0].Let? && !top then n + 1 else n, clear, top);
    }
  }

  function Max(a: nat, b: nat): nat {
    if a > b then a else b
  }

  // ----- every expression adds one value -----

  lemma {:induction false} UnaryHeights(pl: Place, e: Expr, sc: Scope, pc: nat, consts: Pool, h: nat, clear: bool)
    returns (hs: Heights)
    requires e.Unary? && Loaded(pl, pc, Gen(e, sc, pc, consts)) && Roomy(sc, h, clear)
    requires Compilable(e, |sc.locals|, clear)
    ensures Sized(pl, hs, pc, h, After(pc, Gen(e, sc, pc, consts).bytes, 0), h + 1, map[])
    decreases e, 0
  {
    hide *;
    GenUnary(e, sc, pc, consts);
    CompilableUnary(e, |sc.locals|, clear);
    var c := Gen(e.e, sc, pc, consts);
    UnaryParts(pl, pc, c, e.uop);
    var pc1 := After(pc, c.bytes, 0);
    var s1 := ExprHeights(pl, e.e, sc, pc, consts, h, clear);
    var s2 := UnarySized(pl, pc1, e.uop, h);
    hs := Chain(pl, s1, s2, pc, h, pc1, h + 1, pc1 + 1, h + 1, map[]);
  }

  lemma UnarySized(pl: Place, pc: nat, uop: UnaryOp, h: nat) returns (hs: Heights)
    requires At(pl.chunk.code, pc, Plain(if uop == Neg then Negate else LogicalNot))
    ensures Sized(pl, hs, pc, h + 1, pc + 1, h + 1, map[])
  {
    hide Sized, At;
    hs := PlainSized(pl, pc, if uop == Neg then Negate else LogicalNot, h + 1, h + 1, map[]);
  }

  lemma OpSized(pl: Place, pc: nat, op: BinOp, h: nat) returns (hs: Heights)
    requires At(pl.chunk.code, pc, Plain(Strict(op))) && op !in {And, Or}
    ensures Sized(pl, hs, pc, h + 2, pc + 1, h + 1, map[])
  {
    hide Sized, At;
    hs := PlainSized(pl, pc, Strict(op), h + 2, h + 1, map[]);
  }

  /** One temporary more. */
  lemma RoomyAbove(sc: Scope, h: nat, clear: bool)
    requires Roomy(sc, h, clear)
    ensures Roomy(sc, h + 1, false) && Roomy(sc, h, false)
  {
  }

  lemma {:induction false} StrictHeights(pl: Place, e: Expr, sc: Scope, pc: nat, consts: Pool, h: nat, clear: bool)
    returns (hs: Heights)
    requires e.Binary? && e.op !in {And, Or}
    requires Loaded(pl, pc, Gen(e, sc, pc, consts)) && Roomy(sc, h, clear) && Compilable(e, |sc.locals|, clear)
    ensures Sized(pl, hs, pc, h, After(pc, Gen(e, sc, pc, consts).bytes, 0), h + 1, map[])
    decreases e, 0
  {
    hide *;
    GenStrict(e, sc, pc, consts);
    CompilableBinary(e, |sc.locals|, clear);
    RoomyAbove(sc, h, clear);
    var l := Gen(e.lhs, sc, pc, consts);
    var pc1 := After(pc, l.bytes, 0);
    var r := Gen(e.rhs, sc, pc1, l.consts);
    StrictParts(pl, pc, l, r, e.op);
    var pc2 := After(pc1, r.bytes, 0);
    var s1 := ExprHeights(pl, e.lhs, sc, pc, consts, h, clear);
    var s2 := ExprHeights(pl, e.rhs, sc, pc1, l.consts, h + 1, false);
    var s3 := OpSized(pl, pc2, e.op, h);
    hs := Chain(pl, s1, s2, pc, h, pc1, h + 1, pc2, h + 2, map[]);
    hs := Chain(pl, hs, s3, pc, h, pc2, h + 2, pc2 + 1, h + 1, map[]);
  }

  lemma {:induction false} LogicalHeights(pl: Place, e: Expr, sc: Scope, pc: nat, consts: Pool, h: nat, clear: bool)
    returns (hs: Heights)
    requires e.Binary? && e.op in {And, Or}
    requires Loaded(pl, pc, Gen(e, sc, pc, consts)) && Roomy(sc, h, clear) && Compilable(e, |sc.locals|, clear)
    ensures Sized(pl, hs, pc, h, After(pc, Gen(e, sc, pc, consts).bytes, 0), h + 1, map[])
    decreases e, 0
  {
    hide *;
    GenLogical(e, sc, pc, consts);
    CompilableBinary(e, |sc.locals|, clear);
    var l := Gen(e.lhs, sc, pc, consts);
    var rhsPc := After(pc, l.bytes, 5);
    var r := Gen(e.rhs, sc, rhsPc, l.consts);
    LogicalParts(pl, pc, l, r, e.op);
    var pc1, end := After(pc, l.bytes, 0), After(rhsPc, r.bytes, 0);
    var s1 := ExprHeights(pl, e.lhs, sc, pc, consts, h, clear);
    var s2 := ExprHeights(pl, e.rhs, sc, rhsPc, l.consts, h, clear);
    hs := LogicalSized(pl, e.op, s1, s2, pc, pc1, end, h);
  }

  lemma {:induction false} IfHeights(pl: Place, e: Expr, sc: Scope, pc: nat, consts: Pool, h: nat, clear: bool)
    returns (hs: Heights)
    requires e.If?
    requires Loaded(pl, pc, Gen(e, sc, pc, consts)) && Roomy(sc, h, clear) && Compilable(e, |sc.locals|, clear)
    ensures Sized(pl, hs, pc, h, After(pc, Gen(e, sc, pc, consts).bytes, 0), h + 1, map[])
    decreases e, 0
  {
    hide *;
    GenIf(e, sc, pc, consts);
    CompilableIf(e, |sc.locals|, clear);
    var c := Gen(e.cond, sc, pc, consts);
    var thnPc := After(pc, c.bytes, 3);
    var t := Gen(e.thn, sc, thnPc, c.consts);
    var elsPc := After(thnPc, t.bytes, 3);
    var f := GenOption(e.els, sc, elsPc, t.consts);
    IfParts(pl, pc, c, t, f);
    AfterIs(thnPc, t.bytes, 0);
    AfterIs(thnPc, t.bytes, 3);
    var pc1, pc2, end := After(pc, c.bytes, 0), After(thnPc, t.bytes, 0), After(elsPc, f.bytes, 0);
    var s1 := ExprHeights(pl, e.cond, sc, pc, consts, h, clear);
    var s2 := ExprHeights(pl, e.thn, sc, thnPc, c.consts, h, clear);
    var s3 := OptionHeights(pl, e.els, sc, elsPc, t.consts, h, clear);
    hs := IfSized(pl, s1, s2, s3, pc, pc1, pc2, end, h);
  }

  lemma {:induction false} OptionHeights(pl: Place, e: Option<Expr>, sc: Scope, pc: nat, consts: Pool, h: nat,
                                         clear: bool)
    returns (hs: Heights)
    requires Loaded(pl, pc, GenOption(e, sc, pc, consts)) && Roomy(sc, h, clear)
    requires CompilableOption(e, |sc.locals|, clear)
    ensures Sized(pl, hs, pc, h, After(pc, GenOption(e, sc, pc, consts).bytes, 0), h + 1, map[])
    decreases e, 2
  {
    hide Sized, At, Gen, Compilable, Roomy;
    match e
    case None => hs := LiteralSized(pl, Nil, pc, consts, h);
    case Some(e1) => hs := ExprHeights(pl, e1, sc, pc, consts, h, clear);
  }

  lemma {:induction false} AssignHeights(pl: Place, e: Expr, sc: Scope, pc: nat, consts: Pool, h: nat, clear: bool)
    returns (hs: Heights)
    requires e.Assign?
    requires Loaded(pl, pc, Gen(e, sc, pc, consts)) && Roomy(sc, h, clear) && Compilable(e, |sc.locals|, clear)
    ensures Sized(pl, hs, pc, h, After(pc, Gen(e, sc, pc, consts).bytes, 0), h + 1, map[])
    decreases e, 0
  {
    hide *;
    GenAssign(e, sc, pc, consts);
    CompilableAssign(e, |sc.locals|, clear);
    var c := Gen(e.e, sc, pc, consts);
    var st := Store(sc, e.x, c.consts);
    AccessWidth(sc, e.x, pc, consts, c.consts);
    AssignParts(pl, pc, c, st);
    var pc1 := After(pc, c.bytes, 0);
    var s1 := ExprHeights(pl, e.e, sc, pc, consts, h, clear);
    var s2 := StoreSized(pl, e.x, sc, pc1, c.consts, h, clear);
    hs := Chain(pl, s1, s2, pc, h, pc1, h + 1, pc1 + 3, h + 1, map[]);
  }

  lemma {:induction false} CompoundHeights(pl: Place, e: Expr, sc: Scope, pc: nat, consts: Pool, h: nat, clear: bool)
    returns (hs: Heights)
    requires e.Compound?
    requires Loaded(pl, pc, Gen(e, sc, pc, consts)) && Roomy(sc, h, clear) && Compilable(e, |sc.locals|, clear)
    ensures Sized(pl, hs, pc, h, After(pc, Gen(e, sc, pc, consts).bytes, 0), h + 1, map[])
    decreases e, 0
  {
    hide *;
    GenCompound(e, sc, pc, consts);
    CompilableCompound(e, |sc.locals|, clear);
    RoomyAbove(sc, h, clear);
    var ld := Load(sc, e.x, consts);
    var pc1 := After(pc, ld.bytes, 0);
    var c := Gen(e.e, sc, pc1, ld.consts);
    var st := Store(sc, e.x, c.consts);
    AccessWidth(sc, e.x, pc, consts, c.consts);
    CompoundParts(pl, pc, ld, c, st, e.op);
    var pc2 := After(pc1, c.bytes, 0);
    var s1 := LoadSized(pl, e.x, sc, pc, consts, h, clear);
    var s2 := ExprHeights(pl, e.e, sc, pc1, ld.consts, h + 1, false);
    var s3 := OpSized(pl, pc2, e.op, h);
    var s4 := StoreSized(pl, e.x, sc, pc2 + 1, c.consts, h, clear);
    hs := Chain(pl, s1, s2, pc, h, pc1, h + 1, pc2, h + 2, map[]);
    hs := Chain(pl, hs, s3, pc, h, pc2, h + 2, pc2 + 1, h + 1, map[]);
    hs := Chain(pl, hs, s4, pc, h, pc2 + 1, h + 1, pc2 + 4, h + 1, map[]);
  }

  lemma {:induction false} WhileHeights(pl: Place, e: Expr, sc: Scope, pc: nat, consts: Pool, h: nat, clear: bool)
    returns (hs: Heights)
    requires e.While?
    requires Loaded(pl, pc, Gen(e, sc, pc, consts)) && Roomy(sc, h, clear) && Compilable(e, |sc.locals|, clear)
    ensures Sized(pl, hs, pc, h, After(pc, Gen(e, sc, pc, consts).bytes, 0), h + 1, map[])
    decreases e, 0
  {
    hide *;
    GenWhile(e, sc, pc, consts);
    CompilableWhile(e, |sc.locals|, clear);
    var start := After(pc, [], 5);
    var c := Gen(e.cond, sc, start, consts);
    var bodyPc := After(start, c.bytes, 3);
    var b := Gen(e.body, sc, bodyPc, c.consts);
    var exit := After(bodyPc, b.bytes, 4);
    WhileParts(pl, pc, c, b);
    LoopParts(pl, start, c, b);
    AfterIs(bodyPc, b.bytes, 0);
    AfterIs(bodyPc, b.bytes, 4);
    SmallWords(start, exit + 5);
    var pc1, pc2 := After(start, c.bytes, 0), After(bodyPc, b.bytes, 0);
    var s1 := ExprHeights(pl, e.cond, sc, start, consts, h, clear);
    var s2 := ExprHeights(pl, e.body, sc, bodyPc, c.consts, h, clear);
    hs := WhileSized(pl, s1, s2, pc, pc1, pc2, h);
  }

  lemma SmallWords(a: nat, b: nat)
    ensures a < 65536 ==> AsWord(a) == a
    ensures b < 65536 ==> AsWord(b) == b
  {
  }

  // ----- statements: a declaration makes its value a local -----

  lemma StmtPlaces(pl: Place, s: Stmt, sc: Scope, pc: nat, consts: Pool)
    requires Loaded(pl, pc, GenStmt(s, sc, pc, consts).0)
    ensures var c, all := Gen(s.e, sc, pc, consts), GenStmt(s, sc, pc, consts);
            var pc1, end := After(pc, c.bytes, 0), After(pc, all.0.bytes, 0);
            && Loaded(pl, pc, c)
            && if s.ExprStmt? then
                 all.1 == sc && At(pl.chunk.code, pc1, Plain(Pop)) && end == pc1 + 1
               else if sc.depth == 0 then
                 var i := ConstIndex(c.consts, Str(s.x));
                 && all.1 == sc && i < 256 && i < |pl.chunk.consts.values| && pl.chunk.consts.values[i] == Str(s.x)
                 && At(pl.chunk.code, pc1, WithByte(DefineGlobal, i)) && end == pc1 + 2
               else
                 && all.1 == Scope(sc.locals + [Local(s.x, sc.depth)], sc.depth)
                 && At(pl.chunk.code, pc1, WithByte(StoreLocal, |sc.locals|)) && end == pc1 + 2
  {
    hide *;
    StmtCode(s, sc, pc, consts);
    var c, all := Gen(s.e, sc, pc, consts), GenStmt(s, sc, pc, consts);
    if s.ExprStmt? {
      TailParts(pl, pc, c, Plain(Pop), all.0);
    } else if sc.depth == 0 {
      var i := ConstIndex(c.consts, Str(s.x));
      TailParts(pl, pc, c, WithByte(DefineGlobal, i), all.0);
      PoolHolds(pl, pc, all.0, c.consts, Str(s.x));
    } else {
      TailParts(pl, pc, c, WithByte(StoreLocal, |sc.locals|), all.0);
    }
  }

  lemma StmtCode(s: Stmt, sc: Scope, pc: nat, consts: Pool)
    ensures var c, all := Gen(s.e, sc, pc, consts), GenStmt(s, sc, pc, consts);
            && Extends(c.consts, all.0.consts)
            && if s.ExprStmt? then
                 all == (Code(Join3(c.bytes, Plain(Pop), []), c.consts), sc) && |Plain(Pop)| == 1
               else if sc.depth == 0 then
                 var i := ConstIndex(c.consts, Str(s.x));
                 && all == (Code(Join3(c.bytes, WithByte(DefineGlobal, i), []), AddConst(c.consts, Str(s.x))), sc)
                 && |WithByte(DefineGlobal, i)| == 2
               else
                 && all == (Code(Join3(c.bytes, WithByte(StoreLocal, |sc.locals|), []), c.consts),
                            Scope(sc.locals + [Local(s.x, sc.depth)], sc.depth))
                 && |WithByte(StoreLocal, |sc.locals|)| == 2
  {
    hide Gen, ConstIndex, Join3, AddConst, OpByte;
    assert Extends(Gen(s.e, sc, pc, consts).consts, Gen(s.e, sc, pc, consts).consts);
  }

  /** The room statements leave: new locals take the place of temporaries, if there are any. */
  predicate Left(sc: Scope, h: nat, clear: bool, after: Scope, k: nat) {
    && after.depth == sc.depth && |after.locals| >= |sc.locals| && k == Max(h, |after.locals|)
    && Roomy(after, k, clear)
  }

  lemma {:induction false} StmtHeights(pl: Place, s: Stmt, sc: Scope, pc: nat, consts: Pool, h: nat, clear: bool)
    returns (hs: Heights, k: nat)
    requires Loaded(pl, pc, GenStmt(s, sc, pc, consts).0) && Roomy(sc, h, clear)
    requires Compilable(s.e, |sc.locals|, clear) && (s.Let? && sc.depth != 0 ==> |sc.locals| < 255)
    ensures Left(sc, h, clear, GenStmt(s, sc, pc, consts).1, k)
    ensures Sized(pl, hs, pc, h, After(pc, GenStmt(s, sc, pc, consts).0.bytes, 0), k, map[])
    decreases s, 3
  {
    hide *;
    StmtPlaces(pl, s, sc, pc, consts);
    var c, all := Gen(s.e, sc, pc, consts), GenStmt(s, sc, pc, consts);
    var pc1 := After(pc, c.bytes, 0);
    var s1 := ExprHeights(pl, s.e, sc, pc, consts, h, clear);
    var s2: Heights;
    if s.ExprStmt? {
      k := h;
      s2 := PopSized(pl, pc1, h);
      LeftSame(sc, h, clear);
    } else if sc.depth == 0 {
      k := h;
      s2 := DefineSized(pl, pc1, ConstIndex(c.consts, Str(s.x)), s.x, h);
      LeftSame(sc, h, clear);
    } else {
      k, s2 := DeclareSized(pl, s.x, sc, pc1, h, clear);
    }
    hs := Chain(pl, s1, s2, pc, h, pc1, h + 1, After(pc, all.0.bytes, 0), k, map[]);
  }

  lemma LeftSame(sc: Scope, h: nat, clear: bool)
    requires Roomy(sc, h, clear)
    ensures Left(sc, h, clear, sc, h)
  {
  }

  lemma PopSized(pl: Place, pc: nat, h: nat) returns (hs: Heights)
    requires At(pl.chunk.code, pc, Plain(Pop))
    ensures Sized(pl, hs, pc, h + 1, pc + 1, h, map[])
  {
    hide Sized, At;
    hs := PlainSized(pl, pc, Pop, h + 1, h, map[]);
  }

  lemma DefineSized(pl: Place, pc: nat, i: nat, x: string, h: nat) returns (hs: Heights)
    requires At(pl.chunk.code, pc, WithByte(DefineGlobal, i)) && i < 256 && i < |pl.chunk.consts.values|
    requires pl.chunk.consts.values[i] == Str(x)
    ensures Sized(pl, hs, pc, h + 1, pc + 2, h, map[])
  {
    hide Sized, At;
    hs := ByteSized(pl, pc, DefineGlobal, i, h + 1, h, map[]);
  }

  lemma DeclareSized(pl: Place, x: string, sc: Scope, pc: nat, h: nat, clear: bool) returns (k: nat, hs: Heights)
    requires At(pl.chunk.code, pc, WithByte(StoreLocal, |sc.locals|)) && Roomy(sc, h, clear) && |sc.locals| < 255
    ensures Left(sc, h, clear, Scope(sc.locals + [Local(x, sc.depth)], sc.depth), k)
    ensures Sized(pl, hs, pc, h + 1, pc + 2, k, map[])
  {
    hide Sized, At;
    k := Max(h, |sc.locals| + 1);
    hs := ByteSized(pl, pc, StoreLocal, |sc.locals|, h + 1, k, map[]);
  }

  lemma {:induction false} StmtsHeights(pl: Place, stmts: seq<Stmt>, sc: Scope, pc: nat, consts: Pool, h: nat,
                                        clear: bool)
    returns (hs: Heights, k: nat)
    requires Loaded(pl, pc, GenStmts(stmts, sc, pc, consts).0) && Roomy(sc, h, clear)
    requires Slotted(stmts, |sc.locals|, clear, sc.depth == 0)
    ensures Left(sc, h, clear, GenStmts(stmts, sc, pc, consts).1, k)
    ensures Sized(pl, hs, pc, h, After(pc, GenStmts(stmts, sc, pc, consts).0.bytes, 0), k, map[])
    decreases stmts, 0
  {
    hide *;
    if stmts == [] {
      NoStmts(sc, pc, consts);
      LeftSame(sc, h, clear);
      hs := NoneSized(pl, pc, h, map[]);
      k := h;
    } else {
      GenStmtsStep(stmts, sc, pc, consts);
      SlottedParts(stmts, |sc.locals|, clear, sc.depth == 0);
      var first := GenStmt(stmts[0], sc, pc, consts);
      var pc1 := After(pc, first.0.bytes, 0);
      var rest := GenStmts(stmts[1..], first.1, pc1, first.0.consts);
      SequenceParts(pl, pc, first.0, rest.0);
      StmtSlots(stmts[0], sc, pc, consts);
      var s1, k1 := StmtHeights(pl, stmts[0], sc, pc, consts, h, clear);
      LeftMeans(sc, h, clear, first.1, k1);
      var s2, k2 := StmtsHeights(pl, stmts[1..], first.1, pc1, first.0.consts, k1, clear);
      LeftThrough(sc, h, clear, first.1, k1, rest.1, k2);
      k := k2;
      hs := Chain(pl, s1, s2, pc, h, pc1, k1, After(pc1, rest.0.bytes, 0), k2, map[]);
    }
  }

  lemma NoStmts(sc: Scope, pc: nat, consts: Pool)
    ensures GenStmts([], sc, pc, consts) == (Code([], consts), sc) && After(pc, [], 0) == pc
  {
  }

  lemma SlottedParts(stmts: seq<Stmt>, n: nat, clear: bool, top: bool)
    requires stmts != [] && Slotted(stmts, n, clear, top)
    ensures Compilable(stmts[0].e, n, clear) && (stmts[0].Let? && !top ==> n < 255)
    ensures stmts[0].Let? ==> stmts[0].x != SCRUTINEE
    ensures Slotted(stmts[1..], if stmts[0].Let? && !top then n + 1 else n, clear, top)
  {
    hide Compilable;
  }

  lemma StmtSlots(s: Stmt, sc: Scope, pc: nat, consts: Pool)
    ensures var after := GenStmt(s, sc, pc, consts).1;
            && after.depth == sc.depth
            && |after.locals| == if s.Let? && sc.depth != 0 then |sc.locals| + 1 else |sc.locals|
  {
    hide Gen;
  }

  lemma LeftMeans(sc: Scope, h: nat, clear: bool, after: Scope, k: nat)
    requires Left(sc, h, clear, after, k)
    ensures Roomy(after, k, clear) && k == Max(h, |after.locals|) && after.depth == sc.depth
  {
  }

  lemma LeftThrough(sc: Scope, h: nat, clear: bool, mid: Scope, k1: nat, after: Scope, k: nat)
    requires Left(sc, h, clear, mid, k1) && Left(mid, k1, clear, after, k)
    ensures Left(sc, h, clear, after, k)
  {
  }

  // ----- blocks -----

  lemma {:induction false} SlottedLets(stmts: seq<Stmt>, sc: Scope, pc: nat, consts: Pool)
    requires sc.depth != 0
    ensures |GenStmts(stmts, sc, pc, consts).1.locals| == |sc.locals| + Lets(stmts)
    decreases stmts
  {
    hide *;
    if stmts == [] {
      NoStmts(sc, pc, consts);
      NoLets(stmts);
    } else {
      NoLets(stmts);
      GenStmtsStep(stmts, sc, pc, consts);
      StmtSlots(stmts[0], sc, pc, consts);
      var first := GenStmt(stmts[0], sc, pc, consts);
      SlottedLets(stmts[1..], first.1, After(pc, first.0.bytes, 0), first.0.consts);
    }
  }

  lemma NoLets(stmts: seq<Stmt>)
    ensures Lets(stmts) == if stmts == [] then 0 else (if stmts[0].Let? then 1 else 0) + Lets(stmts[1..])
  {
  }

  /** Where the parts of a block are. */
  lemma BlockSpots(pl: Place, e: Expr, sc: Scope, pc: nat, consts: Pool)
    requires e.Block? && Loaded(pl, pc, Gen(e, sc, pc, consts))
    ensures var sc0, n := Scope(sc.locals, sc.depth + 1), Lets(e.stmts);
            var (b, inner) := GenStmts(e.stmts, sc0, pc, consts);
            var pc1 := After(pc, b.bytes, 0);
            var t := GenOption(e.tail, inner, pc1, b.consts);
            var pc2 := After(pc1, t.bytes, 0);
            && |inner.locals| == |sc.locals| + n
            && Loaded(pl, pc, b) && Loaded(pl, pc1, t) && At(pl.chunk.code, pc2, DropLocals(n))
            && After(pc, Gen(e, sc, pc, consts).bytes, 0) == pc2 + |DropLocals(n)|
  {
    hide *;
    GenBlock(e, sc, pc, consts);
    var sc0 := Scope(sc.locals, sc.depth + 1);
    var (b, inner) := GenStmts(e.stmts, sc0, pc, consts);
    SlottedLets(e.stmts, sc0, pc, consts);
    var t := GenOption(e.tail, inner, After(pc, b.bytes, 0), b.consts);
    BlockParts(pl, pc, b, t, |inner.locals| - |sc.locals|);
  }

  /** The height a block leaves, with `n` locals around it and `k` in it. */
  function BlockHeight(h: nat, n: nat, k: nat): nat {
    Max(h, n + k) + 1 - k
  }

  /**
   A block at any height. Its locals end up where temporaries were, so its end
   is one above its start only if it declares no local or there were none.
   */
  lemma {:induction false} BlockHeights(pl: Place, e: Expr, sc: Scope, pc: nat, consts: Pool, h: nat, clear: bool)
    returns (hs: Heights)
    requires e.Block? && Loaded(pl, pc, Gen(e, sc, pc, consts)) && Roomy(sc, h, clear)
    requires Slotted(e.stmts, |sc.locals|, clear, false) && CompilableOption(e.tail, |sc.locals| + Lets(e.stmts), clear)
    ensures Sized(pl, hs, pc, h, After(pc, Gen(e, sc, pc, consts).bytes, 0),
                  BlockHeight(h, |sc.locals|, Lets(e.stmts)), map[])
    decreases e, 0
  {
    hide *;
    BlockSpots(pl, e, sc, pc, consts);
    var sc0, n := Scope(sc.locals, sc.depth + 1), Lets(e.stmts);
    var (b, inner) := GenStmts(e.stmts, sc0, pc, consts);
    var pc1 := After(pc, b.bytes, 0);
    var t := GenOption(e.tail, inner, pc1, b.consts);
    var pc2 := After(pc1, t.bytes, 0);
    Deeper(sc, h, clear);
    var s1, k := StmtsHeights(pl, e.stmts, sc0, pc, consts, h, clear);
    LeftMeans(sc0, h, clear, inner, k);
    var s2 := OptionHeights(pl, e.tail, inner, pc1, b.consts, k, clear);
    var s3 := DropSized(pl, pc2, sc, inner, n, h, k, clear);
    hs := Chain(pl, s1, s2, pc, h, pc1, k, pc2, k + 1, map[]);
    hs := Chain(pl, hs, s3, pc, h, pc2, k + 1, pc2 + |DropLocals(n)|, BlockHeight(h, |sc.locals|, n), map[]);
  }

  lemma Deeper(sc: Scope, h: nat, clear: bool)
    requires Roomy(sc, h, clear)
    ensures Roomy(Scope(sc.locals, sc.depth + 1), h, clear)
  {
  }

  lemma DropSized(pl: Place, pc: nat, sc: Scope, inner: Scope, n: nat, h: nat, k: nat, clear: bool)
    returns (hs: Heights)
    requires At(pl.chunk.code, pc, DropLocals(n)) && |inner.locals| == |sc.locals| + n && Roomy(inner, k, clear)
    requires k == Max(h, |inner.locals|) && h >= |sc.locals|
    ensures Sized(pl, hs, pc, k + 1, pc + |DropLocals(n)|, BlockHeight(h, |sc.locals|, n), map[])
  {
    hide Sized, At;
    if n == 0 {
      hs := NoneSized(pl, pc, k + 1, map[]);
    } else {
      hs := ByteSized(pl, pc, PopLocalKeep, n, k + 1, k + 1 - n, map[]);
    }
  }

  lemma {:induction false} ClearBlock(pl: Place, e: Expr, sc: Scope, pc: nat, consts: Pool, h: nat, clear: bool)
    returns (hs: Heights)
    requires e.Block? && Loaded(pl, pc, Gen(e, sc, pc, consts)) && Roomy(sc, h, clear)
    requires Compilable(e, |sc.locals|, clear)
    ensures Sized(pl, hs, pc, h, After(pc, Gen(e, sc, pc, consts).bytes, 0), h + 1, map[])
    decreases e, 1
  {
    hide *;
    CompilableBlock(e, |sc.locals|, clear);
    CompilableSlotted(e.stmts, |sc.locals|, clear, false);
    BlockLocals(e.stmts, |sc.locals|, clear, Scope([], 1), pc, consts);
    ClearHeight(sc, h, clear, Lets(e.stmts));
    hs := BlockHeights(pl, e, sc, pc, consts, h, clear);
  }

  lemma ClearHeight(sc: Scope, h: nat, clear: bool, k: nat)
    requires Roomy(sc, h, clear) && (k > 0 ==> clear)
    ensures BlockHeight(h, |sc.locals|, k) == h + 1
  {
  }

  // ----- match -----

  /** What is matched lies above the locals, right above them if `clear`. */
  predicate Topped(sc: Scope, h: nat, clear: bool) {
    |sc.locals| <= 255 && h > |sc.locals| && (clear ==> h == |sc.locals| + 1)
  }

  lemma {:induction false} ArmsHeights(pl: Place, arms: seq<Arm>, sc: Scope, pc: nat, consts: Pool, end: nat, h: nat,
                                       clear: bool) returns (hs: Heights)
    requires Topped(sc, h, clear) && forall k :: 0 <= k < |arms| ==> CompilableArm(arms[k], |sc.locals|, clear)
    requires var a := GenArms(arms, WithScrutinee(sc), pc, consts);
             && At(pl.chunk.code, pc, JoinArms(|sc.locals|, a.0, pc, end)) && Holds(pl, a.1)
             && pc + ArmsWidth(a.0) < end < 65536
    ensures Sized(pl, hs, pc, h, pc + ArmsWidth(GenArms(arms, WithScrutinee(sc), pc, consts).0), h, map[end := h + 1])
    decreases arms, 0
  {
    hide *;
    if arms == [] {
      NoArmsWidth(sc, pc, consts);
      hs := NoneSized(pl, pc, h, map[end := h + 1]);
    } else {
      ArmsPlaced(pl, arms, sc, pc, consts, |sc.locals|, end);
      GenArmsStep(arms, WithScrutinee(sc), pc, consts);
      var first := GenArm(arms[0], WithScrutinee(sc), pc, consts);
      var next := pc + ArmWidth(first.0);
      var rest := GenArms(arms[1..], WithScrutinee(sc), next, first.1);
      WidthStep(first.0, rest.0);
      ArmAtMeans(pl, arms[0], sc, pc, consts, end);
      var s1 := ArmHeights(pl, arms[0], sc, pc, consts, end, h, clear);
      var s2 := ArmsHeights(pl, arms[1..], sc, next, first.1, end, h, clear);
      hs := Chain(pl, s1, s2, pc, h, next, h, next + ArmsWidth(rest.0), h, map[end := h + 1]);
    }
  }

  lemma NoArmsWidth(sc: Scope, pc: nat, consts: Pool)
    ensures ArmsWidth(GenArms([], WithScrutinee(sc), pc, consts).0) == 0
  {
  }

  lemma WidthStep(first: ArmCode, rest: seq<ArmCode>)
    ensures ArmsWidth([first] + rest) == ArmWidth(first) + ArmsWidth(rest)
  {
    assert ([first] + rest)[1..] == rest;
  }

  /** An arm at its place in the code. */
  predicate ArmAt(pl: Place, arm: Arm, sc: Scope, pc: nat, consts: Pool, end: nat) {
    var r := GenArm(arm, WithScrutinee(sc), pc, consts);
    && At(pl.chunk.code, pc, JoinArm(|sc.locals|, r.0, pc, end)) && Holds(pl, r.1)
    && pc + ArmWidth(r.0) < end < 65536
    && r.0.test < 256 && r.0.test < |pl.chunk.consts.patterns|
    && pl.chunk.consts.patterns[r.0.test] == arm.pattern
  }

  lemma ArmAtMeans(pl: Place, arm: Arm, sc: Scope, pc: nat, consts: Pool, end: nat)
    ensures ArmAt(pl, arm, sc, pc, consts, end) <==>
              var r := GenArm(arm, WithScrutinee(sc), pc, consts);
              && At(pl.chunk.code, pc, JoinArm(|sc.locals|, r.0, pc, end)) && Holds(pl, r.1)
              && pc + ArmWidth(r.0) < end < 65536
              && r.0.test < 256 && r.0.test < |pl.chunk.consts.patterns|
              && pl.chunk.consts.patterns[r.0.test] == arm.pattern
  {
  }

  lemma {:induction false} ArmHeights(pl: Place, arm: Arm, sc: Scope, pc: nat, consts: Pool, end: nat, h: nat,
                                      clear: bool) returns (hs: Heights)
    requires Topped(sc, h, clear) && CompilableArm(arm, |sc.locals|, clear) && ArmAt(pl, arm, sc, pc, consts, end)
    ensures Sized(pl, hs, pc, h, pc + ArmWidth(GenArm(arm, WithScrutinee(sc), pc, consts).0), h, map[end := h + 1])
    decreases arm, 1
  {
    hide *;
    if arm.guard.None? {
      hs := BareHeights(pl, arm, sc, pc, consts, end, h, clear);
    } else {
      hs := GuardedHeights(pl, arm, sc, pc, consts, end, h, clear);
    }
  }

  /** The pieces of an arm's code, and its scope. */
  lemma ArmSpots(pl: Place, arm: Arm, sc: Scope, pc: nat, consts: Pool, end: nat, h: nat, clear: bool)
    requires Topped(sc, h, clear) && CompilableArm(arm, |sc.locals|, clear) && ArmAt(pl, arm, sc, pc, consts, end)
    ensures |sc.locals| < 256 && |sc.locals| < h
    ensures var r := GenArm(arm, WithScrutinee(sc), pc, consts);
            var a, inner, names := r.0, ArmScope(WithScrutinee(sc), arm.pattern), |Patterns.Names(arm.pattern)|;
            && At(pl.chunk.code, pc, WithByte(LoadLocal, |sc.locals|))
            && At(pl.chunk.code, pc + 2, WithByte(OpCode.Match, a.test))
            && At(pl.chunk.code, pc + 4, WithAddr(JumpIfFalse, pc + ArmWidth(a)))
            && At(pl.chunk.code, pc + 7, JoinGuarded(a, pc + ArmWidth(a), end))
            && a.test < 256 && a.test < |pl.chunk.consts.patterns| && pl.chunk.consts.patterns[a.test] == arm.pattern
            && Patterns.SameNames(arm.pattern) && a.names == names < 255 && Holds(pl, r.1)
            && |inner.locals| == |sc.locals| + 1 + names && Roomy(inner, h + names, clear)
            && Compilable(arm.body, |inner.locals|, clear)
            && (arm.guard.Some? ==> Compilable(arm.guard.value, |inner.locals|, clear))
            && pc + ArmWidth(a) < end < 65536
  {
    hide *;
    ArmAtMeans(pl, arm, sc, pc, consts, end);
    CompilableParts(arm, |sc.locals|, clear);
    ArmNames(arm, sc, pc, consts);
    ArmScopeIs(sc, arm.pattern);
    ArmParts(pl.chunk.code, |sc.locals|, GenArm(arm, WithScrutinee(sc), pc, consts).0, pc, end);
    InnerRoom(sc, ArmScope(WithScrutinee(sc), arm.pattern), |Patterns.Names(arm.pattern)|, h, clear);
  }

  lemma InnerRoom(sc: Scope, inner: Scope, names: nat, h: nat, clear: bool)
    requires Topped(sc, h, clear) && |inner.locals| == |sc.locals| + 1 + names <= 255
    ensures Roomy(inner, h + names, clear) && |sc.locals| < h
  {
  }

  lemma FullRoom(sc: Scope)
    requires |sc.locals| <= 255
    ensures Roomy(sc, |sc.locals|, true)
  {
  }

  lemma BareWidth(a: ArmCode)
    ensures a.guard.None? ==> ArmWidth(a) == |a.body| + 12
    ensures a.guard.Some? ==> ArmWidth(a) == |a.guard.value| + |a.body| + 17
  {
  }

  lemma {:induction false} BareHeights(pl: Place, arm: Arm, sc: Scope, pc: nat, consts: Pool, end: nat, h: nat,
                                       clear: bool) returns (hs: Heights)
    requires Topped(sc, h, clear) && CompilableArm(arm, |sc.locals|, clear) && ArmAt(pl, arm, sc, pc, consts, end)
    requires arm.guard.None?
    ensures Sized(pl, hs, pc, h, pc + ArmWidth(GenArm(arm, WithScrutinee(sc), pc, consts).0), h, map[end := h + 1])
    decreases arm, 0
  {
    hide *;
    ArmSpots(pl, arm, sc, pc, consts, end, h, clear);
    ArmCodes(arm, sc, pc, consts);
    var r := GenArm(arm, WithScrutinee(sc), pc, consts);
    var a, p, inner := r.0, arm.pattern, ArmScope(WithScrutinee(sc), arm.pattern);
    var names, next := |Patterns.Names(p)|, pc + ArmWidth(a);
    BareWidth(a);
    BodyPcIs(a, pc);
    GuardParts(pl.chunk.code, a, pc, end);
    var b, exits := Gen(arm.body, inner, pc + 7, AddPattern(consts, p)), ArmExits(end, h, next);
    ArmExitsAre(end, h, next);
    Reflexive(b.consts);
    PoolLoaded(pl, pc + 7, b, r.1);
    AfterIs(pc + 7, b.bytes, 0);
    var s1 := TestSized(pl, pc, |sc.locals|, a.test, next, h, exits);
    var s2 := ExprHeights(pl, arm.body, inner, pc + 7, AddPattern(consts, p), h + names, clear);
    var s3 := BodySized(pl, s2, pc + 7, pc + 7 + |b.bytes|, end, names, h, h, exits);
    hs := Chain(pl, s1, s3, pc, h, pc + 7, h + names, next, h, exits);
    Ends(pl, hs, pc, h, next, h, exits);
    ArmExitsKnown(hs, end, h, next);
    Closes(pl, hs, pc, h, next, h, exits, map[end := h + 1]);
  }

  /** Where an arm leads: the end of the match, and the next arm. */
  function ArmExits(end: nat, h: nat, next: nat): Heights {
    map[end := h + 1, next := h]
  }

  lemma ArmExitsAre(end: nat, h: nat, next: nat)
    requires next < end
    ensures Leads(ArmExits(end, h, next), end, h + 1) && Leads(ArmExits(end, h, next), next, h)
  {
  }

  lemma ArmExitsKnown(hs: Heights, end: nat, h: nat, next: nat)
    requires next < end && Leads(hs, next, h)
    ensures Known(ArmExits(end, h, next), hs, map[end := h + 1])
  {
  }

  /** Where a guarded arm leads; at `gone` the bindings are dropped. */
  function GuardedExits(end: nat, h: nat, next: nat, gone: nat, k: nat): Heights {
    map[end := h + 1, next := h, gone := k]
  }

  lemma GuardedExitsAre(end: nat, h: nat, next: nat, gone: nat, k: nat)
    requires gone < next < end
    ensures var exits := GuardedExits(end, h, next, gone, k);
            Leads(exits, end, h + 1) && Leads(exits, next, h) && Leads(exits, gone, k)
  {
  }

  lemma GuardedExitsKnown(hs: Heights, end: nat, h: nat, next: nat, gone: nat, k: nat)
    requires gone < next < end && Leads(hs, next, h) && Leads(hs, gone, k)
    ensures Known(GuardedExits(end, h, next, gone, k), hs, map[end := h + 1])
  {
  }

  lemma {:induction false} GuardedHeights(pl: Place, arm: Arm, sc: Scope, pc: nat, consts: Pool, end: nat, h: nat,
                                          clear: bool) returns (hs: Heights)
    requires Topped(sc, h, clear) && CompilableArm(arm, |sc.locals|, clear) && ArmAt(pl, arm, sc, pc, consts, end)
    requires arm.guard.Some?
    ensures Sized(pl, hs, pc, h, pc + ArmWidth(GenArm(arm, WithScrutinee(sc), pc, consts).0), h, map[end := h + 1])
    decreases arm, 0
  {
    hide *;
    ArmSpots(pl, arm, sc, pc, consts, end, h, clear);
    ArmCodes(arm, sc, pc, consts);
    var r := GenArm(arm, WithScrutinee(sc), pc, consts);
    var a, p, inner := r.0, arm.pattern, ArmScope(WithScrutinee(sc), arm.pattern);
    var names, next := |Patterns.Names(p)|, pc + ArmWidth(a);
    BareWidth(a);
    BodyPcIs(a, pc);
    GuardParts(pl.chunk.code, a, pc, end);
    var g := Gen(arm.guard.value, inner, pc + 7, AddPattern(consts, p));
    var pcG := pc + 7 + |g.bytes|;
    var b, exits := Gen(arm.body, inner, pcG + 3, g.consts), GuardedExits(end, h, next, next - 2, h + names);
    GuardedExitsAre(end, h, next, next - 2, h + names);
    Reflexive(b.consts);
    PoolLoaded(pl, pc + 7, g, r.1);
    PoolLoaded(pl, pcG + 3, b, r.1);
    AfterIs(pc + 7, g.bytes, 0);
    AfterIs(pcG + 3, b.bytes, 0);
    var s1 := TestSized(pl, pc, |sc.locals|, a.test, next, h, exits);
    var s2 := ExprHeights(pl, arm.guard.value, inner, pc + 7, AddPattern(consts, p), h + names, clear);
    var s3 := ExprHeights(pl, arm.body, inner, pcG + 3, g.consts, h + names, clear);
    var s4 := GuardedSized(pl, s2, s3, pc + 7, pcG, pcG + 3 + |b.bytes|, end, names, h, exits);
    hs := Chain(pl, s1, s4, pc, h, pc + 7, h + names, next, h, exits);
    LeadsWithin(s4, hs, next - 2, h + names);
    Ends(pl, hs, pc, h, next, h, exits);
    GuardedExitsKnown(hs, end, h, next, next - 2, h + names);
    Closes(pl, hs, pc, h, next, h, exits, map[end := h + 1]);
  }

  /**
   A `match` at any height: what is matched becomes a local where a temporary was, so the end is one above the start
   only if there were none.
   */
  lemma {:induction false} MatchHeights(pl: Place, e: Expr, sc: Scope, pc: nat, consts: Pool, h: nat, clear: bool,
                                        inner: bool) returns (hs: Heights)
    requires e.Match? && Compilable(e.scrutinee, |sc.locals|, clear)
    requires forall k :: 0 <= k < |e.arms| ==> CompilableArm(e.arms[k], |sc.locals|, inner)
    requires Loaded(pl, pc, Gen(e, sc, pc, consts)) && Roomy(sc, h, clear) && (inner ==> h <= |sc.locals| + 1)
    ensures Sized(pl, hs, pc, h, After(pc, Gen(e, sc, pc, consts).bytes, 0), BlockHeight(h, |sc.locals|, 1), map[])
    decreases e, 0
  {
    hide *;
    GenMatch(e, sc, pc, consts);
    var c := Gen(e.scrutinee, sc, pc, consts);
    var pc1 := After(pc, c.bytes, 0);
    var a := GenArms(e.arms, WithScrutinee(sc), After(pc, c.bytes, 2), c.consts);
    GenArmsExtends(e.arms, WithScrutinee(sc), After(pc, c.bytes, 2), c.consts);
    MatchParts(pl, pc, c, |sc.locals|, a.0, a.1);
    LoadedPool(pl, pc, Gen(e, sc, pc, consts));
    ScrutineeRoom(sc, h, clear, inner);
    var end, k := pc1 + 2 + ArmsWidth(a.0) + 1, BlockHeight(h, |sc.locals|, 1);
    var s1 := ExprHeights(pl, e.scrutinee, sc, pc, consts, h, clear);
    var s2 := ArmsHeights(pl, e.arms, sc, pc1 + 2, c.consts, end, k, inner);
    hs := AroundArms(pl, s1, s2, pc, pc1, end, |sc.locals|, h, k);
  }

  lemma ScrutineeRoom(sc: Scope, h: nat, clear: bool, inner: bool)
    requires Roomy(sc, h, clear) && (inner ==> h <= |sc.locals| + 1)
    ensures var k := BlockHeight(h, |sc.locals|, 1);
            Topped(sc, k, inner) && k == (if |sc.locals| + 1 > h then |sc.locals| + 1 else h) && |sc.locals| < 256
            && |sc.locals| <= h
  {
  }

  lemma AroundArms(pl: Place, c: Heights, arms: Heights, pc: nat, pc1: nat, end: nat, slot: nat, h: nat, k: nat)
    returns (hs: Heights)
    requires Sized(pl, c, pc, h, pc1, h + 1, map[]) && end >= 1 && slot < 256
    requires slot <= h && k == if slot + 1 > h then slot + 1 else h
    requires Sized(pl, arms, pc1 + 2, k, end - 1, k, map[end := k + 1])
    requires At(pl.chunk.code, pc1, WithByte(StoreLocal, slot))
    requires At(pl.chunk.code, end - 1, Plain(PushNil)) && At(pl.chunk.code, end, WithByte(PopLocalKeep, 1))
    ensures Sized(pl, hs, pc, h, end + 2, k, map[])
  {
    hide Sized, At, Known;
    var exits: Heights := map[end := k + 1];
    NothingIn(exits);
    Among(pl, c, pc, h, pc1, h + 1, exits);
    var s1 := ByteSized(pl, pc1, StoreLocal, slot, h + 1, k, exits);
    var s2 := PlainSized(pl, end - 1, PushNil, k, k + 1, exits);
    var s3 := ByteSized(pl, end, PopLocalKeep, 1, k + 1, k, exits);
    hs := Chain(pl, c, s1, pc, h, pc1, h + 1, pc1 + 2, k, exits);
    hs := Chain(pl, hs, arms, pc, h, pc1 + 2, k, end - 1, k, exits);
    hs := Chain(pl, hs, s2, pc, h, end - 1, k, end, k + 1, exits);
    Ends(pl, hs, pc, h, end, k + 1, exits);
    var before := hs;
    hs := Chain(pl, before, s3, pc, h, end, k + 1, end + 2, k, exits);
    LeadsWithin(before, hs, end, k + 1);
    var only := OneExit(hs, end, k + 1);
    KnownWithin(only, hs, hs);
    Closes(pl, hs, pc, h, end + 2, k, exits, map[]);
  }

  lemma {:induction false} ClearMatch(pl: Place, e: Expr, sc: Scope, pc: nat, consts: Pool, h: nat, clear: bool)
    returns (hs: Heights)
    requires e.Match?
    requires Loaded(pl, pc, Gen(e, sc, pc, consts)) && Roomy(sc, h, clear) && Compilable(e, |sc.locals|, clear)
    ensures Sized(pl, hs, pc, h, After(pc, Gen(e, sc, pc, consts).bytes, 0), h + 1, map[])
    decreases e, 1
  {
    hide *;
    CompilableMatch(e, |sc.locals|, clear);
    ClearRoom(sc, h, clear);
    hs := MatchHeights(pl, e, sc, pc, consts, h, clear, true);
  }

  lemma ClearRoom(sc: Scope, h: nat, clear: bool)
    requires Roomy(sc, h, clear) && clear
    ensures h <= |sc.locals| + 1 && BlockHeight(h, |sc.locals|, 1) == h + 1
  {
  }

  /**
   The code of an expression: every instruction has one height of the stack,
   on whatever path it is reached, finds the operands, slots and constants it
   asks for, and the end lies one above the start.
   */
  lemma {:induction false} ExprHeights(pl: Place, e: Expr, sc: Scope, pc: nat, consts: Pool, h: nat, clear: bool)
    returns (hs: Heights)
    requires Loaded(pl, pc, Gen(e, sc, pc, consts)) && Roomy(sc, h, clear) && Compilable(e, |sc.locals|, clear)
    ensures Sized(pl, hs, pc, h, After(pc, Gen(e, sc, pc, consts).bytes, 0), h + 1, map[])
    decreases e, 2
  {
    hide *;
    CaseUnfolds(e, sc, pc, consts, clear);
    match e
    case Literal(v) => hs := LiteralSized(pl, v, pc, consts, h);
    case Ident(x) => hs := LoadSized(pl, x, sc, pc, consts, h, clear);
    case Unary(_, _) => hs := UnaryHeights(pl, e, sc, pc, consts, h, clear);
    case Binary(op, _, _) =>
      if op == And || op == Or {
        hs := LogicalHeights(pl, e, sc, pc, consts, h, clear);
      } else {
        hs := StrictHeights(pl, e, sc, pc, consts, h, clear);
      }
    case If(_, _, _) => hs := IfHeights(pl, e, sc, pc, consts, h, clear);
    case Block(_, _) => hs := ClearBlock(pl, e, sc, pc, consts, h, clear);
    case Paren(e1) => hs := ExprHeights(pl, e1, sc, pc, consts, h, clear);
    case Assign(_, _) => hs := AssignHeights(pl, e, sc, pc, consts, h, clear);
    case Compound(_, _, _) => hs := CompoundHeights(pl, e, sc, pc, consts, h, clear);
    case While(_, _) => hs := WhileHeights(pl, e, sc, pc, consts, h, clear);
    case Match(_, _) => hs := ClearMatch(pl, e, sc, pc, consts, h, clear);
  }

  lemma CaseUnfolds(e: Expr, sc: Scope, pc: nat, consts: Pool, clear: bool)
    ensures e.Paren? ==> Gen(e, sc, pc, consts) == Gen(e.e, sc, pc, consts)
    ensures e.Paren? && Compilable(e, |sc.locals|, clear) ==> Compilable(e.e, |sc.locals|, clear)
    ensures e.Literal? ==> Gen(e, sc, pc, consts) == GenLiteral(e.v, consts)
    ensures e.Ident? ==> Gen(e, sc, pc, consts) == Load(sc, e.x, consts)
  {
    hide GenLiteral, Load;
  }

  // ----- whole scripts -----

  /**
   Every instruction of a script's code has a height, keeps the heights, and finds what it needs; the first is reached
   with nothing on the stack, and the last, the only one that returns, with one value.
   */
  ghost predicate WellShaped(c: Code, hs: Heights) {
    && c.bytes != [] && Linear(c.bytes, 0, |c.bytes|)
    && var end := |c.bytes| - 1;
       && Leads(hs, 0, 0) && Leads(hs, end, 1) && At(c.bytes, end, Plain(ReturnTop))
       && AllKeep(c.bytes, c.consts, hs, hs, end, true) && Bounded(c.bytes, hs, 0, end) && Covers(c.bytes, hs, 0, end)
  }

  /** The heights of a script: none at its start, one value at its return. */
  lemma ProgramHeights(stmts: seq<Stmt>, result: Option<Expr>) returns (hs: Heights)
    requires CompiledScripts.FitsChunk(GenProgram(stmts, result))
    requires CompilableStmts(stmts, 0, true, true) && CompilableOption(result, 0, true)
    ensures WellShaped(GenProgram(stmts, result), hs)
  {
    hide *;
    var c := GenProgram(stmts, result);
    var pl := Place(Machine.Chunk(c.bytes, c.consts), [], [], [], 0);
    var end := ProgramEnd(stmts, result, pl);
    CompiledScripts.ProgramParts(stmts, result, pl);
    CompilableSlotted(stmts, 0, true, true);
    var sc := Scope([], 0);
    FullRoom(sc);
    var (b, sc1) := GenStmts(stmts, sc, 0, EMPTY);
    var pc1 := After(0, b.bytes, 0);
    var s1, k := StmtsHeights(pl, stmts, sc, 0, EMPTY, 0, true);
    LeftMeans(sc, 0, true, sc1, k);
    MaxZero();
    var s2 := OptionHeights(pl, result, sc, pc1, b.consts, 0, true);
    hs := Chain(pl, s1, s2, 0, 0, pc1, 0, end, 1, map[]);
    ShapedWhole(c, hs, end, pl);
  }

  lemma MaxZero()
    ensures Max(0, 0) == 0
  {
  }

  lemma ProgramEnd(stmts: seq<Stmt>, result: Option<Expr>, pl: Place) returns (end: nat)
    ensures var (b, sc) := GenStmts(stmts, Scope([], 0), 0, EMPTY);
            var pc1 := After(0, b.bytes, 0);
            var t := GenOption(result, sc, pc1, b.consts);
            end == After(pc1, t.bytes, 0) && |GenProgram(stmts, result).bytes| == end + 1
  {
    var (b, sc) := GenStmts(stmts, Scope([], 0), 0, EMPTY);
    hide GenStmts, GenOption;
    end := After(After(0, b.bytes, 0), GenOption(result, sc, After(0, b.bytes, 0), b.consts).bytes, 0);
  }

  lemma ShapedWhole(c: Code, hs: Heights, end: nat, pl: Place)
    requires pl.chunk == Machine.Chunk(c.bytes, c.consts) && |c.bytes| == end + 1
    requires Sized(pl, hs, 0, 0, end, 1, map[]) && At(c.bytes, end, Plain(ReturnTop))
    ensures WellShaped(c, hs)
  {
    ReturnLast(c.bytes, end);
    PartMeans(c.bytes, c.consts, hs, 0, 0, end, 1, map[], true);
    hide Linear, Keeps, AfterTest, At, Part, Sized, AllKeep, Bounded, Covers;
    assert Within(map[], hs) && Within(hs, hs);
  }

  lemma ReturnLast(code: seq<byte>, end: nat)
    requires At(code, end, Plain(ReturnTop))
    ensures Linear(code, 0, end) ==> Linear(code, 0, end + 1)
  {
    InstrDecodes(code, end, Instr(ReturnTop, 0, 0));
    LinearSelf(code, end + 1);
    hide At, Encode;
    if Linear(code, 0, end) {
      LinearJoin(code, 0, end, end + 1);
    }
  }

  /** The machine is at an instruction at its height, or between a pattern's test and the jump after it. */
  ghost predicate Stands(c: Code, hs: Heights, m: Machine.Vm) {
    && Linear(c.bytes, 0, m.ip) && Poised(Machine.Chunk(c.bytes, c.consts), 0, m, hs, true)
    && (!AfterTest(c.bytes, 0, m.ip) ==> m.ip in hs && |m.stack| == hs[m.ip])
  }

  lemma ShapedRuns(stmts: seq<Stmt>, result: Option<Expr>, globals: Frame, hs: Heights, n: nat)
    requires WellShaped(GenProgram(stmts, result), hs)
    ensures var r := CompiledScripts.ScriptSteps(stmts, result, globals, n);
            !r.Crashed? && (r.Running? ==> Stands(GenProgram(stmts, result), hs, r.vm))
  {
    hide *;
    var c := GenProgram(stmts, result);
    var chunk, m := Machine.Chunk(c.bytes, c.consts), Machine.Vm(0, [], globals, []);
    StepsOfScript(stmts, result, globals, n);
    ShapedMeans(c, chunk, hs, m);
    RunsToReturn(chunk, m, hs, |c.bytes| - 1, true, n);
    var r := Machine.Steps(chunk, 0, m, n);
    if r.Running? {
      PoisedStands(c, chunk, hs, r.vm);
    }
  }

  lemma StepsOfScript(stmts: seq<Stmt>, result: Option<Expr>, globals: Frame, n: nat)
    ensures var c := GenProgram(stmts, result);
            CompiledScripts.ScriptSteps(stmts, result, globals, n) ==
              Machine.Steps(Machine.Chunk(c.bytes, c.consts), 0, Machine.Vm(0, [], globals, []), n)
  {
  }

  lemma ShapedMeans(c: Code, chunk: Machine.Chunk, hs: Heights, m: Machine.Vm)
    requires WellShaped(c, hs) && chunk == Machine.Chunk(c.bytes, c.consts) && m.ip == 0 && m.stack == []
    ensures c.bytes != []
    ensures var end := |c.bytes| - 1;
            && AllKeep(chunk.code, chunk.consts, hs, hs, end, true) && Bounded(chunk.code, hs, 0, end)
            && At(chunk.code, end, Encode(Instr(ReturnTop, 0, 0))) && end in hs && hs[end] > 0
    ensures Poised(chunk, 0, m, hs, true)
  {
    hide AllKeep, Bounded, At, Encode, Tested, Covers;
  }

  lemma PoisedStands(c: Code, chunk: Machine.Chunk, hs: Heights, m: Machine.Vm)
    requires WellShaped(c, hs) && chunk == Machine.Chunk(c.bytes, c.consts) && Poised(chunk, 0, m, hs, true)
    ensures Stands(c, hs, m)
  {
    if Tested(chunk, 0, m, hs, true) {
      LinearNext(c.bytes, m.ip - 2);
      LinearJoin(c.bytes, 0, m.ip - 2, m.ip);
    }
    hide Linear, Fits, Flows, AllKeep, Covers, At;
  }

  /**
   However long a compiled script runs, it never takes a value off an empty
   stack, reads a slot that is not there or runs into bytes that are no
   instruction, and at every instruction the stack has the height that was
   assigned to it, on whatever path the run came there.
   */
  lemma NeverCrashes(stmts: seq<Stmt>, result: Option<Expr>, globals: Frame) returns (hs: Heights)
    requires CompiledScripts.FitsChunk(GenProgram(stmts, result))
    requires CompilableStmts(stmts, 0, true, true) && CompilableOption(result, 0, true)
    ensures WellShaped(GenProgram(stmts, result), hs)
    ensures forall n: nat :: !CompiledScripts.ScriptSteps(stmts, result, globals, n).Crashed?
    ensures forall n: nat ::
              var r := CompiledScripts.ScriptSteps(stmts, result, globals, n);
              r.Running? ==> Stands(GenProgram(stmts, result), hs, r.vm)
  {
    hide *;
    hs := ProgramHeights(stmts, result);
    forall n: nat
      ensures var r := CompiledScripts.ScriptSteps(stmts, result, globals, n);
              !r.Crashed? && (r.Running? ==> Stands(GenProgram(stmts, result), hs, r.vm))
    {
      ShapedRuns(stmts, result, globals, hs, n);
    }
  }
}
