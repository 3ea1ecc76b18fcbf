/**
 A block or a `match` as the right operand of an operator, or as the right side
 of a compound assignment. Its locals, the one that holds what is matched among
 them, take the slots of the operands waiting below, so the compiled code is
 right exactly if it declares none.
 */
module OperandBlocks {
  import opened Values
  import opened Bytecode
  import Machine
  import opened ScopeChains
  import opened TreeWalker
  import opened CodeGen
  import opened Slots
  import opened Unfoldings
  import opened CompilerCorrectness
  import opened CompilerTheorem
  import opened CodeShape
  import opened CodeHeights
  import CompiledScripts
  import Patterns

  /**
   A block or `match` that is compilable but for the locals it declares above `n` locals and an operand; `clear` if
   there are no other temporaries.
   */
  predicate Operand(e: Expr, n: nat, clear: bool) {
    match e
    case Block(stmts, tail) => Slotted(stmts, n, false, false) && CompilableOption(tail, n + Lets(stmts), false)
    case Match(scrutinee, arms) =>
      Compilable(scrutinee, n, false) && forall k :: 0 <= k < |arms| ==> CompilableArm(arms[k], n, clear)
    case Paren(e1) => Operand(e1, n, clear)
    case _ => false
  }

  /** How many locals it declares: a `match` always has one for what is matched. */
  function Taken(e: Expr): nat {
    match e
    case Block(stmts, _) => Lets(stmts)
    case Match(_, _) => 1
    case Paren(e1) => Taken(e1)
    case _ => 0
  }

  /** Without declarations the block is compilable under an operand. */
  lemma {:induction false} SlottedCompilable(stmts: seq<Stmt>, n: nat)
    requires Slotted(stmts, n, false, false) && Lets(stmts) == 0
    ensures CompilableStmts(stmts, n, false, false)
    decreases |stmts|
  {
    hide Compilable;
    if stmts != [] {
      SlottedCompilable(stmts[1..], n);
    }
  }

  lemma {:induction false} OperandCompilable(e: Expr, n: nat, clear: bool)
    requires Operand(e, n, clear) && Taken(e) == 0
    ensures Compilable(e, n, false)
  {
    if e.Block? {
      SlottedCompilable(e.stmts, n);
    } else if e.Paren? {
      OperandCompilable(e.e, n, clear);
    }
  }

  lemma OperandCases(e: Expr, n: nat, clear: bool, sc: Scope, pc: nat, consts: Pool)
    requires Operand(e, n, clear)
    ensures e.Block? || e.Match? || e.Paren?
    ensures e.Block? ==>
              && Slotted(e.stmts, n, false, false) && CompilableOption(e.tail, n + Lets(e.stmts), false)
              && Taken(e) == Lets(e.stmts)
    ensures e.Match? ==>
              && Compilable(e.scrutinee, n, false) && Taken(e) == 1
              && forall k :: 0 <= k < |e.arms| ==> CompilableArm(e.arms[k], n, clear)
    ensures e.Paren? ==>
              Operand(e.e, n, clear) && Taken(e) == Taken(e.e) && Gen(e, sc, pc, consts) == Gen(e.e, sc, pc, consts)
  {
    hide Compilable, CompilableArm, Slotted, Lets;
  }

  /** The heights of an operand that declares locals above another one. */
  lemma {:induction false} OperandHeights(pl: Place, e: Expr, sc: Scope, pc: nat, consts: Pool, h: nat, clear: bool)
    returns (hs: Heights)
    requires Operand(e, |sc.locals|, clear) && Loaded(pl, pc, Gen(e, sc, pc, consts)) && Roomy(sc, h, clear)
    ensures Sized(pl, hs, pc, h + 1, After(pc, Gen(e, sc, pc, consts).bytes, 0),
                  BlockHeight(h + 1, |sc.locals|, Taken(e)), map[])
    decreases e
  {
    hide *;
    OperandCases(e, |sc.locals|, clear, sc, pc, consts);
    RoomyAbove(sc, h, clear);
    RoomyMeans(sc, h, clear);
    match e
    case Block(_, _) => hs := BlockHeights(pl, e, sc, pc, consts, h + 1, false);
    case Match(_, _) => hs := MatchHeights(pl, e, sc, pc, consts, h + 1, false, clear);
    case Paren(e1) => hs := OperandHeights(pl, e1, sc, pc, consts, h, clear);
  }

  /** As `Sized`, for code that may not find what it needs. */
  ghost predicate Spans(pl: Place, hs: Heights, a: nat, ha: int, b: nat, hb: int) {
    Part(pl.chunk.code, pl.chunk.consts, hs, a, ha, b, hb, map[], false)
  }

  lemma SizedSpans(pl: Place, hs: Heights, a: nat, ha: nat, b: nat, hb: nat)
    requires Sized(pl, hs, a, ha, b, hb, map[])
    ensures Spans(pl, hs, a, ha, b, hb)
  {
    hide Part;
    PartWeakens(pl.chunk.code, pl.chunk.consts, hs, a, ha, b, hb, map[], map[], true, false);
  }

  lemma SpansJoin(pl: Place, hs1: Heights, hs2: Heights, a: nat, ha: int, b: nat, hb: int, c: nat, hc: int)
    returns (hs: Heights)
    requires Spans(pl, hs1, a, ha, b, hb) && Spans(pl, hs2, b, hb, c, hc)
    ensures Spans(pl, hs, a, ha, c, hc)
  {
    hide Part, Within;
    PartJoin(pl.chunk.code, pl.chunk.consts, hs1, hs2, a, ha, b, hb, c, hc, map[], false);
    hs := hs1 + hs2;
  }

  lemma OpSpans(pl: Place, pc: nat, op: BinOp, h: int) returns (hs: Heights)
    requires At(pl.chunk.code, pc, Plain(Strict(op))) && op !in {And, Or}
    ensures Spans(pl, hs, pc, h, pc + 1, h - 1)
  {
    hide At, Part;
    hs := PartInstr(pl.chunk.code, pl.chunk.consts, pc, Instr(Strict(op), 0, 0), h, h - 1, map[], false);
  }

  lemma StoreSpans(pl: Place, x: string, sc: Scope, pc: nat, consts: Pool, h: int) returns (hs: Heights)
    requires Loaded(pl, pc, Code(Store(sc, x, consts).bytes + Plain(PushNil), Store(sc, x, consts).consts))
    requires |sc.locals| <= 255
    ensures Spans(pl, hs, pc, h, pc + 3, h)
  {
    hide *;
    StoreParts(pl, x, sc, pc, consts);
    var s1 := StoredSpans(pl, x, sc, pc, consts, h);
    var s2 := NilSpans(pl, pc + 2, h - 1);
    hs := SpansJoin(pl, s1, s2, pc, h, pc + 2, h - 1, pc + 3, h);
  }

  lemma StoredSpans(pl: Place, x: string, sc: Scope, pc: nat, consts: Pool, h: int) returns (hs: Heights)
    requires Loaded(pl, pc, Store(sc, x, consts)) && |sc.locals| <= 255
    ensures Spans(pl, hs, pc, h, pc + 2, h - 1)
  {
    hide Spans, At;
    match Resolve(sc.locals, sc.depth, x)
    case Some(slot) => hs := ByteSpans(pl, pc, AssignLocal, slot, h);
    case None =>
      assert pl.chunk.consts.values[ConstIndex(consts, Str(x))] == Str(x);
      hs := ByteSpans(pl, pc, AssignGlobal, ConstIndex(consts, Str(x)), h);
  }

  lemma ByteSpans(pl: Place, pc: nat, op: OpCode, n: nat, h: int) returns (hs: Heights)
    requires op in {AssignLocal, AssignGlobal} && n < 256 && At(pl.chunk.code, pc, WithByte(op, n))
    ensures Spans(pl, hs, pc, h, pc + 2, h - 1)
  {
    hide Part, At;
    hs := PartInstr(pl.chunk.code, pl.chunk.consts, pc, Instr(op, n, 0), h, h - 1, map[], false);
  }

  lemma NilSpans(pl: Place, pc: nat, h: int) returns (hs: Heights)
    requires At(pl.chunk.code, pc, Plain(PushNil))
    ensures Spans(pl, hs, pc, h, pc + 1, h + 1)
  {
    hide At, Part;
    hs := PartInstr(pl.chunk.code, pl.chunk.consts, pc, Instr(PushNil, 0, 0), h, h + 1, map[], false);
  }

  // ----- the heights with a block above an operand -----

  /** `h` values and the left operand lie under an operand with `k` locals: what lies there at its end but one. */
  function Kept(h: nat, n: nat, k: nat): int {
    BlockHeight(h + 1, n, k) - 1
  }

  /** A value is missing exactly if the operand declares a local. */
  lemma KeptShort(h: nat, n: nat, k: nat)
    requires h >= n
    ensures Kept(h, n, k) == h + 1 <==> k == 0
    ensures k > 0 ==> Kept(h, n, k) <= h
  {
  }

  predicate OverBlock(e: Expr, n: nat, clear: bool) {
    e.Binary? && e.op !in {And, Or} && Compilable(e.lhs, n, clear) && Operand(e.rhs, n, clear)
  }

  lemma StrictSpans(pl: Place, e: Expr, sc: Scope, pc: nat, consts: Pool, h: nat, clear: bool) returns (hs: Heights)
    requires OverBlock(e, |sc.locals|, clear) && Loaded(pl, pc, Gen(e, sc, pc, consts)) && Roomy(sc, h, clear)
    ensures Spans(pl, hs, pc, h, After(pc, Gen(e, sc, pc, consts).bytes, 0), Kept(h, |sc.locals|, Taken(e.rhs)))
  {
    hide *;
    OverBlockParts(e, |sc.locals|, clear);
    GenStrict(e, sc, pc, consts);
    RoomyAbove(sc, h, clear);
    var n, k := |sc.locals|, Taken(e.rhs);
    var l := Gen(e.lhs, sc, pc, consts);
    var pc1 := After(pc, l.bytes, 0);
    var r := Gen(e.rhs, sc, pc1, l.consts);
    StrictParts(pl, pc, l, r, e.op);
    var pc2 := After(pc1, r.bytes, 0);
    var s1 := ExprHeights(pl, e.lhs, sc, pc, consts, h, clear);
    var s2 := OperandHeights(pl, e.rhs, sc, pc1, l.consts, h, clear);
    SizedSpans(pl, s1, pc, h, pc1, h + 1);
    SizedSpans(pl, s2, pc1, h + 1, pc2, BlockHeight(h + 1, n, k));
    var s3 := OpSpans(pl, pc2, e.op, BlockHeight(h + 1, n, k));
    KeptIs(h, n, k);
    hs := SpansJoin(pl, s1, s2, pc, h, pc1, h + 1, pc2, BlockHeight(h + 1, n, k));
    hs := SpansJoin(pl, hs, s3, pc, h, pc2, BlockHeight(h + 1, n, k), pc2 + 1, Kept(h, n, k));
  }

  lemma KeptIs(h: nat, n: nat, k: nat)
    ensures Kept(h, n, k) == BlockHeight(h + 1, n, k) - 1
  {
  }

  lemma OverBlockParts(e: Expr, n: nat, clear: bool)
    requires OverBlock(e, n, clear)
    ensures e.Binary? && e.op !in {And, Or} && Compilable(e.lhs, n, clear)
    ensures Operand(e.rhs, n, clear)
  {
    hide Compilable, Operand;
  }

  /** `x op= { … }` */
  predicate CompoundBlock(e: Expr, n: nat, clear: bool) {
    e.Compound? && e.x != SCRUTINEE && e.op !in {And, Or} && Operand(e.e, n, clear)
  }

  lemma CompoundBlockParts(e: Expr, n: nat, clear: bool)
    requires CompoundBlock(e, n, clear)
    ensures e.Compound? && e.op !in {And, Or}
    ensures Operand(e.e, n, clear)
  {
    hide Compilable, Operand;
  }

  lemma CompoundSpans(pl: Place, e: Expr, sc: Scope, pc: nat, consts: Pool, h: nat, clear: bool) returns (hs: Heights)
    requires CompoundBlock(e, |sc.locals|, clear) && Loaded(pl, pc, Gen(e, sc, pc, consts)) && Roomy(sc, h, clear)
    ensures Spans(pl, hs, pc, h, After(pc, Gen(e, sc, pc, consts).bytes, 0), Kept(h, |sc.locals|, Taken(e.e)))
  {
    hide *;
    CompoundBlockParts(e, |sc.locals|, clear);
    GenCompound(e, sc, pc, consts);
    RoomyAbove(sc, h, clear);
    RoomySmall(sc, h, clear);
    var n, k := |sc.locals|, Taken(e.e);
    var ld := Load(sc, e.x, consts);
    var pc1 := After(pc, ld.bytes, 0);
    var c := Gen(e.e, sc, pc1, ld.consts);
    var st := Store(sc, e.x, c.consts);
    AccessWidth(sc, e.x, pc, consts, c.consts);
    CompoundParts(pl, pc, ld, c, st, e.op);
    var pc2 := After(pc1, c.bytes, 0);
    var top: int := BlockHeight(h + 1, n, k);
    var s1 := LoadSized(pl, e.x, sc, pc, consts, h, clear);
    var s2 := OperandHeights(pl, e.e, sc, pc1, ld.consts, h, clear);
    SizedSpans(pl, s1, pc, h, pc1, h + 1);
    SizedSpans(pl, s2, pc1, h + 1, pc2, top);
    var s3 := OpSpans(pl, pc2, e.op, top);
    KeptIs(h, n, k);
    var s4 := StoreSpans(pl, e.x, sc, pc2 + 1, c.consts, top - 1);
    hs := SpansJoin(pl, s1, s2, pc, h, pc1, h + 1, pc2, top);
    hs := SpansJoin(pl, hs, s3, pc, h, pc2, top, pc2 + 1, top - 1);
    hs := SpansJoin(pl, hs, s4, pc, h, pc2 + 1, top - 1, pc2 + 4, top - 1);
  }

  lemma RoomySmall(sc: Scope, h: nat, clear: bool)
    requires Roomy(sc, h, clear)
    ensures |sc.locals| <= 255
  {
  }

  // ----- the code is too short by a value -----

  /** However code of known heights is run, it arrives at its end at the height computed for it. */
  lemma ArrivesAt(pl: Place, hs: Heights, pc: nat, h: int, end: nat, k: int, m: Machine.Vm, n: nat)
    requires Spans(pl, hs, pc, h, end, k) && m.ip == pc && |m.stack| == |pl.under| + h
    requires NotYet(pl.chunk, |pl.under|, m, end, n)
    ensures var r := Machine.Steps(pl.chunk, |pl.under|, m, n);
            r.Running? && r.vm.ip == end ==> |r.vm.stack| == |pl.under| + k
  {
    hide *;
    SpansMean(pl, hs, pc, h, end, k, m);
    RunsAtHeights(pl.chunk, |pl.under|, m, hs, end, false, n);
    StepsOnEnd(pl, Machine.Steps(pl.chunk, |pl.under|, m, n), hs, pc, end, k);
  }

  lemma SpansMean(pl: Place, hs: Heights, pc: nat, h: int, end: nat, k: int, m: Machine.Vm)
    requires Spans(pl, hs, pc, h, end, k) && m.ip == pc && |m.stack| == |pl.under| + h
    ensures Poised(pl.chunk, |pl.under|, m, hs, false) && Leads(hs, end, k) && Bounded(pl.chunk.code, hs, pc, end)
    ensures AllKeep(pl.chunk.code, pl.chunk.consts, hs, hs, end, false)
  {
    PartMeans(pl.chunk.code, pl.chunk.consts, hs, pc, h, end, k, map[], false);
    hide Part, Bounded, AllKeep, Tested;
  }

  lemma StepsOnEnd(pl: Place, r: Machine.Next, hs: Heights, pc: nat, end: nat, k: int)
    requires StepsOn(pl.chunk, |pl.under|, r, hs, false) && Leads(hs, end, k) && Bounded(pl.chunk.code, hs, pc, end)
    ensures r.Running? && r.vm.ip == end ==> |r.vm.stack| == |pl.under| + k
  {
    hide Bounded, Poised;
    if r.Running? && r.vm.ip == end {
      NotTestedAt(pl.chunk, |pl.under|, r.vm, hs, pc, end, false);
    }
  }

  /** An operator or compound assignment over a block or a `match`. */
  predicate Waiting(e: Expr, n: nat, clear: bool) {
    OverBlock(e, n, clear) || CompoundBlock(e, n, clear)
  }

  /** The locals declared above the operand or the current value that waits. */
  function Above(e: Expr): nat {
    match e
    case Binary(_, _, rhs) => Taken(rhs)
    case Compound(_, _, e1) => Taken(e1)
    case _ => 0
  }

  lemma WaitingIs(e: Expr, n: nat, clear: bool)
    requires Waiting(e, n, clear)
    ensures OverBlock(e, n, clear) || CompoundBlock(e, n, clear)
    ensures OverBlock(e, n, clear) ==> e.Binary? && Above(e) == Taken(e.rhs)
    ensures CompoundBlock(e, n, clear) ==> e.Compound? && Above(e) == Taken(e.e)
  {
    hide Compilable, Operand;
  }

  lemma WaitingSpans(pl: Place, e: Expr, sc: Scope, pc: nat, consts: Pool, h: nat, clear: bool) returns (hs: Heights)
    requires Waiting(e, |sc.locals|, clear) && Loaded(pl, pc, Gen(e, sc, pc, consts)) && Roomy(sc, h, clear)
    ensures Spans(pl, hs, pc, h, After(pc, Gen(e, sc, pc, consts).bytes, 0), Kept(h, |sc.locals|, Above(e)))
  {
    hide *;
    WaitingIs(e, |sc.locals|, clear);
    if e.Binary? {
      hs := StrictSpans(pl, e, sc, pc, consts, h, clear);
    } else {
      hs := CompoundSpans(pl, e, sc, pc, consts, h, clear);
    }
  }

  /**
   Whatever the left operand, the locals and the temporaries are, and whatever
   code follows: a run that comes to the end of an operator or a compound
   assignment over a block with declarations, or over a `match`, has at least
   one value too few.
   */
  lemma OperandOverwritten(pl: Place, e: Expr, sc: Scope, pc: nat, consts: Pool, m: Machine.Vm, h: nat, clear: bool,
                           n: nat)
    requires Waiting(e, |sc.locals|, clear) && Above(e) > 0
    requires Loaded(pl, pc, Gen(e, sc, pc, consts)) && Roomy(sc, h, clear)
    requires m.ip == pc && |m.stack| == |pl.under| + h
    ensures var end, r := After(pc, Gen(e, sc, pc, consts).bytes, 0), Machine.Steps(pl.chunk, |pl.under|, m, n);
            r.Running? && r.vm.ip == end && NotYet(pl.chunk, |pl.under|, m, end, n) ==> |r.vm.stack| <= |m.stack|
  {
    hide *;
    var end, k := After(pc, Gen(e, sc, pc, consts).bytes, 0), Above(e);
    var hs := WaitingSpans(pl, e, sc, pc, consts, h, clear);
    RoomyMeans(sc, h, clear);
    KeptShort(h, |sc.locals|, k);
    if NotYet(pl.chunk, |pl.under|, m, end, n) {
      ArrivesAt(pl, hs, pc, h, end, Kept(h, |sc.locals|, k), m, n);
    }
  }

  lemma RoomyMeans(sc: Scope, h: nat, clear: bool)
    requires Roomy(sc, h, clear)
    ensures h >= |sc.locals| && (clear ==> h == |sc.locals|)
  {
  }

  // ----- right exactly if the block declares nothing -----

  /** A run that pushed a value has come to the end with one value more. */
  lemma ValueArrives(pl: Place, m: Machine.Vm, r: Evaluation, sc: Scope, vals: seq<Value>, temps: seq<Value>, end: nat)
    returns (n: nat)
    requires r.Val? && Simulates(pl, m, r, sc, vals, temps, end)
    requires |pl.chunk.code| <= end
    ensures var s := Machine.Steps(pl.chunk, |pl.under|, m, n);
            && s.Running? && s.vm.ip == end && |s.vm.stack| == |pl.under| + |sc.locals| + |temps| + 1
            && NotYet(pl.chunk, |pl.under|, m, end, n)
  {
    hide Matches, Machine.Steps, NotYet;
    SimulatesVal(pl, m, r, sc, vals, temps, end);
    var last := Mach(pl, end, r.env, vals, temps + [r.v]);
    n :| Machine.Steps(pl.chunk, |pl.under|, m, n) == Machine.Running(last);
    NothingAfter(pl.chunk, |pl.under|, m, end, n);
  }

  lemma MatchesRoomy(pl: Place, env: Env, sc: Scope, vals: seq<Value>, temps: seq<Value>, pc: nat)
    requires Matches(pl, env, sc, vals)
    ensures env != [] && Roomy(sc, |sc.locals| + |temps|, temps == [])
    ensures var m := Mach(pl, pc, env, vals, temps);
            m.ip == pc && |m.stack| == |pl.under| + (|sc.locals| + |temps|)
  {
    MatchesNonempty(pl, env, sc, vals);
    hide Represents, Hidden;
  }

  /**
   For code with nothing behind it, in any scope and above any temporaries:
   where the tree-walker yields a value, so does the code exactly if the
   operand declares no local. Over a `match` it never does.
   */
  lemma RightIfNoneAbove(pl: Place, e: Expr, fuel: nat, env: Env, sc: Scope, pc: nat, consts: Pool, vals: seq<Value>,
                         temps: seq<Value>)
    requires Waiting(e, |sc.locals|, temps == []) && Matches(pl, env, sc, vals) && pl.budget <= fuel
    requires Loaded(pl, pc, Gen(e, sc, pc, consts)) && |pl.chunk.code| <= After(pc, Gen(e, sc, pc, consts).bytes, 0)
    requires env != [] && Eval(e, fuel, env).Val?
    ensures (exists vals': seq<Value> ::
               Simulates(pl, Mach(pl, pc, env, vals, temps), Eval(e, fuel, env), sc, vals', temps,
                         After(pc, Gen(e, sc, pc, consts).bytes, 0)))
            <==> Above(e) == 0
  {
    hide *;
    var m, r, end := Mach(pl, pc, env, vals, temps), Eval(e, fuel, env), After(pc, Gen(e, sc, pc, consts).bytes, 0);
    if Above(e) == 0 {
      WaitingCompilable(e, |sc.locals|, temps == []);
      var vals' := CompileExpr(pl, e, fuel, env, sc, pc, consts, vals, temps);
      assert Simulates(pl, m, r, sc, vals', temps, end);
    } else {
      forall vals': seq<Value>
        ensures !Simulates(pl, m, r, sc, vals', temps, end)
      {
        if Simulates(pl, m, r, sc, vals', temps, end) {
          MatchesRoomy(pl, env, sc, vals, temps, pc);
          var n := ValueArrives(pl, m, r, sc, vals', temps, end);
          OperandOverwritten(pl, e, sc, pc, consts, m, |sc.locals| + |temps|, temps == [], n);
        }
      }
    }
  }

  lemma WaitingCompilable(e: Expr, n: nat, clear: bool)
    requires Waiting(e, n, clear) && Above(e) == 0
    ensures Compilable(e, n, clear)
  {
    OperandCompilable(if e.Binary? then e.rhs else e.e, n, clear);
    hide Operand;
  }

  // ----- whole scripts -----

  /** A script with such a result never halts: where it would return, the stack is empty. */
  lemma NeverHalts(stmts: seq<Stmt>, e: Expr, globals: Frame, n: nat)
    requires CompiledScripts.FitsChunk(GenProgram(stmts, Some(e))) && CompilableStmts(stmts, 0, true, true)
    requires Waiting(e, 0, true) && Above(e) > 0
    ensures !CompiledScripts.ScriptSteps(stmts, Some(e), globals, n).Halted?
  {
    hide *;
    var c := GenProgram(stmts, Some(e));
    var pl := Place(Machine.Chunk(c.bytes, c.consts), [], [], [], 0);
    var m := Machine.Vm(0, [], globals, []);
    var end := ProgramEnd(stmts, Some(e), pl);
    CompiledScripts.ProgramParts(stmts, Some(e), pl);
    OptionIs(e, Scope([], 0), After(0, GenStmts(stmts, Scope([], 0), 0, EMPTY).0.bytes, 0),
             GenStmts(stmts, Scope([], 0), 0, EMPTY).0.consts);
    CompilableSlotted(stmts, 0, true, true);
    var sc, k := Scope([], 0), Above(e);
    FullRoom(sc);
    var (b, sc1) := GenStmts(stmts, sc, 0, EMPTY);
    var pc1 := After(0, b.bytes, 0);
    var s1, k1 := StmtsHeights(pl, stmts, sc, 0, EMPTY, 0, true);
    LeftMeans(sc, 0, true, sc1, k1);
    MaxZero();
    var s2 := WaitingSpans(pl, e, sc, pc1, b.consts, 0, true);
    SizedSpans(pl, s1, 0, 0, pc1, 0);
    KeptShort(0, 0, k);
    var hs := SpansJoin(pl, s1, s2, 0, 0, pc1, 0, end, Kept(0, 0, k));
    SpansReturn(pl, hs, end, Kept(0, 0, k), m);
    StepsOfScript(stmts, Some(e), globals, n);
    RunsToReturn(pl.chunk, m, hs, end, false, n);
  }

  lemma OptionIs(e: Expr, sc: Scope, pc: nat, consts: Pool)
    ensures GenOption(Some(e), sc, pc, consts) == Gen(e, sc, pc, consts)
  {
    hide Gen;
  }

  lemma SpansReturn(pl: Place, hs: Heights, end: nat, k: int, m: Machine.Vm)
    requires Spans(pl, hs, 0, 0, end, k) && m.ip == 0 && m.stack == [] && pl.under == []
    requires At(pl.chunk.code, end, Plain(ReturnTop))
    ensures AllKeep(pl.chunk.code, pl.chunk.consts, hs, hs, end, false) && Poised(pl.chunk, 0, m, hs, false)
    ensures Bounded(pl.chunk.code, hs, 0, end) && At(pl.chunk.code, end, Encode(Instr(ReturnTop, 0, 0)))
    ensures end in hs && hs[end] == k
  {
    SpansMean(pl, hs, 0, 0, end, k, m);
    hide Spans, AllKeep, Bounded, At, Encode, Tested;
  }

  /**
   A whole script that ends in such an operator, and which the tree-walker runs
   to a value: compiled, it halts with that value and the same globals exactly
   if the operand declares no local.
   */
  lemma ScriptRightIfNoneAbove(stmts: seq<Stmt>, e: Expr, fuel: nat, globals: Frame)
    requires CompiledScripts.FitsChunk(GenProgram(stmts, Some(e))) && CompilableStmts(stmts, 0, true, true)
    requires Waiting(e, 0, true) && RunProgram(stmts, Some(e), fuel, globals).Val?
    ensures var r := RunProgram(stmts, Some(e), fuel, globals);
            CompiledScripts.RunsAlike(stmts, Some(e), fuel, globals, r) <==> Above(e) == 0
  {
    hide *;
    var r := RunProgram(stmts, Some(e), fuel, globals);
    if Above(e) == 0 {
      WaitingCompilable(e, 0, true);
      OptionCompilable(e);
      CompiledScripts.ScriptCorrect(stmts, Some(e), fuel, globals);
    } else if CompiledScripts.RunsAlike(stmts, Some(e), fuel, globals, r) {
      var n := HaltsAfter(stmts, e, fuel, globals);
      NeverHalts(stmts, e, globals, n);
    }
  }

  lemma OptionCompilable(e: Expr)
    requires Compilable(e, 0, true)
    ensures CompilableOption(Some(e), 0, true)
  {
    hide Compilable;
  }

  lemma HaltsAfter(stmts: seq<Stmt>, e: Expr, fuel: nat, globals: Frame) returns (n: nat)
    requires var r := RunProgram(stmts, Some(e), fuel, globals);
             r.Val? && CompiledScripts.RunsAlike(stmts, Some(e), fuel, globals, r)
    ensures CompiledScripts.ScriptSteps(stmts, Some(e), globals, n).Halted?
  {
    hide GenProgram, Machine.Steps, RunProgram;
    var r, c := RunProgram(stmts, Some(e), fuel, globals), GenProgram(stmts, Some(e));
    n :| Machine.Steps(Machine.Chunk(c.bytes, c.consts), 0, Machine.Vm(0, [], globals, []), n) ==
           Machine.Halted(r.v, r.env[0]);
  }

  // ----- an example -----

  /** `1 + { let x = 2; x }` */
  function OnePlusBlock(): Expr {
    Binary(Add, Literal(Int(1)), Block([Let("x", Literal(Int(2)))], Some(Ident("x"))))
  }

  /** The tree-walker yields 3; the machine takes the operand for the local and runs out of operands. */
  lemma OnePlusBlockDiverges()
    ensures RunProgram([], Some(OnePlusBlock()), 0, map[]) == Val(Int(3), [map[]])
    ensures CompiledScripts.ScriptRuns([], Some(OnePlusBlock()), map[], Machine.Crashed)
  {
    hide *;
    var e := OnePlusBlock();
    OnePlusBlockSum(e);
    OnePlusBlockCode();
    CrashRuns();
    RunsOfScript(e);
  }

  lemma OnePlusBlockSum(e: Expr)
    requires e == OnePlusBlock()
    ensures RunProgram([], Some(e), 0, map[]) == Val(Int(3), [map[]])
  {
    BlockYieldsTwo(e.rhs);
    EvalStrict(e, 0, [map[]]);
  }

  lemma BlockYieldsTwo(e: Expr)
    requires e == OnePlusBlock().rhs
    ensures Eval(e, 0, [map[]]) == Val(Int(2), [map[]])
  {
    var inner, s: Stmt := [map[]] + [map[]], e.stmts[0];
    var bound := Define(inner, "x", Int(2));
    EvalBlock(e, 0, [map[]]);
    EvalStmtsStep(e.stmts, 0, inner);
    assert EvalStmt(s, 0, inner) == Val(Nil, bound);
    assert e.stmts[1..] == [];
    assert Get(bound, "x") == Some(Int(2)) && bound[..1] == [map[]];
  }

  /** `Const 0; Const 1; StoreLocal 0; LoadLocal 0; PopLocalKeep 1; Add; ReturnTop` */
  function CrashCode(): Code {
    Code([3, 0] + [3, 1] + [5, 0] + [4, 0] + [16, 1] + [21] + [43], Pool([Int(1), Int(2)], []))
  }

  lemma OnePlusBlockCode()
    ensures GenProgram([], Some(OnePlusBlock())) == CrashCode()
  {
    hide *;
    var e, sc := OnePlusBlock(), Scope([], 0);
    ProgramOf(e);
    LeftCode();
    BlockCode();
    GenStrict(e, sc, 0, EMPTY);
    Assembled();
  }

  lemma ProgramOf(e: Expr)
    ensures var c := Gen(e, Scope([], 0), 0, EMPTY);
            GenProgram([], Some(e)) == Code(Join3([], c.bytes, Plain(ReturnTop)), c.consts)
  {
    hide Gen;
  }

  lemma LeftCode()
    ensures var e := OnePlusBlock();
            && e.Binary? && e.op == Add
            && Gen(e.lhs, Scope([], 0), 0, EMPTY) == Code([3, 0], Pool([Int(1)], [])) && After(0, [3, 0], 0) == 2
  {
  }

  lemma BlockCode()
    ensures Gen(OnePlusBlock().rhs, Scope([], 0), 2, Pool([Int(1)], [])) ==
              Code([3, 1] + [5, 0] + [4, 0] + [16, 1], Pool([Int(1), Int(2)], []))
  {
    hide *;
    BlockIs(OnePlusBlock());
    var block, sc1, consts := OnePlusBlock().rhs, Scope([], 1), Pool([Int(1)], []);
    GenBlock(block, Scope([], 0), 2, consts);
    GenStmtsStep(block.stmts, sc1, 2, consts);
    TwoCode(block.stmts[0], sc1, consts);
    var sc2, consts2 := Scope([Local("x", 1)], 1), Pool([Int(1), Int(2)], []);
    NoStmts(sc2, 6, consts2);
    TailCode(sc2, consts2);
    BlockBytes();
  }

  lemma BlockIs(e: Expr)
    requires e == OnePlusBlock()
    ensures e.Binary?
    ensures var block := e.rhs;
            block.Block? && block.stmts == [Let("x", Literal(Int(2)))] && block.tail == Some(Ident("x"))
            && block.stmts[1..] == []
  {
  }

  lemma TailCode(sc: Scope, consts: Pool)
    requires sc == Scope([Local("x", 1)], 1)
    ensures GenOption(Some(Ident("x")), sc, 6, consts) == Code([4, 0], consts)
  {
    assert Resolve(sc.locals, 1, "x") == Some(0);
  }

  lemma BlockBytes()
    ensures Join3([3, 1] + [5, 0], [], []) == [3, 1] + [5, 0]
    ensures DropLocals(1) == [16, 1] && After(2, [3, 1] + [5, 0], 0) == 6
    ensures Join3([3, 1] + [5, 0], [4, 0], [16, 1]) == [3, 1] + [5, 0] + [4, 0] + [16, 1]
  {
  }

  lemma TwoCode(s: Stmt, sc: Scope, consts: Pool)
    requires s == Let("x", Literal(Int(2))) && sc == Scope([], 1) && consts == Pool([Int(1)], [])
    ensures GenStmt(s, sc, 2, consts) ==
              (Code([3, 1] + [5, 0], Pool([Int(1), Int(2)], [])), Scope([Local("x", 1)], 1))
    ensures After(2, [3, 1] + [5, 0], 0) == 6
  {
    hide *;
    StmtCode(s, sc, 2, consts);
    TwoConst(consts);
    TwoBytes();
  }

  lemma TwoConst(consts: Pool)
    requires consts == Pool([Int(1)], [])
    ensures Gen(Literal(Int(2)), Scope([], 1), 2, consts) == Code([3, 1], Pool([Int(1), Int(2)], []))
  {
    assert consts.values[1..] == [];
    assert ConstIndex(consts, Int(2)) == 1;
  }

  lemma TwoBytes()
    ensures WithByte(StoreLocal, 0) == [5, 0] && Join3([3, 1], [5, 0], []) == [3, 1] + [5, 0]
    ensures [] + [Local("x", 1)] == [Local("x", 1)] && After(2, [3, 1] + [5, 0], 0) == 6
  {
  }

  lemma Assembled()
    ensures Join3([3, 0], [3, 1] + [5, 0] + [4, 0] + [16, 1], Plain(Strict(Add))) ==
              [3, 0] + [3, 1] + [5, 0] + [4, 0] + [16, 1] + [21]
    ensures Join3([], [3, 0] + [3, 1] + [5, 0] + [4, 0] + [16, 1] + [21], Plain(ReturnTop)) == CrashCode().bytes
    ensures CrashCode().consts == Pool([Int(1), Int(2)], [])
  {
    var all: seq<byte> := [3, 0] + [3, 1] + [5, 0] + [4, 0] + [16, 1] + [21];
    assert Plain(Strict(Add)) == [21] && Plain(ReturnTop) == [43];
    assert all == [3, 0, 3, 1, 5, 0, 4, 0, 16, 1, 21];
    var block: seq<byte> := [3, 1] + [5, 0] + [4, 0] + [16, 1];
    assert block == [3, 1, 5, 0, 4, 0, 16, 1];
    assert Join3([3, 0], block, [21]) == all;
    assert Join3([], all, [43]) == all + [43];
  }

  lemma DecodesByte(code: seq<byte>, pc: nat, op: OpCode)
    requires pc + 1 < |code| && code[pc] == OpByte(op) && OperandBytes(op) == 1 && HasOpcode(op)
    ensures Decode(code, pc) == Some((Instr(op, code[pc + 1], 0), pc + 2))
  {
    OpRoundTrip(op);
    hide OpOf, OpByte;
  }

  lemma CrashBytes()
    ensures CrashCode().bytes == [3, 0, 3, 1, 5, 0, 4, 0, 16, 1, 21, 43]
    ensures CrashCode().consts.values == [Int(1), Int(2)]
    ensures OpByte(Const) == 3 && OpByte(StoreLocal) == 5 && OpByte(LoadLocal) == 4 && OpByte(PopLocalKeep) == 16
    ensures forall op :: op in {Const, StoreLocal, LoadLocal, PopLocalKeep} ==> OperandBytes(op) == 1 && HasOpcode(op)
  {
  }

  /** The instructions of the example, read from its bytes. */
  lemma CrashDecodes()
    ensures var code := CrashCode().bytes;
            && Decode(code, 0) == Some((Instr(Const, 0, 0), 2)) && Decode(code, 2) == Some((Instr(Const, 1, 0), 4))
            && Decode(code, 4) == Some((Instr(StoreLocal, 0, 0), 6))
            && Decode(code, 6) == Some((Instr(LoadLocal, 0, 0), 8))
            && Decode(code, 8) == Some((Instr(PopLocalKeep, 1, 0), 10))
            && Decode(code, 10) == Some((Instr(Strict(Add), 0, 0), 11))
  {
    hide *;
    var code := CrashCode().bytes;
    CrashBytes();
    DecodesByte(code, 0, Const);
    DecodesByte(code, 2, Const);
    DecodesByte(code, 4, StoreLocal);
    DecodesByte(code, 6, LoadLocal);
    DecodesByte(code, 8, PopLocalKeep);
    DecodesAdd(code, 10);
  }

  lemma DecodesAdd(code: seq<byte>, pc: nat)
    requires pc < |code| && code[pc] == 21
    ensures Decode(code, pc) == Some((Instr(Strict(Add), 0, 0), pc + 1))
  {
  }

  lemma OneStep(chunk: Machine.Chunk, m: Machine.Vm, i: Instr, next: nat, n: nat, end: Machine.Next)
    requires Decode(chunk.code, m.ip) == Some((i, next))
    requires var r := Machine.Exec(chunk, 0, i, m.(ip := next));
             if r.Running? then Machine.Steps(chunk, 0, r.vm, n) == end else r == end
    ensures Machine.Steps(chunk, 0, m, n + 1) == end
  {
    hide Decode, Machine.Exec;
  }

  /** What the instructions of the example do. */
  lemma CrashLoads(chunk: Machine.Chunk)
    requires chunk.consts.values == [Int(1), Int(2)]
    ensures Machine.Exec(chunk, 0, Instr(Const, 0, 0), Machine.Vm(2, [], map[], [])) ==
              Machine.Running(Machine.Vm(2, [Int(1)], map[], []))
    ensures Machine.Exec(chunk, 0, Instr(Const, 1, 0), Machine.Vm(4, [Int(1)], map[], [])) ==
              Machine.Running(Machine.Vm(4, [Int(1), Int(2)], map[], []))
    ensures Machine.Exec(chunk, 0, Instr(LoadLocal, 0, 0), Machine.Vm(8, [Int(2)], map[], [])) ==
              Machine.Running(Machine.Vm(8, [Int(2), Int(2)], map[], []))
  {
    hide Machine.ExecPlain, Machine.ExecStore, Machine.ExecJump;
  }

  /** The operator takes its right operand and finds no left one. */
  lemma CrashAdds(chunk: Machine.Chunk)
    ensures Machine.Exec(chunk, 0, Instr(Strict(Add), 0, 0), Machine.Vm(11, [Int(2)], map[], [])) == Machine.Crashed
  {
    hide ApplyBinOp, ApplyUnary, Machine.ExecByte, Machine.ExecJump;
  }

  /** The declaration overwrites the operand, and the end of the block drops what was copied. */
  lemma CrashStores(chunk: Machine.Chunk)
    ensures Machine.Exec(chunk, 0, Instr(StoreLocal, 0, 0), Machine.Vm(6, [Int(1), Int(2)], map[], [])) ==
              Machine.Running(Machine.Vm(6, [Int(2)], map[], []))
    ensures Machine.Exec(chunk, 0, Instr(PopLocalKeep, 1, 0), Machine.Vm(10, [Int(2), Int(2)], map[], [])) ==
              Machine.Running(Machine.Vm(10, [Int(2)], map[], []))
  {
    hide ApplyBinOp, ApplyUnary, Patterns.MatchVm;
  }

  lemma CrashRuns()
    ensures var c := CrashCode();
            Machine.Runs(Machine.Chunk(c.bytes, c.consts), 0, Machine.Vm(0, [], map[], []), Machine.Crashed)
  {
    hide *;
    var c := CrashCode();
    var chunk := Machine.Chunk(c.bytes, c.consts);
    CrashBytes();
    CrashDecodes();
    CrashLoads(chunk);
    CrashAdds(chunk);
    CrashStores(chunk);
    OneStep(chunk, Machine.Vm(10, [Int(2)], map[], []), Instr(Strict(Add), 0, 0), 11, 0, Machine.Crashed);
    OneStep(chunk, Machine.Vm(8, [Int(2), Int(2)], map[], []), Instr(PopLocalKeep, 1, 0), 10, 1, Machine.Crashed);
    OneStep(chunk, Machine.Vm(6, [Int(2)], map[], []), Instr(LoadLocal, 0, 0), 8, 2, Machine.Crashed);
    OneStep(chunk, Machine.Vm(4, [Int(1), Int(2)], map[], []), Instr(StoreLocal, 0, 0), 6, 3, Machine.Crashed);
    OneStep(chunk, Machine.Vm(2, [Int(1)], map[], []), Instr(Const, 1, 0), 4, 4, Machine.Crashed);
    OneStep(chunk, Machine.Vm(0, [], map[], []), Instr(Const, 0, 0), 2, 5, Machine.Crashed);
    StepsRun(chunk, Machine.Vm(0, [], map[], []), 6, Machine.Crashed);
  }

  lemma StepsRun(chunk: Machine.Chunk, m: Machine.Vm, n: nat, end: Machine.Next)
    requires Machine.Steps(chunk, 0, m, n) == end
    ensures Machine.Runs(chunk, 0, m, end)
  {
    hide Machine.Steps;
  }

  lemma RunsOfScript(e: Expr)
    requires GenProgram([], Some(e)) == CrashCode()
    requires var c := CrashCode();
             Machine.Runs(Machine.Chunk(c.bytes, c.consts), 0, Machine.Vm(0, [], map[], []), Machine.Crashed)
    ensures CompiledScripts.ScriptRuns([], Some(e), map[], Machine.Crashed)
  {
    hide GenProgram, Machine.Runs, CrashCode;
  }
}
