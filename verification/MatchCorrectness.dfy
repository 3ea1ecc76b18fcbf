/**
 `match` on the machine: what is matched becomes a local without a name, each
 arm tests a copy of it, binds what the pattern binds, and gives the bindings
 back (`compile_match` in `src/compiler/mod.rs`).
 */
module MatchCorrectness {
  import opened Values
  import opened Bytecode
  import Machine
  import opened ScopeChains
  import opened TreeWalker
  import opened CodeGen
  import opened Slots
  import opened CompilerCorrectness
  import Patterns

  // ----- where the parts of a match are -----

  lemma AtSplit4(code: seq<byte>, pc: nat, a: seq<byte>, b: seq<byte>, c: seq<byte>, d: seq<byte>)
    requires At(code, pc, a + (b + (c + d)))
    ensures At(code, pc, a) && At(code, pc + |a|, b) && At(code, pc + |a| + |b|, c)
    ensures At(code, pc + |a| + |b| + |c|, d)
  {
    hide At;
    AtConcat(code, pc, a, b + (c + d));
    AtConcat(code, pc + |a|, b, c + d);
    AtConcat(code, pc + |a| + |b|, c, d);
  }

  lemma AtSplit2(code: seq<byte>, pc: nat, a: seq<byte>, b: seq<byte>)
    requires At(code, pc, a + b)
    ensures At(code, pc, a) && At(code, pc + |a|, b)
  {
    hide At;
    AtConcat(code, pc, a, b);
  }

  lemma ByteWidth(op: OpCode, n: nat)
    requires OperandBytes(op) == 1
    ensures |WithByte(op, n)| == 2
  {
  }

  /** The scrutinee at `pc`, the arms from `armsPc`, and `end` after the nil that stands for no arm. */
  lemma MatchParts(pl: Place, pc: nat, c: Code, slot: nat, arms: seq<ArmCode>, consts: Pool)
    requires Loaded(pl, pc, Code(JoinMatch(c.bytes, slot, arms, pc), consts)) && Extends(c.consts, consts)
    ensures var pc1 := After(pc, c.bytes, 0);
            var armsPc := pc1 + 2;
            var end := armsPc + ArmsWidth(arms) + 1;
            && Loaded(pl, pc, c) && After(pc, c.bytes, 2) == armsPc
            && At(pl.chunk.code, pc1, WithByte(StoreLocal, slot))
            && At(pl.chunk.code, armsPc, JoinArms(slot, arms, armsPc, end))
            && At(pl.chunk.code, end - 1, Plain(PushNil)) && At(pl.chunk.code, end, WithByte(PopLocalKeep, 1))
            && After(pc, JoinMatch(c.bytes, slot, arms, pc), 0) == end + 2 < 65536
  {
    hide *;
    AfterIs(pc, c.bytes, 0);
    AfterIs(pc, c.bytes, 2);
    AfterIs(pc, JoinMatch(c.bytes, slot, arms, pc), 0);
    LoadedInside(pl, pc, c, Code(JoinMatch(c.bytes, slot, arms, pc), consts));
    MatchPieces(pl.chunk.code, pc, c.bytes, slot, arms);
    LoadedFirst(pl, pc, c, Code(JoinMatch(c.bytes, slot, arms, pc), consts));
  }

  lemma MatchPieces(code: seq<byte>, pc: nat, c: seq<byte>, slot: nat, arms: seq<ArmCode>)
    requires At(code, pc, JoinMatch(c, slot, arms, pc))
    ensures var armsPc := pc + |c| + 2;
            var end := armsPc + ArmsWidth(arms) + 1;
            && At(code, pc, c) && At(code, pc + |c|, WithByte(StoreLocal, slot))
            && At(code, armsPc, JoinArms(slot, arms, armsPc, end))
            && At(code, end - 1, Plain(PushNil)) && At(code, end, WithByte(PopLocalKeep, 1))
    ensures |JoinMatch(c, slot, arms, pc)| == |c| + ArmsWidth(arms) + 5
  {
    hide *;
    MatchLayout(c, slot, arms, pc);
    var armsPc := pc + |c| + 2;
    var end := armsPc + ArmsWidth(arms) + 1;
    Pieces(code, pc, JoinMatch(c, slot, arms, pc), c, WithByte(StoreLocal, slot), JoinArms(slot, arms, armsPc, end),
           Plain(PushNil), WithByte(PopLocalKeep, 1), armsPc, end);
  }

  lemma Pieces(code: seq<byte>, pc: nat, whole: seq<byte>, a: seq<byte>, b: seq<byte>, c: seq<byte>, d: seq<byte>,
               e: seq<byte>, cPc: nat, ePc: nat)
    requires At(code, pc, whole) && whole == a + (b + (c + (d + e)))
    requires |b| == 2 && |d| == 1 && cPc == pc + |a| + 2 && ePc == cPc + |c| + 1
    ensures At(code, pc, a) && At(code, pc + |a|, b) && At(code, cPc, c)
    ensures At(code, ePc - 1, d) && At(code, ePc, e)
  {
    hide *;
    AtSplit5(code, pc, a, b, c, d, e);
  }

  lemma MatchLayout(c: seq<byte>, slot: nat, arms: seq<ArmCode>, pc: nat)
    ensures var armsPc := pc + |c| + 2;
            var end := armsPc + ArmsWidth(arms) + 1;
            JoinMatch(c, slot, arms, pc) ==
              c + (WithByte(StoreLocal, slot)
                   + (JoinArms(slot, arms, armsPc, end) + (Plain(PushNil) + WithByte(PopLocalKeep, 1))))
    ensures |JoinMatch(c, slot, arms, pc)| == |c| + ArmsWidth(arms) + 5
    ensures |Plain(PushNil)| == 1 && |WithByte(StoreLocal, slot)| == 2
  {
    hide JoinArms, ArmsWidth;
    ByteWidth(StoreLocal, slot);
  }

  lemma AfterIs(pc: nat, bytes: seq<byte>, gap: nat)
    ensures After(pc, bytes, gap) == pc + |bytes| + gap
  {
  }

  lemma LoadedInside(pl: Place, pc: nat, c: Code, all: Code)
    requires Loaded(pl, pc, all)
    ensures At(pl.chunk.code, pc, all.bytes) && pc + |all.bytes| < 65536
  {
  }

  lemma LoadedFirst(pl: Place, pc: nat, c: Code, all: Code)
    requires Loaded(pl, pc, all) && At(pl.chunk.code, pc, c.bytes) && Extends(c.consts, all.consts)
    ensures Loaded(pl, pc, c)
  {
    hide At;
  }

  /** The first arm and the others. */
  lemma ArmsParts(code: seq<byte>, slot: nat, arms: seq<ArmCode>, pc: nat, end: nat)
    requires arms != [] && At(code, pc, JoinArms(slot, arms, pc, end))
    ensures var next := pc + ArmWidth(arms[0]);
            && At(code, pc, JoinArm(slot, arms[0], pc, end))
            && At(code, next, JoinArms(slot, arms[1..], next, end))
            && next + ArmsWidth(arms[1..]) == pc + ArmsWidth(arms)
  {
    hide *;
    ArmsLayout(slot, arms, pc, end);
    AtSplit2(code, pc, JoinArm(slot, arms[0], pc, end), JoinArms(slot, arms[1..], pc + ArmWidth(arms[0]), end));
  }

  lemma ArmsLayout(slot: nat, arms: seq<ArmCode>, pc: nat, end: nat)
    requires arms != []
    ensures var next := pc + ArmWidth(arms[0]);
            && JoinArms(slot, arms, pc, end) == JoinArm(slot, arms[0], pc, end) + JoinArms(slot, arms[1..], next, end)
            && ArmsWidth(arms) == ArmWidth(arms[0]) + ArmsWidth(arms[1..])
  {
    hide JoinArm, ArmWidth;
  }

  lemma ArmParts(code: seq<byte>, slot: nat, a: ArmCode, pc: nat, end: nat)
    requires At(code, pc, JoinArm(slot, a, pc, end))
    ensures var next := pc + ArmWidth(a);
            && At(code, pc, WithByte(LoadLocal, slot)) && At(code, pc + 2, WithByte(OpCode.Match, a.test))
            && At(code, pc + 4, WithAddr(JumpIfFalse, next))
            && At(code, pc + 7, JoinGuarded(a, next, end))
  {
    hide *;
    var next := pc + ArmWidth(a);
    OneByte();
    ByteWidth(LoadLocal, slot);
    ByteWidth(OpCode.Match, a.test);
    AddrWidth(JumpIfFalse, next);
    ArmLayout(slot, a, pc, end);
    AtSplit4(code, pc, WithByte(LoadLocal, slot), WithByte(OpCode.Match, a.test), WithAddr(JumpIfFalse, next),
             JoinGuarded(a, next, end));
  }

  lemma OneByte()
    ensures forall op :: op in {LoadLocal, OpCode.Match, PopLocalKeep, PopN} ==> OperandBytes(op) == 1
    ensures OperandBytes(JumpIfFalse) == 2 && OperandBytes(Jump) == 2
  {
  }

  lemma AddrWidth(op: OpCode, addr: nat)
    requires OperandBytes(op) == 2
    ensures |WithAddr(op, addr)| == 3
  {
  }

  lemma ArmLayout(slot: nat, a: ArmCode, pc: nat, end: nat)
    ensures ArmWidth(a) >= 12
    ensures var next := pc + ArmWidth(a);
            JoinArm(slot, a, pc, end) ==
              WithByte(LoadLocal, slot)
              + (WithByte(OpCode.Match, a.test) + (WithAddr(JumpIfFalse, next) + JoinGuarded(a, next, end)))
  {
    hide WithByte, WithAddr, JoinGuarded;
  }

  /** Where the body is, and where the guard is if there is one. */
  function BodyPc(a: ArmCode, pc: nat): nat {
    match a.guard
    case None => pc + 7
    case Some(g) => pc + 10 + |g|
  }

  lemma GuardParts(code: seq<byte>, a: ArmCode, pc: nat, end: nat)
    requires At(code, pc + 7, JoinGuarded(a, pc + ArmWidth(a), end))
    ensures var next, bodyEnd := pc + ArmWidth(a), BodyPc(a, pc) + |a.body|;
            && At(code, BodyPc(a, pc), a.body)
            && At(code, bodyEnd, WithByte(PopLocalKeep, a.names)) && At(code, bodyEnd + 2, WithAddr(Jump, end))
            && (a.guard.Some? ==>
                  && At(code, pc + 7, a.guard.value)
                  && At(code, pc + 7 + |a.guard.value|, WithAddr(JumpIfFalse, next - 2))
                  && At(code, next - 2, WithByte(PopN, a.names)))
  {
    hide *;
    OneByte();
    ByteWidth(PopLocalKeep, a.names);
    ByteWidth(PopN, a.names);
    AddrWidth(Jump, end);
    BodyLayout(a, pc, end);
    if a.guard.None? {
      AtSplit3Plain(code, pc + 7, a.body, WithByte(PopLocalKeep, a.names), WithAddr(Jump, end));
    } else {
      var next := pc + ArmWidth(a);
      AddrWidth(JumpIfFalse, next - 2);
      AtSplit4(code, pc + 7, a.guard.value, WithAddr(JumpIfFalse, next - 2), JoinBody(a, end), WithByte(PopN, a.names));
      AtSplit3Plain(code, BodyPc(a, pc), a.body, WithByte(PopLocalKeep, a.names), WithAddr(Jump, end));
    }
  }

  lemma AtSplit3Plain(code: seq<byte>, pc: nat, a: seq<byte>, b: seq<byte>, c: seq<byte>)
    requires At(code, pc, a + (b + c))
    ensures At(code, pc, a) && At(code, pc + |a|, b) && At(code, pc + |a| + |b|, c)
  {
    hide At;
    AtConcat(code, pc, a, b + c);
    AtConcat(code, pc + |a|, b, c);
  }

  lemma BodyLayout(a: ArmCode, pc: nat, end: nat)
    ensures JoinBody(a, end) == a.body + (WithByte(PopLocalKeep, a.names) + WithAddr(Jump, end))
    ensures ArmWidth(a) >= 12
    ensures a.guard.None? ==>
              && BodyPc(a, pc) == pc + 7 && ArmWidth(a) == |a.body| + 12
              && JoinGuarded(a, pc + ArmWidth(a), end) == JoinBody(a, end)
    ensures a.guard.Some? ==>
              && BodyPc(a, pc) == pc + 10 + |a.guard.value| && ArmWidth(a) == |a.guard.value| + |a.body| + 17
              && JoinGuarded(a, pc + ArmWidth(a), end) ==
                   a.guard.value
                   + (WithAddr(JumpIfFalse, pc + ArmWidth(a) - 2) + (JoinBody(a, end) + WithByte(PopN, a.names)))
  {
    hide WithByte, WithAddr;
  }

  // ----- steps of an arm -----

  /** What is matched moves to its slot, which is where it is. */
  lemma ScrutineeStored(pl: Place, pc: nat, env: Env, vals: seq<Value>, v: Value)
    requires env != [] && |vals| < 256 && At(pl.chunk.code, pc, WithByte(StoreLocal, |vals|))
    ensures Runs(pl, Mach(pl, pc, env, vals, [] + [v]), Machine.Running(Mach(pl, pc + 2, env, vals, [v])))
  {
    StoreLocalGrows(pl, pc, env, vals, v);
    hide Runs;
    assert pl.under + (vals + [v]) + [] == pl.under + vals + [v];
  }

  lemma ScrutineeLoaded(pl: Place, pc: nat, env: Env, vals: seq<Value>, v: Value)
    requires env != [] && |vals| < 256 && At(pl.chunk.code, pc, WithByte(LoadLocal, |vals|))
    ensures Runs(pl, Mach(pl, pc, env, vals, [v]), Machine.Running(Mach(pl, pc + 2, env, vals, [v] + [v])))
  {
    hide Machine.Runs;
    var m := Mach(pl, pc, env, vals, [v]);
    assert m.stack[|pl.under| + |vals|] == v;
    Top(pl.under, vals, [v], v);
    RunByte(pl, m, LoadLocal, |vals|);
  }

  /** The test leaves true above the bindings, or false. */
  lemma TestRuns(pl: Place, pc: nat, test: nat, p: Patterns.Pattern, env: Env, vals: seq<Value>, v: Value)
    requires env != [] && test < 256 && test < |pl.chunk.consts.patterns| && pl.chunk.consts.patterns[test] == p
    requires At(pl.chunk.code, pc, WithByte(OpCode.Match, test))
    ensures var r := Patterns.MatchVm(p, v, []);
            Runs(pl, Mach(pl, pc, env, vals, [v] + [v]),
                 Machine.Running(Mach(pl, pc + 2, env, vals,
                                      if r.0 then [v] + r.1 + [Bool(true)] else [v] + [Bool(false)])))
  {
    hide *;
    var m := Mach(pl, pc, env, vals, [v] + [v]);
    MachIp(pl, pc, env, vals, [v] + [v]);
    RunByte(pl, m, OpCode.Match, test);
    TestEffect(pl, pc, test, p, env, vals, v);
  }

  lemma MachIp(pl: Place, pc: nat, env: Env, vals: seq<Value>, temps: seq<Value>)
    requires env != []
    ensures Mach(pl, pc, env, vals, temps).ip == pc && OperandBytes(OpCode.Match) == 1
  {
  }

  lemma TestEffect(pl: Place, pc: nat, test: nat, p: Patterns.Pattern, env: Env, vals: seq<Value>, v: Value)
    requires env != [] && test < |pl.chunk.consts.patterns| && pl.chunk.consts.patterns[test] == p
    ensures var r, m := Patterns.MatchVm(p, v, []), Mach(pl, pc, env, vals, [v] + [v]);
            Machine.ExecByte(pl.chunk, |pl.under|, OpCode.Match, test, m.(ip := pc + 2)) ==
              Machine.Running(Mach(pl, pc + 2, env, vals,
                                   if r.0 then [v] + r.1 + [Bool(true)] else [v] + [Bool(false)]))
  {
    hide Patterns.MatchVm;
    var r := Patterns.MatchVm(p, v, []);
    Top(pl.under, vals, [v], v);
    var stack := pl.under + vals + [v];
    assert stack + r.1 + [Bool(true)] == pl.under + vals + ([v] + r.1 + [Bool(true)]);
    assert stack + [Bool(false)] == pl.under + vals + ([v] + [Bool(false)]);
  }

  lemma Booleans()
    ensures Truthy(Bool(true)) && !Truthy(Bool(false))
  {
  }

  /** An arm whose pattern does not match: on to the next arm. */
  lemma ArmSkipped(pl: Place, a: ArmCode, p: Patterns.Pattern, pc: nat, end: nat, env: Env, vals: seq<Value>, v: Value)
    requires env != [] && |vals| < 256 && pc + ArmWidth(a) < 65536
    requires At(pl.chunk.code, pc, JoinArm(|vals|, a, pc, end))
    requires a.test < 256 && a.test < |pl.chunk.consts.patterns| && pl.chunk.consts.patterns[a.test] == p
    requires !Patterns.MatchVm(p, v, []).0
    ensures Runs(pl, Mach(pl, pc, env, vals, [v]), Machine.Running(Mach(pl, pc + ArmWidth(a), env, vals, [v])))
  {
    hide *;
    Booleans();
    ArmParts(pl.chunk.code, |vals|, a, pc, end);
    ScrutineeLoaded(pl, pc, env, vals, v);
    TestRuns(pl, pc + 2, a.test, p, env, vals, v);
    BranchRuns(pl, pc + 4, JumpIfFalse, pc + ArmWidth(a), Bool(false), env, vals, [v]);
    var m, m1 := Mach(pl, pc, env, vals, [v]), Mach(pl, pc + 2, env, vals, [v] + [v]);
    var m2 := Mach(pl, pc + 4, env, vals, [v] + [Bool(false)]);
    Then(pl, m, m1, Machine.Running(m2));
    Then(pl, m, m2, Machine.Running(Mach(pl, pc + ArmWidth(a), env, vals, [v])));
  }

  /** An arm whose pattern matches: its bindings are on the stack. */
  lemma ArmEntered(pl: Place, a: ArmCode, p: Patterns.Pattern, pc: nat, end: nat, env: Env, vals: seq<Value>, v: Value)
    requires env != [] && |vals| < 256 && pc + ArmWidth(a) < 65536
    requires At(pl.chunk.code, pc, JoinArm(|vals|, a, pc, end))
    requires a.test < 256 && a.test < |pl.chunk.consts.patterns| && pl.chunk.consts.patterns[a.test] == p
    requires Patterns.MatchVm(p, v, []).0
    ensures Runs(pl, Mach(pl, pc, env, vals, [v]),
                 Machine.Running(Mach(pl, pc + 7, env, vals, [v] + Patterns.MatchVm(p, v, []).1)))
  {
    hide *;
    Booleans();
    ArmParts(pl.chunk.code, |vals|, a, pc, end);
    ScrutineeLoaded(pl, pc, env, vals, v);
    TestRuns(pl, pc + 2, a.test, p, env, vals, v);
    var temps := [v] + Patterns.MatchVm(p, v, []).1;
    BranchRuns(pl, pc + 4, JumpIfFalse, pc + ArmWidth(a), Bool(true), env, vals, temps);
    var m, m1 := Mach(pl, pc, env, vals, [v]), Mach(pl, pc + 2, env, vals, [v] + [v]);
    var m2 := Mach(pl, pc + 4, env, vals, temps + [Bool(true)]);
    Then(pl, m, m1, Machine.Running(m2));
    Then(pl, m, m2, Machine.Running(Mach(pl, pc + 7, env, vals, temps)));
  }

  // ----- inside an arm -----

  /** The place as an arm sees it. */
  function Inside(pl: Place, v: Value): Place {
    pl.(hidden := pl.hidden + [v])
  }

  lemma ArmScopeIs(sc: Scope, p: Patterns.Pattern)
    ensures ArmScope(WithScrutinee(sc), p) == Scope(ArmLocals(sc.locals, sc.depth, Patterns.Names(p)), sc.depth)
    ensures |ArmScope(WithScrutinee(sc), p).locals| == |sc.locals| + 1 + |Patterns.Names(p)|
  {
    hide Patterns.Names;
  }

  lemma {:induction false} HiddenLength(locals: seq<Local>, u: seq<Value>, w: seq<Value>)
    requires |locals| == |u| == |w|
    ensures |Hidden(locals, u)| == |Hidden(locals, w)|
    decreases |locals|
  {
    if locals != [] {
      var n := |locals| - 1;
      HiddenLength(locals[..n], u[..n], w[..n]);
    }
  }

  /** What an arm's slots hide: what those around it hide, and what is matched. */
  lemma ArmHides(locals: seq<Local>, depth: nat, names: seq<string>, vals: seq<Value>)
    requires SCRUTINEE !in names && |vals| == |locals| + 1 + |names|
    ensures |ArmLocals(locals, depth, names)| == |vals|
    ensures Hidden(ArmLocals(locals, depth, names), vals) == Hidden(locals, vals[..|locals|]) + [vals[|locals|]]
  {
    hide *;
    var n, bound := |locals|, Bound(names, depth);
    var one := [Local(SCRUTINEE, depth)];
    BoundVisible(names, depth);
    ArmLocalsAre(locals, depth, names);
    HiddenNone(bound, vals[n + 1..]);
    OneHidden(depth, vals[n]);
    HiddenAppend(locals, one, vals[..n], [vals[n]]);
    HiddenAppend(locals + one, bound, vals[..n] + [vals[n]], vals[n + 1..]);
    assert vals[..n] + [vals[n]] + vals[n + 1..] == vals;
    assert Hidden(locals, vals[..n]) + [vals[n]] + [] == Hidden(locals, vals[..n]) + [vals[n]];
  }

  lemma BoundVisible(names: seq<string>, depth: nat)
    requires SCRUTINEE !in names
    ensures |Bound(names, depth)| == |names|
    ensures forall i :: 0 <= i < |Bound(names, depth)| ==> Bound(names, depth)[i].name != SCRUTINEE
  {
    var bound := Bound(names, depth);
    forall i | 0 <= i < |bound|
      ensures bound[i].name != SCRUTINEE
    {
      assert bound[i].name in names;
    }
  }

  lemma ArmLocalsAre(locals: seq<Local>, depth: nat, names: seq<string>)
    ensures ArmLocals(locals, depth, names) == locals + [Local(SCRUTINEE, depth)] + Bound(names, depth)
  {
  }

  lemma OneHidden(depth: nat, v: Value)
    ensures Hidden([Local(SCRUTINEE, depth)], [v]) == [v]
  {
    assert Hidden([Local(SCRUTINEE, depth)][..0], [v][..0]) == [];
  }

  /** Entering an arm: the bindings are its locals. */
  lemma ArmMatches(pl: Place, p: Patterns.Pattern, env: Env, sc: Scope, vals: seq<Value>, v: Value)
    requires Matches(pl, env, sc, vals) && Patterns.SameNames(p) && SCRUTINEE !in Patterns.Names(p)
    requires |sc.locals| + 1 + |Patterns.Names(p)| <= 255
    requires Patterns.MatchTree(p, v, map[]).0
    ensures env != [] && |vals| == |sc.locals|
    ensures Patterns.MatchVm(p, v, []).0
    ensures Matches(Inside(pl, v), env + [Patterns.MatchTree(p, v, map[]).1], ArmScope(WithScrutinee(sc), p),
                    vals + [v] + Patterns.MatchVm(p, v, []).1)
  {
    Patterns.BackEndsAgree(p, v, map[]);
    MatchesNonempty(pl, env, sc, vals);
    MatchesMean(pl, env, sc, vals);
    ArmScopeIs(sc, p);
    hide *;
    var names, bound := Patterns.Names(p), Patterns.MatchVm(p, v, []).1;
    var f, all := Patterns.MatchTree(p, v, map[]).1, vals + [v] + bound;
    BoundIs(p, bound, sc.depth);
    EnterArm(env, sc.locals, sc.depth, vals, v, names, bound);
    assert all[..|sc.locals|] == vals && all[|sc.locals|] == v;
    ArmHides(sc.locals, sc.depth, names, all);
    InsideHides(pl, v);
    MatchesMean(Inside(pl, v), env + [f], ArmScope(WithScrutinee(sc), p), all);
  }

  lemma BoundIs(p: Patterns.Pattern, bound: seq<Value>, depth: nat)
    requires |bound| == |Patterns.Names(p)|
    ensures |Bound(Patterns.Names(p), depth)| == |bound|
    ensures FrameOf(Bound(Patterns.Names(p), depth), bound) == Patterns.CompiledFrame(p, bound, map[])
  {
    BoundFrame(Patterns.Names(p), bound, depth);
    assert Patterns.Names(p)[..|bound|] == Patterns.Names(p) && bound[..|bound|] == bound;
  }

  lemma InsideHides(pl: Place, v: Value)
    ensures Inside(pl, v).hidden == pl.hidden + [v]
  {
  }

  /** Leaving an arm: what was matched is still in its slot. */
  lemma ArmLeft(pl: Place, p: Patterns.Pattern, env: Env, sc: Scope, before: seq<Value>, vals: seq<Value>, v: Value)
    requires |before| == |sc.locals| && Hidden(sc.locals, before) == pl.hidden
    requires Matches(Inside(pl, v), env, ArmScope(WithScrutinee(sc), p), vals) && SCRUTINEE !in Patterns.Names(p)
    requires |sc.locals| <= 255
    ensures |env| > 1 && |vals| == |sc.locals| + 1 + |Patterns.Names(p)|
    ensures Matches(pl, env[..|env| - 1], sc, vals[..|sc.locals|]) && env[..|env| - 1][0] == env[0]
    ensures vals == vals[..|sc.locals|] + [v] + vals[|sc.locals| + 1..]
  {
    ArmScopeIs(sc, p);
    InsideHides(pl, v);
    MatchesNonempty(Inside(pl, v), env, ArmScope(WithScrutinee(sc), p), vals);
    MatchesMean(Inside(pl, v), env, ArmScope(WithScrutinee(sc), p), vals);
    hide *;
    var n, names := |sc.locals|, Patterns.Names(p);
    LeaveArm(env, sc.locals, sc.depth, vals, names);
    ArmHides(sc.locals, sc.depth, names, vals);
    HiddenLength(sc.locals, before, vals[..n]);
    LastOf(Hidden(sc.locals, vals[..n]), vals[n], pl.hidden, v);
    MatchesMean(pl, env[..|env| - 1], sc, vals[..n]);
    Around3(vals, n);
  }

  lemma Around3(vals: seq<Value>, n: nat)
    requires n < |vals|
    ensures vals == vals[..n] + [vals[n]] + vals[n + 1..]
  {
  }

  lemma LastOf(a: seq<Value>, x: Value, b: seq<Value>, y: Value)
    requires a + [x] == b + [y] && |a| == |b|
    ensures a == b && x == y
  {
    assert (a + [x])[|a|] == x && (b + [y])[|b|] == y;
    assert a == (a + [x])[..|a|] && b == (b + [y])[..|b|];
  }

  /** An arm's locals are the temporaries of the match. */
  lemma ArmState(pl: Place, pc: nat, env: Env, f: Frame, vals: seq<Value>, v: Value, bound: seq<Value>)
    requires env != []
    ensures Mach(Inside(pl, v), pc, env + [f], vals + [v] + bound, []) == Mach(pl, pc, env, vals, [v] + bound)
  {
    assert pl.under + (vals + [v] + bound) + [] == pl.under + vals + ([v] + bound);
  }

  /** The arm's value: the bindings are dropped from under it, and the match ends. */
  lemma BodyDone(pl: Place, p: Patterns.Pattern, pc: nat, end: nat, env: Env, sc: Scope, before: seq<Value>,
                 vals: seq<Value>, v: Value, w: Value)
    requires |before| == |sc.locals| && Hidden(sc.locals, before) == pl.hidden && |sc.locals| <= 255
    requires Matches(Inside(pl, v), env, ArmScope(WithScrutinee(sc), p), vals) && SCRUTINEE !in Patterns.Names(p)
    requires |Patterns.Names(p)| < 256 && end < 65536 && env != []
    requires At(pl.chunk.code, pc, WithByte(PopLocalKeep, |Patterns.Names(p)|))
    requires At(pl.chunk.code, pc + 2, WithAddr(Jump, end))
    ensures |env| > 1 && |vals| >= |sc.locals| && env[..|env| - 1] != []
    ensures Matches(pl, env[..|env| - 1], sc, vals[..|sc.locals|])
    ensures Runs(pl, Mach(Inside(pl, v), pc, env, vals, [] + [w]),
                 Machine.Running(Mach(pl, end, env[..|env| - 1], vals[..|sc.locals|], [v] + [w])))
  {
    ArmLeft(pl, p, env, sc, before, vals, v);
    hide *;
    var n, env' := |sc.locals|, env[..|env| - 1];
    var m, mid := Mach(Inside(pl, v), pc, env, vals, [] + [w]), Mach(pl, pc + 2, env', vals[..n], [v] + [w]);
    BindingsKept(pl, pc, env, vals, n, |Patterns.Names(p)|, v, w);
    JumpRuns(pl, pc + 2, Jump, end, env', vals[..n], [v] + [w]);
    Then(pl, m, mid, Machine.Running(Mach(pl, end, env', vals[..n], [v] + [w])));
  }

  lemma BindingsKept(pl: Place, pc: nat, env: Env, vals: seq<Value>, n: nat, k: nat, v: Value, w: Value)
    requires |env| > 1 && env[..|env| - 1][0] == env[0] && |vals| == n + 1 + k && k < 256
    requires vals == vals[..n] + [v] + vals[n + 1..]
    requires At(pl.chunk.code, pc, WithByte(PopLocalKeep, k))
    ensures Runs(pl, Mach(Inside(pl, v), pc, env, vals, [] + [w]),
                 Machine.Running(Mach(pl, pc + 2, env[..|env| - 1], vals[..n], [v] + [w])))
  {
    KeepEffect(pl, pc, env, vals, n, k, v, w);
    hide *;
    RunByte(pl, Mach(Inside(pl, v), pc, env, vals, [] + [w]), PopLocalKeep, k);
  }

  lemma KeepEffect(pl: Place, pc: nat, env: Env, vals: seq<Value>, n: nat, k: nat, v: Value, w: Value)
    requires |env| > 1 && env[..|env| - 1][0] == env[0] && |vals| == n + 1 + k
    requires vals == vals[..n] + [v] + vals[n + 1..]
    ensures var m := Mach(Inside(pl, v), pc, env, vals, [] + [w]);
            && m.ip == pc && OperandBytes(PopLocalKeep) == 1
            && Machine.ExecByte(pl.chunk, |pl.under|, PopLocalKeep, k, m.(ip := pc + 2)) ==
                 Machine.Running(Mach(pl, pc + 2, env[..|env| - 1], vals[..n], [v] + [w]))
  {
    Top(pl.under, vals, [], w);
    KeptStack(pl.under, vals, n, k, v);
    assert pl.under + vals[..n] + [v] + [w] == pl.under + vals[..n] + ([v] + [w]);
  }

  lemma KeptStack(under: seq<Value>, vals: seq<Value>, n: nat, k: nat, v: Value)
    requires |vals| == n + 1 + k && vals == vals[..n] + [v] + vals[n + 1..]
    ensures var stack := under + vals + [];
            |stack| >= k && stack[..|stack| - k] == under + vals[..n] + [v]
  {
    assert vals[n] == v;
  }

  /** A guard that fails: the bindings are dropped, and the next arm follows. */
  lemma GuardFailed(pl: Place, p: Patterns.Pattern, pc: nat, gone: nat, env: Env, sc: Scope, before: seq<Value>,
                    vals: seq<Value>, v: Value, g: Value)
    requires |before| == |sc.locals| && Hidden(sc.locals, before) == pl.hidden && |sc.locals| <= 255
    requires Matches(Inside(pl, v), env, ArmScope(WithScrutinee(sc), p), vals) && SCRUTINEE !in Patterns.Names(p)
    requires |Patterns.Names(p)| < 256 && gone < 65536 && env != [] && !Truthy(g)
    requires At(pl.chunk.code, pc, WithAddr(JumpIfFalse, gone))
    requires At(pl.chunk.code, gone, WithByte(PopN, |Patterns.Names(p)|))
    ensures |env| > 1 && |vals| >= |sc.locals| && env[..|env| - 1] != []
    ensures Matches(pl, env[..|env| - 1], sc, vals[..|sc.locals|])
    ensures Runs(pl, Mach(Inside(pl, v), pc, env, vals, [] + [g]),
                 Machine.Running(Mach(pl, gone + 2, env[..|env| - 1], vals[..|sc.locals|], [v])))
  {
    ArmLeft(pl, p, env, sc, before, vals, v);
    InsideRuns(pl, v);
    hide *;
    var n := |sc.locals|;
    var m, mid := Mach(Inside(pl, v), pc, env, vals, [] + [g]), Mach(Inside(pl, v), gone, env, vals, []);
    BranchRuns(Inside(pl, v), pc, JumpIfFalse, gone, g, env, vals, []);
    BindingsDropped(pl, gone, env, vals, n, |Patterns.Names(p)|, v);
    Then(pl, m, mid, Machine.Running(Mach(pl, gone + 2, env[..|env| - 1], vals[..n], [v])));
  }

  lemma InsideRuns(pl: Place, v: Value)
    ensures Inside(pl, v).chunk == pl.chunk
    ensures forall m, end :: Runs(Inside(pl, v), m, end) ==> Runs(pl, m, end)
  {
    hide Machine.Runs;
  }

  lemma BindingsDropped(pl: Place, pc: nat, env: Env, vals: seq<Value>, n: nat, k: nat, v: Value)
    requires |env| > 1 && env[..|env| - 1][0] == env[0] && |vals| == n + 1 + k && k < 256
    requires vals == vals[..n] + [v] + vals[n + 1..]
    requires At(pl.chunk.code, pc, WithByte(PopN, k))
    ensures Runs(pl, Mach(Inside(pl, v), pc, env, vals, []),
                 Machine.Running(Mach(pl, pc + 2, env[..|env| - 1], vals[..n], [v])))
  {
    hide Machine.Runs, At, WithByte;
    RunByte(pl, Mach(Inside(pl, v), pc, env, vals, []), PopN, k);
    KeptStack(pl.under, vals, n, k, v);
    hide Runs;
  }

  /** The end of a match: what was matched is dropped from under the value. */
  lemma MatchDone(pl: Place, m: Machine.Vm, r: Evaluation, sc: Scope, vals: seq<Value>, v: Value, end: nat)
    requires Simulates(pl, m, r, sc, vals, [v], end) && At(pl.chunk.code, end, WithByte(PopLocalKeep, 1))
    ensures Simulates(pl, m, r, sc, vals, [], end + 2)
  {
    hide Machine.Runs, Represents, Hidden;
    if r.Val? {
      MatchesNonempty(pl, r.env, sc, vals);
      var mid := Mach(pl, end, r.env, vals, [v] + [r.v]);
      Top(pl.under, vals, [v], r.v);
      RunByte(pl, mid, PopLocalKeep, 1);
      var stack := pl.under + vals + [v];
      assert stack[..|stack| - 1] + [r.v] == pl.under + vals + ([] + [r.v]);
      hide Runs;
      Then(pl, m, mid, Machine.Running(Mach(pl, end + 2, r.env, vals, [] + [r.v])));
    }
  }

  /** No arm: the tree-walker raises, the machine goes on with nil. */
  lemma NoArm(pl: Place, pc: nat, env: Env, vals: seq<Value>, v: Value)
    requires env != [] && At(pl.chunk.code, pc, Plain(PushNil))
    ensures Runs(pl, Mach(pl, pc, env, vals, [v]), Machine.Running(Mach(pl, pc + 1, env, vals, [v] + [Nil])))
  {
    hide Machine.Runs;
    Top(pl.under, vals, [v], Nil);
    RunPlain(pl, Mach(pl, pc, env, vals, [v]), PushNil);
  }
}
