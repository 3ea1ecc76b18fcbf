/**
 The shape of compiled code: its instructions follow one another without gap or
 overlap, every jump leads to the start of an instruction, and every
 instruction has one height of the stack at which it is reached, whatever the
 path.
 */
module CodeShape {
  import opened Values
  import opened Bytecode
  import Machine
  import Patterns

  // ----- instruction boundaries -----

  /** Decoding instruction after instruction from `a` arrives at `b`. */
  predicate Linear(code: seq<byte>, a: nat, b: nat)
    decreases b - a
  {
    a == b
    || (a < b && match Decode(code, a)
                 case None => false
                 case Some((_, next)) => a < next <= b && Linear(code, next, b))
  }

  lemma {:induction false} LinearJoin(code: seq<byte>, a: nat, b: nat, c: nat)
    requires Linear(code, a, b) && Linear(code, b, c)
    ensures Linear(code, a, c)
    decreases b - a
  {
    hide Decode;
    if a < b {
      LinearJoin(code, Decode(code, a).value.1, b, c);
    }
  }

  /** Decoding is deterministic: two boundaries after `a` are boundaries of each other. */
  lemma {:induction false} LinearSplit(code: seq<byte>, a: nat, b: nat, c: nat)
    requires Linear(code, a, b) && Linear(code, a, c) && b <= c
    ensures Linear(code, b, c)
    decreases b - a
  {
    hide Decode;
    if a < b {
      LinearSplit(code, Decode(code, a).value.1, b, c);
    }
  }

  lemma LinearSelf(code: seq<byte>, a: nat)
    ensures Linear(code, a, a)
  {
  }

  lemma LinearNext(code: seq<byte>, a: nat)
    requires Decode(code, a).Some?
    ensures var b := Decode(code, a).value.1; a < b && Linear(code, a, b)
    ensures forall x: nat :: a <= x < Decode(code, a).value.1 && Linear(code, a, x) ==> x == a
  {
    var b := Decode(code, a).value.1;
    assert b == a + 1 + OperandBytes(Decode(code, a).value.0.op);
    hide Decode;
    LinearSelf(code, b);
  }

  lemma InstrDecodes(code: seq<byte>, a: nat, i: Instr)
    requires WellFormed(i) && At(code, a, Encode(i))
    ensures Decode(code, a) == Some((i, a + 1 + OperandBytes(i.op)))
  {
    DecodeEncode(code, a, i);
  }

  // ----- stack heights -----

  /** The height after an instruction that neither jumps nor tests a pattern. */
  function HeightAfter(i: Instr, h: int): int {
    match i.op
    case PushNil | PushTrue | PushFalse | Const | LoadLocal | LoadGlobal | Dup => h + 1
    case Pop | Strict(_) | AssignLocal | AssignGlobal | DefineGlobal => h - 1
    case StoreLocal => if i.a + 1 > h - 1 then i.a + 1 else h - 1
    case PopLocalKeep | PopN => h - i.a
    case _ => h
  }

  /** The instruction finds the operands, slots, constants and patterns it asks for at this height. */
  predicate Fits(i: Instr, h: int, pool: Pool) {
    match i.op
    case PushNil | PushTrue | PushFalse | PushLoop | PopLoop | Jump | Loop => true
    case Pop | Dup | Negate | LogicalNot | ReturnTop | JumpIfFalse | JumpIfTrue | StoreLocal => h >= 1
    case Strict(op) => h >= 2
    case Const => i.a < |pool.values|
    case LoadLocal => i.a < h
    case AssignLocal => i.a < h - 1
    case LoadGlobal => Machine.NameAt(pool.values, i.a).Some?
    case AssignGlobal | DefineGlobal => h >= 1 && Machine.NameAt(pool.values, i.a).Some?
    case PopLocalKeep => i.a < h
    case PopN => i.a <= h
    case Match => h >= 1
  }

  type Heights = map<nat, int>

  /** `y` is reached at height `h`. */
  predicate Leads(hs: Heights, y: nat, h: int) {
    y in hs && hs[y] == h
  }

  /**
   Wherever the instruction, reached at height `h`, may continue, the height is
   the one recorded there; it does not return. A pattern's test and the jump after it are one step:
   the bindings are on the stack exactly if the jump is not taken.
   */
  predicate Flows(code: seq<byte>, pool: Pool, hs: Heights, i: Instr, h: int, next: nat) {
    match i.op
    case ReturnTop => false
    case Jump | Loop => Leads(hs, i.a, h)
    case JumpIfFalse | JumpIfTrue => Leads(hs, next, h - 1) && Leads(hs, i.a, h - 1)
    case PushLoop => Leads(hs, next, h) && Leads(hs, i.a, h) && Leads(hs, i.b, h + 1)
    case Match =>
      && i.a < |pool.patterns| && Patterns.SameNames(pool.patterns[i.a])
      && Decode(code, next).Some?
      && var (j, after) := Decode(code, next).value;
         && j.op == JumpIfFalse
         && Leads(hs, after, h - 1 + |Patterns.Names(pool.patterns[i.a])|) && Leads(hs, j.a, h - 1)
    case _ => Leads(hs, next, HeightAfter(i, h))
  }

  /** The instruction at `x` keeps the heights, and with `safe` finds what it needs. */
  predicate Keeps(code: seq<byte>, pool: Pool, hs: Heights, x: nat, safe: bool) {
    && x in hs && Decode(code, x).Some?
    && var (i, next) := Decode(code, x).value;
       (safe ==> Fits(i, hs[x], pool)) && Flows(code, pool, hs, i, hs[x], next)
  }

  /** `x` is the jump after a pattern's test. */
  predicate AfterTest(code: seq<byte>, a: nat, x: nat) {
    x >= a + 2 && Linear(code, a, x - 2) && Decode(code, x - 2).Some? && Decode(code, x - 2).value.0.op.Match?
  }

  /** There are whole instructions from `a` to `b`; all of them have a height but the jumps after a test. */
  ghost predicate Covers(code: seq<byte>, hs: Heights, a: nat, b: nat) {
    Linear(code, a, b) && forall x: nat :: a <= x <= b && Linear(code, a, x) ==> x in hs || AfterTest(code, a, x)
  }

  /** Heights are recorded for starts of instructions between `a` and `b`. */
  predicate Bounded(code: seq<byte>, hs: Heights, a: nat, b: nat) {
    forall x :: x in hs ==> a <= x <= b && Linear(code, a, x)
  }

  /** All recorded instructions but `b` keep the heights recorded in `all`. */
  predicate AllKeep(code: seq<byte>, pool: Pool, hs: Heights, all: Heights, b: nat, safe: bool) {
    forall x :: x in hs && x != b ==> Keeps(code, pool, all, x, safe)
  }

  /** Everything recorded in `less` is recorded in `more`. */
  predicate Within(less: Heights, more: Heights) {
    forall x :: x in less ==> x in more && more[x] == less[x]
  }

  /**
   Code from `a`, reached at height `ha`, to `b`, left at height `hb`: every
   path through it has the same heights, provided that the heights `exits`
   elsewhere, to which the code jumps, are kept as well.
   */
  ghost predicate Part(code: seq<byte>, pool: Pool, hs: Heights, a: nat, ha: int, b: nat, hb: int, exits: Heights,
                       safe: bool) {
    && Leads(hs, a, ha) && Leads(hs, b, hb) && Covers(code, hs, a, b) && Bounded(code, hs, a, b)
    && forall all: Heights :: Within(hs, all) && Within(exits, all) ==> AllKeep(code, pool, hs, all, b, safe)
  }

  // ----- putting parts together -----

  lemma CoversWithin(code: seq<byte>, hs: Heights, more: Heights, a: nat, b: nat)
    requires Covers(code, hs, a, b) && Within(hs, more)
    ensures Covers(code, more, a, b)
  {
    hide Linear, AfterTest;
  }

  lemma CoversJoin(code: seq<byte>, hs: Heights, a: nat, b: nat, c: nat)
    requires a <= b <= c && Covers(code, hs, a, b) && Covers(code, hs, b, c)
    ensures Covers(code, hs, a, c)
  {
    hide Linear, AfterTest;
    LinearJoin(code, a, b, c);
    forall x: nat | a <= x <= c && Linear(code, a, x)
      ensures x in hs || AfterTest(code, a, x)
    {
      if b <= x {
        LinearSplit(code, a, b, x);
        if AfterTest(code, b, x) {
          AfterTestFrom(code, a, b, x);
        }
      }
    }
  }

  lemma AfterTestFrom(code: seq<byte>, a: nat, b: nat, x: nat)
    requires Linear(code, a, b) && a <= b && AfterTest(code, b, x)
    ensures AfterTest(code, a, x)
  {
    hide Linear, Decode;
    LinearJoin(code, a, b, x - 2);
  }

  lemma BoundedWithin(code: seq<byte>, hs: Heights, a: nat, b: nat, lo: nat, hi: nat)
    requires Bounded(code, hs, a, b) && lo <= a && b <= hi && Linear(code, lo, a)
    ensures Bounded(code, hs, lo, hi)
  {
    hide Linear;
    forall x | x in hs
      ensures lo <= x <= hi && Linear(code, lo, x)
    {
      LinearJoin(code, lo, a, x);
    }
  }

  /** An instruction keeps the heights if they are recorded where it leads. */
  lemma InstrKeeps(code: seq<byte>, pool: Pool, hs: Heights, a: nat, i: Instr, safe: bool)
    requires WellFormed(i) && At(code, a, Encode(i)) && a in hs && (safe ==> Fits(i, hs[a], pool))
    requires Flows(code, pool, hs, i, hs[a], a + 1 + OperandBytes(i.op))
    ensures Keeps(code, pool, hs, a, safe)
  {
    InstrDecodes(code, a, i);
    hide Decode, Encode, Flows, Fits;
  }

  /** No instruction starts inside another one. */
  lemma InstrCovers(code: seq<byte>, hs: Heights, a: nat, i: Instr)
    requires WellFormed(i) && At(code, a, Encode(i)) && a in hs && a + 1 + OperandBytes(i.op) in hs
    ensures Covers(code, hs, a, a + 1 + OperandBytes(i.op)) && Linear(code, a, a + 1 + OperandBytes(i.op))
  {
    InstrDecodes(code, a, i);
    LinearNext(code, a);
    hide Linear, Decode, Encode, AfterTest;
  }

  lemma Joined(code: seq<byte>, hs1: Heights, hs2: Heights, a: nat, b: nat, c: nat, hb: int)
    requires Bounded(code, hs1, a, b) && Bounded(code, hs2, b, c) && Leads(hs1, b, hb) && Leads(hs2, b, hb)
    ensures Within(hs1, hs1 + hs2) && Within(hs2, hs1 + hs2)
  {
    hide Linear;
  }

  lemma JoinedBounded(code: seq<byte>, hs1: Heights, hs2: Heights, a: nat, c: nat)
    requires Bounded(code, hs1, a, c) && Bounded(code, hs2, a, c)
    ensures Bounded(code, hs1 + hs2, a, c)
  {
    hide Linear;
  }

  lemma JoinedKeep(code: seq<byte>, pool: Pool, hs1: Heights, hs2: Heights, all: Heights, b: nat, c: nat, hb: int,
                   safe: bool)
    requires AllKeep(code, pool, hs1, all, b, safe) && AllKeep(code, pool, hs2, all, c, safe) && Leads(hs2, b, hb)
    ensures AllKeep(code, pool, hs1 + hs2, all, c, safe)
  {
    hide Keeps;
  }

  lemma PartMeans(code: seq<byte>, pool: Pool, hs: Heights, a: nat, ha: int, b: nat, hb: int, exits: Heights,
                  safe: bool)
    requires Part(code, pool, hs, a, ha, b, hb, exits, safe)
    ensures Leads(hs, a, ha) && Leads(hs, b, hb) && Covers(code, hs, a, b) && Bounded(code, hs, a, b)
    ensures forall all: Heights :: Within(hs, all) && Within(exits, all) ==> AllKeep(code, pool, hs, all, b, safe)
    ensures a <= b && Linear(code, a, b)
  {
    hide Linear, AllKeep, AfterTest, Within;
  }

  /** A part stays one where more is known of what lies elsewhere, and where less is asked for. */
  lemma PartWeakens(code: seq<byte>, pool: Pool, hs: Heights, a: nat, ha: int, b: nat, hb: int, less: Heights,
                    exits: Heights, safer: bool, safe: bool)
    requires Part(code, pool, hs, a, ha, b, hb, less, safer) && Within(less, exits) && (safe ==> safer)
    ensures Part(code, pool, hs, a, ha, b, hb, exits, safe)
  {
    hide Leads, Linear, Covers, Bounded, AfterTest, Keeps;
    forall all: Heights | Within(hs, all) && Within(exits, all)
      ensures AllKeep(code, pool, hs, all, b, safe)
    {
      assert Within(less, all);
      assert AllKeep(code, pool, hs, all, b, safer);
      if !safer {
      } else {
        LessSafe(code, pool, hs, all, b, safe);
      }
    }
  }

  lemma LessSafe(code: seq<byte>, pool: Pool, hs: Heights, all: Heights, b: nat, safe: bool)
    requires AllKeep(code, pool, hs, all, b, true)
    ensures AllKeep(code, pool, hs, all, b, safe)
  {
    hide Decode, Fits, Flows;
  }

  /** The heights elsewhere are those of the code itself, or known from further away. */
  predicate Known(exits: Heights, hs: Heights, far: Heights) {
    forall x :: x in exits ==> (x in hs && hs[x] == exits[x]) || (x in far && far[x] == exits[x])
  }

  lemma PartCloses(code: seq<byte>, pool: Pool, hs: Heights, a: nat, ha: int, b: nat, hb: int, exits: Heights,
                   far: Heights, safe: bool)
    requires Part(code, pool, hs, a, ha, b, hb, exits, safe) && Known(exits, hs, far)
    ensures Part(code, pool, hs, a, ha, b, hb, far, safe)
  {
    hide Leads, Linear, Covers, Bounded, AfterTest, AllKeep;
    forall all: Heights | Within(hs, all) && Within(far, all)
      ensures AllKeep(code, pool, hs, all, b, safe)
    {
      assert Within(exits, all);
    }
  }

  /** Two parts in a row. */
  lemma PartJoin(code: seq<byte>, pool: Pool, hs1: Heights, hs2: Heights, a: nat, ha: int, b: nat, hb: int, c: nat,
                 hc: int, exits: Heights, safe: bool)
    requires Part(code, pool, hs1, a, ha, b, hb, exits, safe) && Part(code, pool, hs2, b, hb, c, hc, exits, safe)
    ensures Part(code, pool, hs1 + hs2, a, ha, c, hc, exits, safe)
    ensures Within(hs1, hs1 + hs2) && Within(hs2, hs1 + hs2)
  {
    hide *;
    var hs := hs1 + hs2;
    PartMeans(code, pool, hs1, a, ha, b, hb, exits, safe);
    PartMeans(code, pool, hs2, b, hb, c, hc, exits, safe);
    Joined(code, hs1, hs2, a, b, c, hb);
    LeadsWithin(hs1, hs, a, ha);
    LeadsWithin(hs2, hs, c, hc);
    CoversWithin(code, hs1, hs, a, b);
    CoversWithin(code, hs2, hs, b, c);
    CoversJoin(code, hs, a, b, c);
    LinearSelf(code, a);
    BoundedWithin(code, hs1, a, b, a, c);
    BoundedWithin(code, hs2, b, c, a, c);
    JoinedBounded(code, hs1, hs2, a, c);
    forall all: Heights | Within(hs, all) && Within(exits, all)
      ensures AllKeep(code, pool, hs, all, c, safe)
    {
      WithinThrough(hs1, hs, all);
      WithinThrough(hs2, hs, all);
      JoinedKeep(code, pool, hs1, hs2, all, b, c, hb, safe);
    }
    PartIs(code, pool, hs, a, ha, c, hc, exits, safe);
  }

  lemma PartIs(code: seq<byte>, pool: Pool, hs: Heights, a: nat, ha: int, b: nat, hb: int, exits: Heights, safe: bool)
    requires Leads(hs, a, ha) && Leads(hs, b, hb) && Covers(code, hs, a, b) && Bounded(code, hs, a, b)
    requires forall all: Heights :: Within(hs, all) && Within(exits, all) ==> AllKeep(code, pool, hs, all, b, safe)
    ensures Part(code, pool, hs, a, ha, b, hb, exits, safe)
  {
    hide Leads, Covers, Bounded, Within, AllKeep;
  }

  lemma LeadsWithin(hs: Heights, all: Heights, y: nat, h: int)
    requires Leads(hs, y, h) && Within(hs, all)
    ensures Leads(all, y, h)
  {
  }

  lemma WithinThrough(a: Heights, b: Heights, c: Heights)
    requires Within(a, b) && Within(b, c)
    ensures Within(a, c)
  {
  }

  /** No code at all. */
  lemma PartNone(code: seq<byte>, pool: Pool, a: nat, h: int, exits: Heights, safe: bool)
    ensures Part(code, pool, map[a := h], a, h, a, h, exits, safe)
  {
    LinearSelf(code, a);
    hide Keeps, Within;
  }

  /** One instruction. */
  lemma PartInstr(code: seq<byte>, pool: Pool, a: nat, i: Instr, h: int, next: int, exits: Heights, safe: bool)
    returns (hs: Heights)
    requires WellFormed(i) && At(code, a, Encode(i)) && (safe ==> Fits(i, h, pool))
    requires var b := a + 1 + OperandBytes(i.op);
             forall all: Heights :: Leads(all, b, next) && Within(exits, all) ==> Flows(code, pool, all, i, h, b)
    ensures hs == map[a := h, a + 1 + OperandBytes(i.op) := next]
    ensures Part(code, pool, hs, a, h, a + 1 + OperandBytes(i.op), next, exits, safe)
  {
    var b := a + 1 + OperandBytes(i.op);
    hs := map[a := h, b := next];
    hide At, Linear, Encode, Fits, HeightAfter, WellFormed, AfterTest, Flows;
    InstrCovers(code, hs, a, i);
    LinearSelf(code, a);
    hide Keeps, Covers;
    forall all: Heights | Within(hs, all) && Within(exits, all)
      ensures AllKeep(code, pool, hs, all, b, safe)
    {
      assert Leads(all, b, next);
      InstrKeeps(code, pool, all, a, i, safe);
    }
  }

  /** A pattern's test and the jump after it, to `addr` if the value does not match. */
  lemma PartTest(code: seq<byte>, pool: Pool, a: nat, t: nat, addr: nat, h: int, exits: Heights, safe: bool)
    returns (hs: Heights)
    requires t < 256 && addr < 65536 && t < |pool.patterns| && Patterns.SameNames(pool.patterns[t]) && h >= 1
    requires At(code, a, Encode(Instr(OpCode.Match, t, 0))) && At(code, a + 2, Encode(Instr(JumpIfFalse, addr, 0)))
    requires Leads(exits, addr, h - 1)
    ensures Part(code, pool, hs, a, h, a + 5, h - 1 + |Patterns.Names(pool.patterns[t])|, exits, safe)
  {
    hide *;
    var names := |Patterns.Names(pool.patterns[t])|;
    hs := map[a := h, a + 5 := h - 1 + names];
    TestDecodes(code, a, t, addr);
    TwoHeights(hs, a, h, a + 5, h - 1 + names);
    TestCovers(code, hs, a);
    TestBounded(code, hs, a);
    forall all: Heights | Within(hs, all) && Within(exits, all)
      ensures AllKeep(code, pool, hs, all, a + 5, safe)
    {
      LeadsWithin(exits, all, addr, h - 1);
      WithinTwo(hs, all, a, h, a + 5, h - 1 + names);
      TestKeeps(code, pool, all, a, t, addr, h, names, safe);
      OneKeeps(code, pool, hs, all, a, a + 5, safe);
    }
    PartIs(code, pool, hs, a, h, a + 5, h - 1 + names, exits, safe);
  }

  lemma TestDecodes(code: seq<byte>, a: nat, t: nat, addr: nat)
    requires t < 256 && addr < 65536
    requires At(code, a, Encode(Instr(OpCode.Match, t, 0))) && At(code, a + 2, Encode(Instr(JumpIfFalse, addr, 0)))
    ensures Decode(code, a) == Some((Instr(OpCode.Match, t, 0), a + 2))
    ensures Decode(code, a + 2) == Some((Instr(JumpIfFalse, addr, 0), a + 5))
  {
    hide At, Encode, Decode;
    InstrDecodes(code, a, Instr(OpCode.Match, t, 0));
    InstrDecodes(code, a + 2, Instr(JumpIfFalse, addr, 0));
  }

  lemma TwoHeights(hs: Heights, x: nat, h: int, y: nat, k: int)
    requires hs == map[x := h, y := k] && x != y
    ensures Leads(hs, x, h) && Leads(hs, y, k) && hs.Keys == {x, y}
  {
  }

  lemma TestBounded(code: seq<byte>, hs: Heights, a: nat)
    requires hs.Keys == {a, a + 5} && Linear(code, a, a + 5)
    ensures Bounded(code, hs, a, a + 5)
  {
    LinearSelf(code, a);
  }

  lemma WithinTwo(hs: Heights, all: Heights, x: nat, h: int, y: nat, k: int)
    requires hs == map[x := h, y := k] && x != y && Within(hs, all)
    ensures Leads(all, x, h) && Leads(all, y, k)
  {
  }

  lemma OneKeeps(code: seq<byte>, pool: Pool, hs: Heights, all: Heights, a: nat, b: nat, safe: bool)
    requires hs.Keys == {a, b} && Keeps(code, pool, all, a, safe)
    ensures AllKeep(code, pool, hs, all, b, safe)
  {
    hide Keeps;
  }

  lemma TestKeeps(code: seq<byte>, pool: Pool, all: Heights, a: nat, t: nat, addr: nat, h: int, names: nat, safe: bool)
    requires t < |pool.patterns| && Patterns.SameNames(pool.patterns[t]) && names == |Patterns.Names(pool.patterns[t])|
    requires t < 256 && addr < 65536 && h >= 1
    requires Decode(code, a) == Some((Instr(OpCode.Match, t, 0), a + 2))
    requires Decode(code, a + 2) == Some((Instr(JumpIfFalse, addr, 0), a + 5))
    requires Leads(all, a, h) && Leads(all, a + 5, h - 1 + names) && Leads(all, addr, h - 1)
    ensures Keeps(code, pool, all, a, safe)
  {
    hide Decode, Patterns.SameNames, Patterns.Names;
  }

  lemma TestCovers(code: seq<byte>, hs: Heights, a: nat)
    requires Decode(code, a).Some? && Decode(code, a).value.1 == a + 2 && Decode(code, a).value.0.op.Match?
    requires Decode(code, a + 2).Some? && Decode(code, a + 2).value.1 == a + 5 && a in hs && a + 5 in hs
    ensures Covers(code, hs, a, a + 5) && Linear(code, a, a + 5)
  {
    LinearNext(code, a);
    LinearNext(code, a + 2);
    LinearSelf(code, a);
    LinearSelf(code, a + 5);
    hide Decode;
    LinearJoin(code, a, a + 2, a + 5);
    hide Linear;
    forall x: nat | a <= x <= a + 5 && Linear(code, a, x)
      ensures x in hs || AfterTest(code, a, x)
    {
      if a + 2 <= x {
        LinearSplit(code, a, a + 2, x);
      }
    }
  }

  // ----- runs keep the heights -----

  /** The machine stands at an instruction at its height, or between a test and the jump after it. */
  predicate Poised(c: Machine.Chunk, base: nat, m: Machine.Vm, hs: Heights, safe: bool) {
    || (m.ip in hs && |m.stack| == base + hs[m.ip])
    || Tested(c, base, m, hs, safe)
  }

  predicate Tested(c: Machine.Chunk, base: nat, m: Machine.Vm, hs: Heights, safe: bool) {
    && m.ip >= 2 && Keeps(c.code, c.consts, hs, m.ip - 2, safe)
    && var (i, next) := Decode(c.code, m.ip - 2).value;
       && i.op.Match? && next == m.ip && m.stack != []
       && var top, h := m.stack[|m.stack| - 1], base + hs[m.ip - 2];
          && top in {Bool(true), Bool(false)}
          && |m.stack| == if top == Bool(true) then h + |Patterns.Names(c.consts.patterns[i.a])| else h
  }

  lemma PlainHeight(i: Instr, m: Machine.Vm)
    requires OperandBytes(i.op) == 0 && i.op != ReturnTop
    ensures var r := Machine.ExecPlain(i.op, m);
            && !r.Halted?
            && (r.Running? ==> |r.vm.stack| == HeightAfter(i, |m.stack|) && r.vm.ip == m.ip)
            && (|m.stack| >= (if i.op.Strict? then 2 else 1) && HasOpcode(i.op) ==> !r.Crashed?)
            && (i.op in {PushNil, PushTrue, PushFalse, PopLoop} ==> !r.Crashed?)
  {
    hide ApplyBinOp, ApplyUnary;
  }

  lemma ByteHeight(c: Machine.Chunk, base: nat, i: Instr, m: Machine.Vm)
    requires OperandBytes(i.op) == 1 && !i.op.Match?
    ensures var r, h := Machine.ExecByte(c, base, i.op, i.a, m), |m.stack| - base;
            && !r.Halted?
            && (r.Running? ==> |r.vm.stack| == base + HeightAfter(i, h) && r.vm.ip == m.ip)
            && (Fits(i, h, c.consts) ==> !r.Crashed?)
  {
  }

  lemma MatchHeight(c: Machine.Chunk, base: nat, i: Instr, m: Machine.Vm)
    requires i.op.Match? && i.a < |c.consts.patterns| && Patterns.SameNames(c.consts.patterns[i.a])
    ensures var r := Machine.ExecByte(c, base, i.op, i.a, m);
            && !r.Halted? && !r.Faulted? && (m.stack != [] ==> !r.Crashed?)
            && (r.Running? ==>
                  && r.vm.ip == m.ip && r.vm.stack != []
                  && var top, k := r.vm.stack[|r.vm.stack| - 1], |Patterns.Names(c.consts.patterns[i.a])|;
                     && top in {Bool(true), Bool(false)}
                     && |r.vm.stack| == if top == Bool(true) then |m.stack| + k else |m.stack|)
  {
    hide Patterns.SameNames, Patterns.Names, Patterns.Matches, Patterns.MatchVm;
    if m.stack != [] {
      BindingsCounted(c.consts.patterns[i.a], m.stack[|m.stack| - 1]);
    }
  }

  lemma BindingsCounted(p: Patterns.Pattern, v: Value)
    requires Patterns.SameNames(p)
    ensures Patterns.MatchVm(p, v, []).0 ==> |Patterns.MatchVm(p, v, []).1| == |Patterns.Names(p)|
  {
    Patterns.BackEndsAgree(p, v, map[]);
  }

  lemma JumpHeight(i: Instr, m: Machine.Vm)
    requires OperandBytes(i.op) == 2
    ensures var r := Machine.ExecJump(i.op, i.a, m);
            && !r.Halted? && !r.Faulted?
            && (i.op in {Jump, Loop} ==> r == Machine.Running(m.(ip := i.a)))
            && (i.op in {JumpIfFalse, JumpIfTrue} ==>
                  && (m.stack != [] ==> r.Running?)
                  && (r.Running? ==> |r.vm.stack| == |m.stack| - 1 && r.vm.ip in {m.ip, i.a as nat})
                  && (i.op == JumpIfFalse && m.stack != [] && m.stack[|m.stack| - 1] == Bool(true) ==> r.vm.ip == m.ip)
                  && (i.op == JumpIfFalse && m.stack != [] && m.stack[|m.stack| - 1] == Bool(false) ==> r.vm.ip == i.a))
  {
  }

  lemma DecodeWidth(code: seq<byte>, x: nat)
    requires Decode(code, x).Some?
    ensures var (i, next) := Decode(code, x).value; next == x + 1 + OperandBytes(i.op)
    ensures HasOpcode(Decode(code, x).value.0.op)
  {
  }

  /** What a step from an instruction that keeps the heights leads to. */
  ghost predicate StepsOn(c: Machine.Chunk, base: nat, r: Machine.Next, hs: Heights, safe: bool) {
    (r.Running? ==> Poised(c, base, r.vm, hs, safe)) && !r.Halted? && (safe ==> !r.Crashed?)
  }

  lemma PlainStep(c: Machine.Chunk, base: nat, m: Machine.Vm, hs: Heights, safe: bool)
    requires m.ip in hs && |m.stack| == base + hs[m.ip] && Keeps(c.code, c.consts, hs, m.ip, safe)
    requires OperandBytes(Decode(c.code, m.ip).value.0.op) == 0
    ensures StepsOn(c, base, Machine.Step(c, base, m), hs, safe)
  {
    DecodeWidth(c.code, m.ip);
    var (i, next) := Decode(c.code, m.ip).value;
    if i.op != ReturnTop {
      PlainHeight(i, m.(ip := next));
    }
    hide Decode, Tested, HasOpcode, Machine.ExecPlain;
  }

  lemma ByteStep(c: Machine.Chunk, base: nat, m: Machine.Vm, hs: Heights, safe: bool)
    requires m.ip in hs && |m.stack| == base + hs[m.ip] && Keeps(c.code, c.consts, hs, m.ip, safe)
    requires var op := Decode(c.code, m.ip).value.0.op; OperandBytes(op) == 1 && !op.Match?
    ensures StepsOn(c, base, Machine.Step(c, base, m), hs, safe)
  {
    DecodeWidth(c.code, m.ip);
    var (i, next) := Decode(c.code, m.ip).value;
    ByteHeight(c, base, i, m.(ip := next));
    hide Decode, Tested, HasOpcode, Machine.ExecByte, HeightAfter, Fits;
  }

  lemma MatchStep(c: Machine.Chunk, base: nat, m: Machine.Vm, hs: Heights, safe: bool)
    requires m.ip in hs && |m.stack| == base + hs[m.ip] && Keeps(c.code, c.consts, hs, m.ip, safe)
    requires Decode(c.code, m.ip).value.0.op.Match?
    ensures StepsOn(c, base, Machine.Step(c, base, m), hs, safe)
  {
    hide *;
    MatchFinds(c, base, m, hs, safe);
    var (i, next) := Decode(c.code, m.ip).value;
    MatchHeight(c, base, i, m.(ip := next));
    MatchLeaves(c, base, m, hs, safe, Machine.Step(c, base, m));
  }

  lemma MatchFinds(c: Machine.Chunk, base: nat, m: Machine.Vm, hs: Heights, safe: bool)
    requires m.ip in hs && |m.stack| == base + hs[m.ip] && Keeps(c.code, c.consts, hs, m.ip, safe)
    requires Decode(c.code, m.ip).value.0.op.Match?
    ensures var (i, next) := Decode(c.code, m.ip).value;
            && i.op.Match? && next == m.ip + 2 && i.a < |c.consts.patterns|
            && Patterns.SameNames(c.consts.patterns[i.a])
            && Machine.Step(c, base, m) == Machine.ExecByte(c, base, i.op, i.a, m.(ip := next))
            && (safe ==> m.stack != [])
    ensures Decode(c.code, m.ip).Some?
  {
    DecodeWidth(c.code, m.ip);
    hide Decode, HasOpcode, Machine.ExecByte, HeightAfter, Patterns.SameNames, Patterns.Names;
  }

  lemma MatchLeaves(c: Machine.Chunk, base: nat, m: Machine.Vm, hs: Heights, safe: bool, r: Machine.Next)
    requires m.ip in hs && |m.stack| == base + hs[m.ip] && Keeps(c.code, c.consts, hs, m.ip, safe)
    requires var (i, next) := Decode(c.code, m.ip).value;
             && i.op.Match? && next == m.ip + 2 && i.a < |c.consts.patterns|
             && !r.Halted? && !r.Faulted? && (m.stack != [] ==> !r.Crashed?) && (safe ==> m.stack != [])
             && (r.Running? ==>
                   && r.vm.ip == next && r.vm.stack != []
                   && var top, k := r.vm.stack[|r.vm.stack| - 1], |Patterns.Names(c.consts.patterns[i.a])|;
                      && top in {Bool(true), Bool(false)}
                      && |r.vm.stack| == if top == Bool(true) then |m.stack| + k else |m.stack|)
    ensures StepsOn(c, base, r, hs, safe)
  {
    hide Decode, Flows, Fits, Patterns.Names;
  }

  lemma JumpStep(c: Machine.Chunk, base: nat, m: Machine.Vm, hs: Heights, safe: bool)
    requires m.ip in hs && |m.stack| == base + hs[m.ip] && Keeps(c.code, c.consts, hs, m.ip, safe)
    requires OperandBytes(Decode(c.code, m.ip).value.0.op) in {2, 4}
    ensures StepsOn(c, base, Machine.Step(c, base, m), hs, safe)
  {
    DecodeWidth(c.code, m.ip);
    var (i, next) := Decode(c.code, m.ip).value;
    if OperandBytes(i.op) == 2 {
      JumpHeight(i, m.(ip := next));
    }
    hide Decode, Tested, HasOpcode, Machine.ExecJump;
  }

  /** The jump after a pattern's test. */
  lemma TestedStep(c: Machine.Chunk, base: nat, m: Machine.Vm, hs: Heights, safe: bool)
    requires Tested(c, base, m, hs, safe)
    ensures StepsOn(c, base, Machine.Step(c, base, m), hs, safe)
  {
    DecodeWidth(c.code, m.ip - 2);
    var (j, after) := Decode(c.code, m.ip).value;
    JumpHeight(j, m.(ip := after));
    hide Decode, HasOpcode, Machine.ExecJump, Patterns.SameNames, Patterns.Names, Fits;
  }

  lemma StepKeeps(c: Machine.Chunk, base: nat, m: Machine.Vm, hs: Heights, safe: bool)
    requires Poised(c, base, m, hs, safe) && (m.ip in hs ==> Keeps(c.code, c.consts, hs, m.ip, safe))
    ensures StepsOn(c, base, Machine.Step(c, base, m), hs, safe)
  {
    hide Decode, Fits, Flows, Tested, Machine.Step, StepsOn, HasOpcode;
    if Tested(c, base, m, hs, safe) {
      TestedStep(c, base, m, hs, safe);
    } else {
      DecodeWidth(c.code, m.ip);
      var op := Decode(c.code, m.ip).value.0.op;
      Widths(op);
      if op.Match? {
        MatchStep(c, base, m, hs, safe);
      } else if OperandBytes(op) == 0 {
        PlainStep(c, base, m, hs, safe);
      } else if OperandBytes(op) == 1 {
        ByteStep(c, base, m, hs, safe);
      } else {
        JumpStep(c, base, m, hs, safe);
      }
    }
  }

  lemma Widths(op: OpCode)
    ensures OperandBytes(op) in {0, 1, 2, 4}
  {
  }

  /** The first `n` steps do not come by `end`. */
  ghost predicate NotYet(c: Machine.Chunk, base: nat, m: Machine.Vm, end: nat, n: nat) {
    forall k: nat :: k < n && Machine.Steps(c, base, m, k).Running? ==> Machine.Steps(c, base, m, k).vm.ip != end
  }

  /** However many steps a run takes before it leaves the code at `end`, it is at the recorded heights. */
  lemma {:induction false} RunsAtHeights(c: Machine.Chunk, base: nat, m: Machine.Vm, hs: Heights, end: nat,
                                         safe: bool, n: nat)
    requires AllKeep(c.code, c.consts, hs, hs, end, safe) && Poised(c, base, m, hs, safe)
    requires NotYet(c, base, m, end, n)
    ensures StepsOn(c, base, Machine.Steps(c, base, m, n), hs, safe)
    decreases n
  {
    hide Decode, Fits, Flows, Tested, Machine.Step, HasOpcode;
    if n > 0 {
      assert Machine.Steps(c, base, m, 0) == Machine.Running(m);
      StepKeeps(c, base, m, hs, safe);
      if Machine.Step(c, base, m).Running? {
        var m1 := Machine.Step(c, base, m).vm;
        forall k: nat | k < n - 1 && Machine.Steps(c, base, m1, k).Running?
          ensures Machine.Steps(c, base, m1, k).vm.ip != end
        {
          assert Machine.Steps(c, base, m, k + 1) == Machine.Steps(c, base, m1, k);
        }
        RunsAtHeights(c, base, m1, hs, end, safe, n - 1);
      }
    }
  }

  /** Where the code ends, so does every run. */
  lemma {:induction false} NothingAfter(c: Machine.Chunk, base: nat, m: Machine.Vm, end: nat, n: nat)
    requires end >= |c.code| && !Machine.Steps(c, base, m, n).Crashed?
    ensures NotYet(c, base, m, end, n)
    decreases n
  {
    hide Machine.Step;
    forall k: nat | k < n && Machine.Steps(c, base, m, k).Running?
      ensures Machine.Steps(c, base, m, k).vm.ip != end
    {
      var mid := Machine.Steps(c, base, m, k).vm;
      if mid.ip == end {
        PastTheEnd(c, base, mid);
        assert Machine.Steps(c, base, mid, n - k).Crashed?;
        Machine.StepsAppend(c, base, m, mid, Machine.Crashed, k, n - k);
      }
    }
  }

  lemma PastTheEnd(c: Machine.Chunk, base: nat, m: Machine.Vm)
    requires m.ip >= |c.code|
    ensures Machine.Step(c, base, m).Crashed?
  {
  }

  /** The end is not between a test and the jump after it, which would lead beyond the end. */
  lemma NotTestedAt(c: Machine.Chunk, base: nat, m: Machine.Vm, hs: Heights, a: nat, end: nat, safe: bool)
    requires Bounded(c.code, hs, a, end) && m.ip == end && Poised(c, base, m, hs, safe)
    ensures end in hs && |m.stack| == base + hs[end]
  {
    if Tested(c, base, m, hs, safe) {
      DecodeWidth(c.code, end);
      hide Linear, Decode, Fits, HasOpcode, Patterns.SameNames, Patterns.Names;
      assert false;
    }
  }

  /** Code that ends with a return: if a run halts, it does so there. */
  lemma {:induction false} RunsToReturn(c: Machine.Chunk, m: Machine.Vm, hs: Heights, end: nat, safe: bool, n: nat)
    requires AllKeep(c.code, c.consts, hs, hs, end, safe) && Poised(c, 0, m, hs, safe)
    requires Bounded(c.code, hs, 0, end) && At(c.code, end, Encode(Instr(ReturnTop, 0, 0)))
    ensures var r := Machine.Steps(c, 0, m, n);
            && (r.Running? ==> Poised(c, 0, r.vm, hs, safe))
            && (r.Halted? ==> end in hs && hs[end] > 0)
            && (safe && (end in hs ==> hs[end] > 0) ==> !r.Crashed?)
    decreases n
  {
    hide Decode, Fits, Flows, Tested, Machine.Step, HasOpcode, Linear, At, Encode;
    if n > 0 {
      if m.ip == end {
        NotTestedAt(c, 0, m, hs, 0, end, safe);
        ReturnStep(c, m);
      } else {
        StepKeeps(c, 0, m, hs, safe);
        if Machine.Step(c, 0, m).Running? {
          RunsToReturn(c, Machine.Step(c, 0, m).vm, hs, end, safe, n - 1);
        }
      }
    }
  }

  lemma ReturnStep(c: Machine.Chunk, m: Machine.Vm)
    requires At(c.code, m.ip, Encode(Instr(ReturnTop, 0, 0)))
    ensures var r := Machine.Step(c, 0, m);
            if m.stack == [] then r.Crashed? else r == Machine.Halted(m.stack[|m.stack| - 1], m.globals)
  {
    InstrDecodes(c.code, m.ip, Instr(ReturnTop, 0, 0));
    hide Decode, At, Encode;
  }
}
