/**
 Captured variables (`src/vm/closure.rs`): an upvalue is open while the
 variable's slot is on the stack, and owns the value once the slot is cut off.
 The reference gives every variable a cell of its own for good.
 */
module Upvalues {
  import opened Values

  datatype UpvalueState = Open(index: nat) | Closed(v: Value)

  /** A stack and the upvalues that point into it. */
  datatype Ctx<U> = Ctx(stack: seq<Value>, ups: map<U, UpvalueState>)

  /** The reference: slots and upvalues name variables, and a store holds the values. */
  datatype Vars<U> = Vars(stack: seq<nat>, captured: map<U, nat>, store: seq<Value>)

  /** `Cut` closes the upvalues at or above a height and truncates the stack to it. */
  datatype Op<U> =
    | Push(v: Value)
    | ReadSlot(slot: nat)
    | WriteSlot(slot: nat, v: Value)
    | Capture(u: U, slot: nat)
    | ReadUp(u: U)
    | WriteUp(u: U, v: Value)
    | Cut(floor: nat)

  // ----- the machine -----

  function CloseAbove(s: UpvalueState, stack: seq<Value>, floor: nat): UpvalueState {
    if s.Open? && floor <= s.index < |stack| then Closed(stack[s.index]) else s
  }

  function Read<U>(c: Ctx<U>, u: U): Option<Value> {
    if u !in c.ups then None
    else
      match c.ups[u]
      case Closed(v) => Some(v)
      case Open(i) => if i < |c.stack| then Some(c.stack[i]) else None
  }

  function Write<U>(c: Ctx<U>, u: U, v: Value): Ctx<U> {
    if u !in c.ups then c
    else
      match c.ups[u]
      case Closed(_) => c.(ups := c.ups[u := Closed(v)])
      case Open(i) => if i < |c.stack| then c.(stack := c.stack[i := v]) else c
  }

  function CutTo<U>(c: Ctx<U>, floor: nat): Ctx<U>
    requires floor <= |c.stack|
  {
    Ctx(c.stack[..floor], map u | u in c.ups :: CloseAbove(c.ups[u], c.stack, floor))
  }

  /** One operation and what it reads. An operation out of range does nothing. */
  function Exec<U>(c: Ctx<U>, op: Op<U>): (Ctx<U>, Option<Value>) {
    match op
    case Push(v) => (c.(stack := c.stack + [v]), None)
    case ReadSlot(i) => (c, if i < |c.stack| then Some(c.stack[i]) else None)
    case WriteSlot(i, v) => (if i < |c.stack| then c.(stack := c.stack[i := v]) else c, None)
    case Capture(u, i) => (if i < |c.stack| && u !in c.ups then c.(ups := c.ups[u := Open(i)]) else c, None)
    case ReadUp(u) => (c, Read(c, u))
    case WriteUp(u, v) => (Write(c, u, v), None)
    case Cut(floor) => (if floor <= |c.stack| then CutTo(c, floor) else c, None)
  }

  function Run<U>(c: Ctx<U>, ops: seq<Op<U>>): (r: seq<Option<Value>>)
    ensures |r| == |ops|
    decreases |ops|
  {
    if ops == [] then [] else [Exec(c, ops[0]).1] + Run(Exec(c, ops[0]).0, ops[1..])
  }

  // ----- the reference -----

  predicate InStore<U>(a: Vars<U>) {
    && (forall i :: 0 <= i < |a.stack| ==> a.stack[i] < |a.store|)
    && (forall u :: u in a.captured ==> a.captured[u] < |a.store|)
  }

  function Refer<U>(a: Vars<U>, op: Op<U>): (r: (Vars<U>, Option<Value>))
    requires InStore(a)
    ensures InStore(r.0)
  {
    match op
    case Push(v) => (Vars(a.stack + [|a.store|], a.captured, a.store + [v]), None)
    case ReadSlot(i) => (a, if i < |a.stack| then Some(a.store[a.stack[i]]) else None)
    case WriteSlot(i, v) => (if i < |a.stack| then a.(store := a.store[a.stack[i] := v]) else a, None)
    case Capture(u, i) =>
      (if i < |a.stack| && u !in a.captured then a.(captured := a.captured[u := a.stack[i]]) else a, None)
    case ReadUp(u) => (a, if u in a.captured then Some(a.store[a.captured[u]]) else None)
    case WriteUp(u, v) => (if u in a.captured then a.(store := a.store[a.captured[u] := v]) else a, None)
    case Cut(floor) => (if floor <= |a.stack| then a.(stack := a.stack[..floor]) else a, None)
  }

  function ReferRun<U>(a: Vars<U>, ops: seq<Op<U>>): (r: seq<Option<Value>>)
    requires InStore(a)
    ensures |r| == |ops|
    decreases |ops|
  {
    if ops == [] then [] else [Refer(a, ops[0]).1] + ReferRun(Refer(a, ops[0]).0, ops[1..])
  }

  // ----- the relation -----

  /** Slots and upvalues hold the values of the variables they stand for. */
  ghost predicate Represents<U(!new)>(c: Ctx<U>, a: Vars<U>) {
    && InStore(a)
    && |c.stack| == |a.stack|
    && (forall i :: 0 <= i < |a.stack| ==> c.stack[i] == a.store[a.stack[i]])
    && (forall i, j :: 0 <= i < j < |a.stack| ==> a.stack[i] != a.stack[j])
    && c.ups.Keys == a.captured.Keys
    && forall u :: u in c.ups ==> Stands(c, a, u)
  }

  ghost predicate Stands<U(!new)>(c: Ctx<U>, a: Vars<U>, u: U)
    requires InStore(a) && u in c.ups && u in a.captured
  {
    match c.ups[u]
    case Open(i) => i < |a.stack| && a.captured[u] == a.stack[i]
    case Closed(v) => a.captured[u] !in a.stack && a.store[a.captured[u]] == v
  }

  /** No variable is captured by two upvalues. */
  ghost predicate Unique<U(!new)>(a: Vars<U>) {
    forall u, w :: u in a.captured && w in a.captured && u != w ==> a.captured[u] != a.captured[w]
  }

  /** The operations capture no variable that is captured already. */
  ghost predicate CapturesOnce<U(!new)>(a: Vars<U>, ops: seq<Op<U>>)
    requires InStore(a)
    decreases |ops|
  {
    ops != [] ==> CaptureIsNew(a, ops[0]) && CapturesOnce(Refer(a, ops[0]).0, ops[1..])
  }

  ghost predicate CaptureIsNew<U(!new)>(a: Vars<U>, op: Op<U>) {
    op.Capture? && op.slot < |a.stack| ==> forall u :: u in a.captured ==> a.captured[u] != a.stack[op.slot]
  }

  lemma PushRefines<U(!new)>(c: Ctx<U>, a: Vars<U>, v: Value)
    requires Represents(c, a) && Unique(a)
    ensures Represents(Exec(c, Push(v)).0, Refer(a, Push(v)).0) && Unique(Refer(a, Push(v)).0)
  {
    var c', a' := Exec(c, Push(v)).0, Refer(a, Push(v)).0;
    forall u | u in c'.ups
      ensures Stands(c', a', u)
    {
      assert Stands(c, a, u);
    }
  }

  /** A new value for the variable in a slot. */
  lemma WriteSlotRefines<U(!new)>(c: Ctx<U>, a: Vars<U>, i: nat, v: Value)
    requires Represents(c, a) && i < |a.stack|
    ensures Represents(c.(stack := c.stack[i := v]), a.(store := a.store[a.stack[i] := v]))
  {
    var c', a' := c.(stack := c.stack[i := v]), a.(store := a.store[a.stack[i] := v]);
    forall u | u in c'.ups
      ensures Stands(c', a', u)
    {
      assert Stands(c, a, u);
    }
  }

  /** A new value for a variable that is off the stack: no other upvalue owns it. */
  lemma WriteClosedRefines<U(!new)>(c: Ctx<U>, a: Vars<U>, u: U, v: Value)
    requires Represents(c, a) && Unique(a) && u in c.ups && c.ups[u].Closed?
    ensures Represents(c.(ups := c.ups[u := Closed(v)]), a.(store := a.store[a.captured[u] := v]))
  {
    assert Stands(c, a, u);
    var c', a' := c.(ups := c.ups[u := Closed(v)]), a.(store := a.store[a.captured[u] := v]);
    forall w | w in c'.ups
      ensures Stands(c', a', w)
    {
      assert Stands(c, a, w);
    }
  }

  lemma CaptureRefines<U(!new)>(c: Ctx<U>, a: Vars<U>, u: U, i: nat)
    requires Represents(c, a) && Unique(a) && CaptureIsNew(a, Capture(u, i)) && i < |a.stack| && u !in a.captured
    ensures var a' := a.(captured := a.captured[u := a.stack[i]]);
            Represents(c.(ups := c.ups[u := Open(i)]), a') && Unique(a')
  {
    var c', a' := c.(ups := c.ups[u := Open(i)]), a.(captured := a.captured[u := a.stack[i]]);
    forall w | w in c'.ups
      ensures Stands(c', a', w)
    {
      if w != u {
        assert Stands(c, a, w);
      }
    }
  }

  /** Cutting the stack: the variables above the cut live on in their upvalues. */
  lemma CutRefines<U(!new)>(c: Ctx<U>, a: Vars<U>, floor: nat)
    requires Represents(c, a) && floor <= |a.stack|
    ensures Represents(CutTo(c, floor), a.(stack := a.stack[..floor]))
  {
    var c', a' := CutTo(c, floor), a.(stack := a.stack[..floor]);
    forall w | w in c'.ups
      ensures Stands(c', a', w)
    {
      assert Stands(c, a, w);
    }
  }

  lemma StepRefines<U(!new)>(c: Ctx<U>, a: Vars<U>, op: Op<U>)
    requires Represents(c, a) && Unique(a) && CaptureIsNew(a, op)
    ensures Exec(c, op).1 == Refer(a, op).1
    ensures Represents(Exec(c, op).0, Refer(a, op).0) && Unique(Refer(a, op).0)
  {
    hide Stands;
    match op
    case Push(v) => PushRefines(c, a, v);
    case ReadSlot(_) =>
    case WriteSlot(i, v) =>
      if i < |c.stack| {
        WriteSlotRefines(c, a, i, v);
      }
    case Capture(u, i) =>
      if i < |c.stack| && u !in c.ups {
        CaptureRefines(c, a, u, i);
      }
    case ReadUp(u) => UpvalueReads(c, a, u);
    case WriteUp(u, v) =>
      UpvalueReads(c, a, u);
      if u in c.ups {
        match c.ups[u]
        case Open(i) => WriteSlotRefines(c, a, i, v);
        case Closed(_) => WriteClosedRefines(c, a, u, v);
      }
    case Cut(floor) =>
      if floor <= |c.stack| {
        CutRefines(c, a, floor);
      }
  }

  lemma UpvalueReads<U(!new)>(c: Ctx<U>, a: Vars<U>, u: U)
    requires Represents(c, a)
    ensures Read(c, u) == if u in a.captured then Some(a.store[a.captured[u]]) else None
    ensures u in c.ups && c.ups[u].Open? ==> c.ups[u].index < |a.stack| && a.captured[u] == a.stack[c.ups[u].index]
  {
    if u in c.ups {
      assert Stands(c, a, u);
    }
  }

  /** With one upvalue per variable, every run reads what the reference reads. */
  lemma {:induction false} RunRefines<U(!new)>(c: Ctx<U>, a: Vars<U>, ops: seq<Op<U>>)
    requires Represents(c, a) && Unique(a) && CapturesOnce(a, ops)
    ensures Run(c, ops) == ReferRun(a, ops)
    decreases |ops|
  {
    if ops != [] {
      StepRefines(c, a, ops[0]);
      RunRefines(Exec(c, ops[0]).0, Refer(a, ops[0]).0, ops[1..]);
    }
  }

  predicate WithoutCaptures<U>(ops: seq<Op<U>>) {
    forall k :: 0 <= k < |ops| ==> !ops[k].Capture?
  }

  lemma {:induction false} NothingCaptured<U(!new)>(a: Vars<U>, ops: seq<Op<U>>)
    requires InStore(a) && WithoutCaptures(ops)
    ensures CapturesOnce(a, ops)
    decreases |ops|
  {
    if ops != [] {
      NothingCaptured(Refer(a, ops[0]).0, ops[1..]);
    }
  }

  /**
   The sharing of captured variables survives every continuation exactly when
   no variable has two upvalues: two upvalues of one variable part company
   when they are closed.
   */
  lemma SharingSurvives<U(!new)>(c: Ctx<U>, a: Vars<U>)
    requires Represents(c, a)
    ensures Unique(a) <==> forall ops: seq<Op<U>> :: WithoutCaptures(ops) ==> Run(c, ops) == ReferRun(a, ops)
  {
    if Unique(a) {
      forall ops: seq<Op<U>> | WithoutCaptures(ops)
        ensures Run(c, ops) == ReferRun(a, ops)
      {
        NothingCaptured(a, ops);
        RunRefines(c, a, ops);
      }
    } else {
      var u, w :| u in a.captured && w in a.captured && u != w && a.captured[u] == a.captured[w];
      var ops := TwinsPart(c, a, u, w);
      assert WithoutCaptures(ops);
    }
  }

  /** Close everything, write through one twin, read through the other. */
  lemma TwinsPart<U(!new)>(c: Ctx<U>, a: Vars<U>, u: U, w: U) returns (ops: seq<Op<U>>)
    requires Represents(c, a)
    requires u in a.captured && w in a.captured && u != w && a.captured[u] == a.captured[w]
    ensures WithoutCaptures(ops) && Run(c, ops) != ReferRun(a, ops)
  {
    var x := a.captured[u];
    var v := if a.store[x] == Nil then Bool(true) else Nil;
    ops := [Cut(0), WriteUp(u, v), ReadUp(w)];
    TwinsClose(c, a, u, w);
    var c1, a1 := CutTo(c, 0), a.(stack := []);
    hide Represents, CutTo, Run, ReferRun;
    var c2, a2 := Write(c1, u, v), a1.(store := a1.store[x := v]);
    ThirdRead(c, a, c1, a1, c2, a2, ops);
  }

  /** Closing everything gives each twin the value of their variable. */
  lemma TwinsClose<U(!new)>(c: Ctx<U>, a: Vars<U>, u: U, w: U)
    requires Represents(c, a)
    requires u in a.captured && w in a.captured && u != w && a.captured[u] == a.captured[w]
    ensures InStore(a) && InStore(a.(stack := [])) && u in c.ups && w in c.ups
    ensures var c1 := CutTo(c, 0);
            && u in c1.ups && w in c1.ups && c1.ups[u].Closed? && c1.ups[w] == Closed(a.store[a.captured[u]])
    ensures Exec(c, Cut(0)).0 == CutTo(c, 0) && Refer(a, Cut(0)).0 == a.(stack := [])
  {
    assert Stands(c, a, u) && Stands(c, a, w);
  }

  lemma ThirdRead<U(!new)>(c: Ctx<U>, a: Vars<U>, c1: Ctx<U>, a1: Vars<U>, c2: Ctx<U>, a2: Vars<U>, ops: seq<Op<U>>)
    requires |ops| == 3 && InStore(a) && InStore(a1) && InStore(a2)
    requires c1 == Exec(c, ops[0]).0 && c2 == Exec(c1, ops[1]).0
    requires a1 == Refer(a, ops[0]).0 && a2 == Refer(a1, ops[1]).0
    ensures Run(c, ops)[2] == Exec(c2, ops[2]).1
    ensures ReferRun(a, ops)[2] == Refer(a2, ops[2]).1
  {
    hide Exec, Refer;
    var rest := ops[1..];
    assert rest[0] == ops[1] && rest[1..] == [ops[2]];
    assert Run(c2, [ops[2]])[0] == Exec(c2, ops[2]).1;
    assert Run(c1, rest)[1] == Run(c2, [ops[2]])[0];
    assert ReferRun(a2, [ops[2]])[0] == Refer(a2, ops[2]).1;
    assert ReferRun(a1, rest)[1] == ReferRun(a2, [ops[2]])[0];
  }

  /** Two closures over one local get an upvalue each, so they stop sharing it once its scope ends. */
  lemma TwoClosuresPart<U(!new)>(c: Ctx<U>, a: Vars<U>, u: U, w: U, slot: nat)
    requires Represents(c, a) && slot < |c.stack| && u != w && u !in c.ups && w !in c.ups
    ensures var both := [Capture(u, slot), Capture(w, slot)];
            exists ops: seq<Op<U>> :: WithoutCaptures(ops) && Run(c, both + ops) != ReferRun(a, both + ops)
  {
    var c1, a1 := Exec(c, Capture(u, slot)).0, Refer(a, Capture(u, slot)).0;
    var c2, a2 := Exec(c1, Capture(w, slot)).0, Refer(a1, Capture(w, slot)).0;
    forall x | x in c2.ups
      ensures Stands(c2, a2, x)
    {
      if x in c.ups {
        assert Stands(c, a, x);
      }
    }
    var ops := TwinsPart(c2, a2, u, w);
    RunTwo(c, a, Capture(u, slot), Capture(w, slot), ops);
  }

  lemma RunTwo<U(!new)>(c: Ctx<U>, a: Vars<U>, first: Op<U>, second: Op<U>, ops: seq<Op<U>>)
    requires InStore(a)
    ensures Run(c, [first, second] + ops)[2..] == Run(Exec(Exec(c, first).0, second).0, ops)
    ensures ReferRun(a, [first, second] + ops)[2..] == ReferRun(Refer(Refer(a, first).0, second).0, ops)
  {
    hide Exec, Refer;
    var all := [first, second] + ops;
    assert all[1..] == [second] + ops && all[1..][1..] == ops;
    assert Run(Exec(c, first).0, all[1..])[1..] == Run(Exec(Exec(c, first).0, second).0, ops);
    assert ReferRun(Refer(a, first).0, all[1..])[1..] == ReferRun(Refer(Refer(a, first).0, second).0, ops);
  }
}
