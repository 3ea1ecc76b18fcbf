/**
 Software transactional memory of the tree-walker: `shared` cells, `transact`,
 `retry`, nesting, and direct writes by others between two steps of a body.

 A body is an expression over a chain of scopes and shared cells. The other
 writers are a script: before every access to a shared cell, and before an
 outermost commit, one batch of direct writes is applied. Any script is
 allowed, so a lemma about every script speaks of every interleaving.
 */
module Transactions {
  import opened Values
  import opened ScopeChains

  // ----- programs and outcomes -----

  /** Expressions without operands. */
  datatype Leaf = Const(v: Value) | Ident(x: string) | Retry | Break | Continue

  /** What is done with the value of a single operand. */
  datatype Action = Let(x: string) | Assign(x: string) | Raise | Reply | Return

  datatype Expr =
    | Atom(leaf: Leaf)
    | Act(action: Action, e: Expr)
    | Binary(op: BinOp, lhs: Expr, rhs: Expr)
    | Seq(first: Expr, second: Expr)
    | If(cond: Expr, thn: Expr, els: Expr)
    | While(cond: Expr, body: Expr)
    | Block(body: Expr)
    | Transact(body: Expr)
    | Try(body: Expr, bind: string, rescue: Expr)

  /** How an evaluation ends. `Diverged` means that the step budget of a loop ran out. */
  datatype Outcome =
    | Done(v: Value)
    | Replied(v: Value)
    | Returned(v: Value)
    | Raised(v: Value)
    | Retrying
    | Broke
    | Continued
    | Failed(error: Error)
    | Diverged

  /** Leaving a transaction this way commits it; every other way discards it. */
  predicate Commits(o: Outcome) {
    o.Done? || o.Replied? || o.Returned?
  }

  // ----- state -----

  datatype Cell = Cell(value: Value, version: nat)

  type Cells = map<nat, Cell>

  type Batch = seq<(nat, Value)>

  /** One transaction's buffered writes and the version seen at each first read. */
  datatype Txn = Txn(writes: map<nat, Value>, versions: map<nat, nat>)

  const EMPTY_TXN := Txn(map[], map[])

  /**
   `seen` and `discarded` only observe a run: the (cell, version) pairs the
   current outermost attempt took from committed cells, and how many nested
   attempts were thrown away. No step depends on them.
   */
  datatype State = State(
    cells: Cells,
    script: seq<Batch>,
    now: nat,
    txns: seq<Txn>,
    env: Chain,
    seen: seq<(nat, nat)>,
    discarded: nat)

  datatype Run = Run(outcome: Outcome, state: State)

  // ----- scopes -----

  function Enter(s: State, frame: Frame): (r: State)
    ensures |r.env| == |s.env| + 1 && r.txns == s.txns && r.discarded == s.discarded
  {
    s.(env := s.env + [frame])
  }

  /** However a scope is left, what was declared in it is gone. */
  function Leave(r: Run): (left: Run)
    requires |r.state.env| > 1
    ensures left.outcome == r.outcome && left.state.txns == r.state.txns && left.state.discarded == r.state.discarded
  {
    Run(r.outcome, r.state.(env := r.state.env[..|r.state.env| - 1]))
  }

  // ----- steps -----

  function DirectWrite(cells: Cells, r: nat, v: Value): (res: Cells)
    ensures res.Keys == cells.Keys
  {
    if r in cells then cells[r := Cell(v, cells[r].version + 1)] else cells
  }

  function ApplyBatch(cells: Cells, batch: Batch): (res: Cells)
    ensures res.Keys == cells.Keys
  {
    if batch == [] then cells else ApplyBatch(DirectWrite(cells, batch[0].0, batch[0].1), batch[1..])
  }

  function OthersWrite(s: State): State {
    if s.now >= |s.script| then s
    else s.(cells := ApplyBatch(s.cells, s.script[s.now]), now := s.now + 1)
  }

  /** The buffered value of `r`, looked up from the innermost transaction outwards. */
  function Buffered(txns: seq<Txn>, r: nat): Option<Value> {
    if txns == [] then None
    else
      var top := txns[|txns| - 1];
      if r in top.writes then Some(top.writes[r]) else Buffered(txns[..|txns| - 1], r)
  }

  function NoteRead(t: Txn, r: nat, version: nat): Txn {
    if r in t.versions then t else t.(versions := t.versions[r := version])
  }

  function ReadCell(s0: State, r: nat): Run {
    var s := OthersWrite(s0);
    match Buffered(s.txns, r)
    case Some(v) => Run(Done(v), s)
    case None =>
      if r !in s.cells then Run(Failed(NameError), s)
      else if s.txns == [] then Run(Done(s.cells[r].value), s)
      else
        var n := |s.txns| - 1;
        var version := s.cells[r].version;
        Run(Done(s.cells[r].value),
            s.(txns := s.txns[n := NoteRead(s.txns[n], r, version)], seen := s.seen + [(r, version)]))
  }

  function WriteCell(s0: State, r: nat, v: Value): State {
    var s := OthersWrite(s0);
    if s.txns == [] then s.(cells := DirectWrite(s.cells, r, v))
    else
      var n := |s.txns| - 1;
      var top := s.txns[n];
      s.(txns := s.txns[n := top.(writes := top.writes[r := v])])
  }

  function Begin(s: State): (r: State)
    ensures |r.txns| == |s.txns| + 1
  {
    s.(txns := s.txns + [EMPTY_TXN], seen := if s.txns == [] then [] else s.seen)
  }

  function Discard(s: State): State
    requires s.txns != []
  {
    s.(txns := s.txns[..|s.txns| - 1], discarded := if |s.txns| > 1 then s.discarded + 1 else s.discarded)
  }

  /** A committed child inside its parent: the child's writes win, the parent's read versions stay. */
  function Merge(parent: Txn, child: Txn): Txn {
    Txn(parent.writes + child.writes, child.versions + parent.versions)
  }

  predicate Conflict(cells: Cells, versions: map<nat, nat>) {
    exists r :: r in versions && (r !in cells || cells[r].version != versions[r])
  }

  function Publish(cells: Cells, writes: map<nat, Value>): (res: Cells)
    ensures res.Keys == cells.Keys
  {
    map r | r in cells :: if r in writes then Cell(writes[r], cells[r].version + 1) else cells[r]
  }

  datatype Settled = Finished(run: Run) | Again(state: State)

  /** What follows one attempt: commit, merge, discard, or another attempt. */
  function Settle(o: Outcome, s: State): Settled
    requires s.txns != []
  {
    var n := |s.txns| - 1;
    if Commits(o) then
      if n > 0 then
        Finished(Run(o, s.(txns := s.txns[..n - 1] + [Merge(s.txns[n - 1], s.txns[n])])))
      else
        var t := OthersWrite(s);
        var inner := t.txns[0];
        if Conflict(t.cells, inner.versions) then Again(Discard(t))
        else Finished(Run(o, t.(txns := [], cells := Publish(t.cells, inner.writes))))
    else if o.Retrying? then Again(Discard(s))
    else Finished(Run(o, Discard(s)))
  }

  const MAX_RETRIES: nat := 64

  /** Only the innermost transaction of a stack may change. */
  predicate Balanced(before: seq<Txn>, after: seq<Txn>) {
    |before| == |after| && (before != [] ==> after[..|after| - 1] == before[..|before| - 1])
  }

  // ----- evaluation -----

  /** The left operand alone decides the result. */
  predicate ShortCircuits(op: BinOp, left: Value) {
    (op == And && !Truthy(left)) || (op == Or && Truthy(left))
  }

  function EvalLeaf(leaf: Leaf, s: State): (r: Run)
    ensures Balanced(s.txns, r.state.txns) && |r.state.env| == |s.env|
  {
    match leaf
    case Const(v) => Run(Done(v), s)
    case Ident(x) =>
      (match Get(s.env, x)
       case None => Run(Failed(NameError), s)
       case Some(v) => if v.Shared? then ReadCell(s, v.cell) else Run(Done(v), s))
    case Retry => Run(Retrying, s)
    case Break => Run(Broke, s)
    case Continue => Run(Continued, s)
  }

  function Perform(action: Action, v: Value, s: State): (r: Run)
    ensures Balanced(s.txns, r.state.txns) && |r.state.env| == |s.env|
  {
    match action
    case Let(x) => Run(Done(Nil), s.(env := Define(s.env, x, v)))
    case Assign(x) => AssignTo(x, Get(s.env, x), v, s)
    case Raise => Run(Raised(v), s)
    case Reply => Run(Replied(v), s)
    case Return => Run(Returned(v), s)
  }

  /** Through a binding to a shared cell, the cell is written. */
  function AssignTo(x: string, bound: Option<Value>, v: Value, s: State): (r: Run)
    ensures Balanced(s.txns, r.state.txns) && |r.state.env| == |s.env|
  {
    if bound.Some? && bound.value.Shared? then Run(Done(Nil), WriteCell(s, bound.value.cell, v))
    else
      match Update(s.env, x, v)
      case None => Run(Failed(NameError), s)
      case Some(env) => Run(Done(Nil), s.(env := env))
  }

  function Combine(op: BinOp, l: Value, r: Value): Outcome {
    match ApplyBinOp(op, l, r)
    case Ok(v) => Done(v)
    case Err(err) => Failed(err)
  }

  function Attempts(body: Expr, left: nat, fuel: nat, s: State): (r: Run)
    ensures Balanced(s.txns, r.state.txns) && |r.state.env| == |s.env|
    decreases fuel, body, left
  {
    if left == 0 then Run(Failed(TooManyRetries), s)
    else
      var run := Eval(body, fuel, Begin(s));
      assert run.state.txns[..|s.txns|] == s.txns;
      match Settle(run.outcome, run.state)
      case Finished(done) => done
      case Again(next) => Attempts(body, left - 1, fuel, next)
  }

  function Eval(e: Expr, fuel: nat, s: State): (r: Run)
    ensures Balanced(s.txns, r.state.txns) && |r.state.env| == |s.env|
    decreases fuel, e, 0
  {
    match e
    case Atom(leaf) => EvalLeaf(leaf, s)
    case Act(action, e1) =>
      var r1 := Eval(e1, fuel, s);
      if r1.outcome.Done? then Perform(action, r1.outcome.v, r1.state) else r1
    case Binary(op, lhs, rhs) =>
      var r1 := Eval(lhs, fuel, s);
      if !r1.outcome.Done? || ShortCircuits(op, r1.outcome.v) then r1
      else
        var r2 := Eval(rhs, fuel, r1.state);
        if !r2.outcome.Done? || op in {And, Or} then r2
        else Run(Combine(op, r1.outcome.v, r2.outcome.v), r2.state)
    case Seq(first, second) =>
      var r1 := Eval(first, fuel, s);
      if r1.outcome.Done? then Eval(second, fuel, r1.state) else r1
    case If(cond, thn, els) =>
      var r1 := Eval(cond, fuel, s);
      if !r1.outcome.Done? then r1
      else Eval(if Truthy(r1.outcome.v) then thn else els, fuel, r1.state)
    case While(cond, body) =>
      if fuel == 0 then Run(Diverged, s)
      else
        var r1 := Eval(cond, fuel - 1, s);
        if !r1.outcome.Done? then r1
        else if !Truthy(r1.outcome.v) then Run(Done(Nil), r1.state)
        else
          var r2 := Eval(body, fuel - 1, r1.state);
          if r2.outcome.Broke? then Run(Done(Nil), r2.state)
          else if r2.outcome.Done? || r2.outcome.Continued? then Eval(e, fuel - 1, r2.state)
          else r2
    case Block(body) => Leave(Eval(body, fuel, Enter(s, map[])))
    case Transact(body) => Attempts(body, MAX_RETRIES, fuel, s)
    case Try(body, bind, rescue) =>
      var r1 := Eval(body, fuel, s);
      if r1.outcome.Raised? then Leave(Eval(rescue, fuel, Enter(r1.state, map[bind := r1.outcome.v])))
      else r1
  }
}
