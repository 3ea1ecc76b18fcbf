/**
 What an assignment leaves behind: at once, at a later read in the same
 transaction, and in the cells once the transaction has committed.
 */
module WriteLaws {
  import opened Values
  import opened ScopeChains
  import opened Transactions
  import opened TransactionLaws
  import opened Serializability

  // ----- a single write, a single read -----

  /** Inside a transaction the write is buffered for its cell, and nothing else changes. */
  lemma BufferedWrite(s: State, r: nat, v: Value)
    requires s.txns != []
    ensures var t, u := OthersWrite(s), WriteCell(s, r, v);
            && Buffered(u.txns, r) == Some(v)
            && (forall q :: q != r ==> Buffered(u.txns, q) == Buffered(t.txns, q))
            && u.cells == t.cells && u.env == s.env && |u.txns| == |s.txns|
            && forall k :: 0 <= k < |s.txns| ==> u.txns[k].versions == s.txns[k].versions
  {
    var t, u := OthersWrite(s), WriteCell(s, r, v);
    var n := |s.txns| - 1;
    assert u.txns[..n] == t.txns[..n];
    hide ApplyBatch;
  }

  /** Outside one the cell has the value at once, with the next version, and the other cells stay. */
  lemma DirectWriteLands(s: State, r: nat, v: Value)
    requires s.txns == []
    ensures var t, u := OthersWrite(s), WriteCell(s, r, v);
            && u.txns == [] && u.env == s.env && u.cells.Keys == t.cells.Keys
            && (r in t.cells ==> u.cells[r] == Cell(v, t.cells[r].version + 1))
            && forall q :: q in t.cells && q != r ==> u.cells[q] == t.cells[q]
  {
    hide ApplyBatch;
  }

  /** A batch of direct writes leaves in every cell its last value, and raises the version once for each. */
  lemma {:induction false} BatchLands(cells: Cells, batch: Batch, r: nat)
    requires r in cells
    ensures r in ApplyBatch(cells, batch)
    ensures var c := ApplyBatch(cells, batch)[r];
            && c.value == (match LastOf(batch, r) case Some(v) => v case None => cells[r].value)
            && c.version == cells[r].version + Count(batch, r)
    decreases |batch|
  {
    if batch != [] {
      BatchLands(DirectWrite(cells, batch[0].0, batch[0].1), batch[1..], r);
      LastOfFirst(batch, r);
    }
  }

  function Count(log: seq<(nat, Value)>, r: nat): nat {
    if log == [] then 0 else (if log[0].0 == r then 1 else 0) + Count(log[1..], r)
  }

  /** A read yields the innermost buffered value, and otherwise the value the cell has then. */
  lemma ReadLands(s: State, r: nat)
    ensures var t, run := OthersWrite(s), ReadCell(s, r);
            && run.state.cells == t.cells && run.state.env == s.env
            && (Buffered(s.txns, r).Some? ==> run == Run(Done(Buffered(s.txns, r).value), t))
            && (Buffered(s.txns, r).None? && r in t.cells ==> run.outcome == Done(t.cells[r].value))
            && (Buffered(s.txns, r).None? && r !in t.cells ==> run == Run(Failed(NameError), t))
            && (forall q :: Buffered(run.state.txns, q) == Buffered(s.txns, q))
  {
    var t, run := OthersWrite(s), ReadCell(s, r);
    if Buffered(s.txns, r).None? && r in t.cells && s.txns != [] {
      var n := |s.txns| - 1;
      assert run.state.txns[..n] == s.txns[..n];
    }
    hide ApplyBatch;
  }

  // ----- the last of several assignments -----

  function LastOf(log: seq<(nat, Value)>, r: nat): Option<Value> {
    if log == [] then None
    else if log[|log| - 1].0 == r then Some(log[|log| - 1].1)
    else LastOf(log[..|log| - 1], r)
  }

  function Or(a: Option<Value>, b: Option<Value>): Option<Value> {
    if a.Some? then a else b
  }

  lemma {:induction false} LastOfJoin(a: seq<(nat, Value)>, b: seq<(nat, Value)>, r: nat)
    ensures LastOf(a + b, r) == Or(LastOf(b, r), LastOf(a, r))
    decreases |b|
  {
    if b == [] {
      assert a + b == a;
    } else {
      assert (a + b)[..|a + b| - 1] == a + b[..|b| - 1];
      LastOfJoin(a, b[..|b| - 1], r);
    }
  }

  lemma LastOfFirst(log: seq<(nat, Value)>, r: nat)
    requires log != []
    ensures LastOf(log, r) == Or(LastOf(log[1..], r), if log[0].0 == r then Some(log[0].1) else None)
  {
    assert log == [log[0]] + log[1..];
    LastOfJoin([log[0]], log[1..], r);
    assert LastOf([log[0]], r) == if log[0].0 == r then Some(log[0].1) else LastOf([log[0]][..0], r);
  }

  // ----- the assignments of an evaluation -----

  /** What `action` on the value of its operand assigns to a cell: only an assignment to a name bound to one. */
  function Assigned(action: Action, v: Value, env: Env): seq<(nat, Value)> {
    if action.Assign? && Get(env, action.x).Some? && Get(env, action.x).value.Shared? then
      [(Get(env, action.x).value.cell, v)]
    else []
  }

  /**
   The assignments to cells that evaluation makes, in order, but for those of
   attempts that were thrown away.
   */
  function Assignments(e: Expr, fuel: nat, s: State): seq<(nat, Value)>
    decreases fuel, e, 0
  {
    match e
    case Atom(_) => []
    case Act(action, e1) =>
      var r1 := Eval(e1, fuel, s);
      Assignments(e1, fuel, s) + if r1.outcome.Done? then Assigned(action, r1.outcome.v, r1.state.env) else []
    case Binary(op, lhs, rhs) =>
      var r1 := Eval(lhs, fuel, s);
      var more := r1.outcome.Done? && !ShortCircuits(op, r1.outcome.v);
      Assignments(lhs, fuel, s) + if more then Assignments(rhs, fuel, r1.state) else []
    case Seq(first, second) =>
      var r1 := Eval(first, fuel, s);
      Assignments(first, fuel, s) + if r1.outcome.Done? then Assignments(second, fuel, r1.state) else []
    case If(cond, thn, els) =>
      var r1 := Eval(cond, fuel, s);
      Assignments(cond, fuel, s)
      + if !r1.outcome.Done? then []
        else if Truthy(r1.outcome.v) then Assignments(thn, fuel, r1.state)
        else Assignments(els, fuel, r1.state)
    case While(cond, body) =>
      if fuel == 0 then []
      else
        var r1 := Eval(cond, fuel - 1, s);
        Assignments(cond, fuel - 1, s)
        + if !r1.outcome.Done? || !Truthy(r1.outcome.v) then []
          else
            var r2 := Eval(body, fuel - 1, r1.state);
            Assignments(body, fuel - 1, r1.state)
            + if r2.outcome.Done? || r2.outcome.Continued? then Assignments(e, fuel - 1, r2.state) else []
    case Block(body) => Assignments(body, fuel, Enter(s, map[]))
    case Transact(body) => KeptAssignments(body, MAX_RETRIES, fuel, s)
    case Try(body, bind, rescue) =>
      var r1 := Eval(body, fuel, s);
      Assignments(body, fuel, s)
      + if r1.outcome.Raised? then Assignments(rescue, fuel, Enter(r1.state, map[bind := r1.outcome.v])) else []
  }

  /** Those of the attempt that commits, if one does. */
  function KeptAssignments(body: Expr, left: nat, fuel: nat, s: State): seq<(nat, Value)>
    decreases fuel, body, left
  {
    if left == 0 then []
    else
      var run := Eval(body, fuel, Begin(s));
      match Settle(run.outcome, run.state)
      case Finished(_) => if Commits(run.outcome) then Assignments(body, fuel, Begin(s)) else []
      case Again(next) => KeptAssignments(body, left - 1, fuel, next)
  }

  /** A write set holds what was last assigned to each cell, and otherwise what it held before. */
  ghost predicate Writes(before: Txn, log: seq<(nat, Value)>, after: Txn) {
    forall r: nat :: (if r in after.writes then Some(after.writes[r]) else None) ==
                       Or(LastOf(log, r), if r in before.writes then Some(before.writes[r]) else None)
  }

  /** The same for the innermost transaction. */
  ghost predicate WritesTop(before: State, log: seq<(nat, Value)>, after: State) {
    && |after.txns| == |before.txns| > 0
    && Writes(before.txns[|before.txns| - 1], log, after.txns[|after.txns| - 1])
  }

  lemma WritesNothing(s: State, t: State)
    requires |t.txns| == |s.txns| > 0
    requires t.txns[|s.txns| - 1].writes == s.txns[|s.txns| - 1].writes
    ensures WritesTop(s, [], t)
  {
  }

  lemma WritesThen(s: State, a: seq<(nat, Value)>, t: State, b: seq<(nat, Value)>, u: State)
    requires WritesTop(s, a, t) && WritesTop(t, b, u)
    ensures WritesTop(s, a + b, u)
  {
    forall r
      ensures LastOf(a + b, r) == Or(LastOf(b, r), LastOf(a, r))
    {
      LastOfJoin(a, b, r);
    }
  }

  lemma LeafWrites(leaf: Leaf, s: State)
    requires s.txns != []
    ensures WritesTop(s, [], EvalLeaf(leaf, s).state)
  {
    hide Get, ApplyBatch, Buffered;
  }

  lemma PerformWrites(action: Action, v: Value, s: State)
    requires s.txns != []
    ensures WritesTop(s, Assigned(action, v, s.env), Perform(action, v, s).state)
  {
    hide Get, Update, Define, ApplyBatch, LastOf;
    NothingLogged();
    if Assigned(action, v, s.env) != [] {
      OneLogged(Get(s.env, action.x).value.cell, v);
    }
  }

  lemma NothingLogged()
    ensures forall r :: LastOf([], r) == None
  {
  }

  lemma OneLogged(c: nat, v: Value)
    ensures forall r :: LastOf([(c, v)], r) == if r == c then Some(v) else None
  {
    var log := [(c, v)];
    assert log[..0] == [];
  }

  /** One unfolding of `Assignments`. */
  lemma AssignmentsUnfold(e: Expr, fuel: nat, s: State)
    ensures Assignments(e, fuel, s) ==
              match e
              case Atom(_) => []
              case Act(action, e1) =>
                var r1 := Eval(e1, fuel, s);
                Assignments(e1, fuel, s) + if r1.outcome.Done? then Assigned(action, r1.outcome.v, r1.state.env) else []
              case Binary(op, lhs, rhs) =>
                var r1 := Eval(lhs, fuel, s);
                var more := r1.outcome.Done? && !ShortCircuits(op, r1.outcome.v);
                Assignments(lhs, fuel, s) + if more then Assignments(rhs, fuel, r1.state) else []
              case Seq(first, second) =>
                var r1 := Eval(first, fuel, s);
                Assignments(first, fuel, s) + if r1.outcome.Done? then Assignments(second, fuel, r1.state) else []
              case If(cond, thn, els) =>
                var r1 := Eval(cond, fuel, s);
                Assignments(cond, fuel, s)
                + if !r1.outcome.Done? then []
                  else if Truthy(r1.outcome.v) then Assignments(thn, fuel, r1.state)
                  else Assignments(els, fuel, r1.state)
              case While(cond, body) =>
                if fuel == 0 then []
                else
                  var r1 := Eval(cond, fuel - 1, s);
                  Assignments(cond, fuel - 1, s)
                  + if !r1.outcome.Done? || !Truthy(r1.outcome.v) then []
                    else
                      var r2 := Eval(body, fuel - 1, r1.state);
                      Assignments(body, fuel - 1, r1.state)
                      + if r2.outcome.Done? || r2.outcome.Continued? then Assignments(e, fuel - 1, r2.state) else []
              case Block(body) => Assignments(body, fuel, Enter(s, map[]))
              case Transact(body) => KeptAssignments(body, MAX_RETRIES, fuel, s)
              case Try(body, bind, rescue) =>
                var r1 := Eval(body, fuel, s);
                Assignments(body, fuel, s)
                + if r1.outcome.Raised? then Assignments(rescue, fuel, Enter(r1.state, map[bind := r1.outcome.v]))
                  else []
  {
    hide Eval, KeptAssignments, Assigned, ShortCircuits, Truthy, Enter;
  }

  lemma KeptUnfold(body: Expr, left: nat, fuel: nat, s: State)
    ensures KeptAssignments(body, left, fuel, s) ==
              if left == 0 then []
              else
                var run := Eval(body, fuel, Begin(s));
                match Settle(run.outcome, run.state)
                case Finished(_) => if Commits(run.outcome) then Assignments(body, fuel, Begin(s)) else []
                case Again(next) => KeptAssignments(body, left - 1, fuel, next)
  {
    hide Eval, Settle, Assignments;
  }

  /** What evaluation inside a transaction leaves in its write set: the last assignment to each cell. */
  lemma {:induction false} EvalWrites(e: Expr, fuel: nat, s: State)
    requires s.txns != []
    ensures WritesTop(s, Assignments(e, fuel, s), Eval(e, fuel, s).state)
    decreases fuel, e, 1
  {
    hide *;
    EvalUnfolds(e, fuel, s);
    AssignmentsUnfold(e, fuel, s);
    match e
    case Atom(leaf) => LeafWrites(leaf, s);
    case Act(action, e1) =>
      EvalWrites(e1, fuel, s);
      var r1 := Eval(e1, fuel, s);
      NothingMore(Assignments(e1, fuel, s));
      if r1.outcome.Done? {
        EvalBalanced(e1, fuel, s);
        PerformWrites(action, r1.outcome.v, r1.state);
        WritesThen(s, Assignments(e1, fuel, s), r1.state, Assigned(action, r1.outcome.v, r1.state.env),
                   Perform(action, r1.outcome.v, r1.state).state);
      }
    case Binary(op, lhs, rhs) =>
      EvalWrites(lhs, fuel, s);
      var r1 := Eval(lhs, fuel, s);
      NothingMore(Assignments(lhs, fuel, s));
      if r1.outcome.Done? && !ShortCircuits(op, r1.outcome.v) {
        ThenWrites(s, Assignments(lhs, fuel, s), r1.state, rhs, fuel);
      }
    case Seq(first, second) =>
      EvalWrites(first, fuel, s);
      var r1 := Eval(first, fuel, s);
      NothingMore(Assignments(first, fuel, s));
      if r1.outcome.Done? {
        ThenWrites(s, Assignments(first, fuel, s), r1.state, second, fuel);
      }
    case If(cond, thn, els) =>
      EvalWrites(cond, fuel, s);
      var r1 := Eval(cond, fuel, s);
      NothingMore(Assignments(cond, fuel, s));
      if r1.outcome.Done? {
        ThenWrites(s, Assignments(cond, fuel, s), r1.state, if Truthy(r1.outcome.v) then thn else els, fuel);
      }
    case While(cond, body) =>
      if fuel == 0 {
        WritesNothing(s, s);
      } else {
        LoopWrites(cond, body, fuel, s);
      }
    case Block(body) => ScopeWrites(s, map[], body, fuel);
    case Transact(body) => AttemptsWrite(body, MAX_RETRIES, fuel, s);
    case Try(body, bind, rescue) =>
      EvalWrites(body, fuel, s);
      var r1 := Eval(body, fuel, s);
      NothingMore(Assignments(body, fuel, s));
      if r1.outcome.Raised? {
        EvalBalanced(body, fuel, s);
        ScopeWrites(r1.state, map[bind := r1.outcome.v], rescue, fuel);
        WritesThen(s, Assignments(body, fuel, s), r1.state,
                   Assignments(rescue, fuel, Enter(r1.state, map[bind := r1.outcome.v])),
                   Leave(Eval(rescue, fuel, Enter(r1.state, map[bind := r1.outcome.v]))).state);
      }
  }

  lemma NothingMore(log: seq<(nat, Value)>)
    ensures log + [] == log
  {
  }

  lemma {:induction false} ThenWrites(s: State, log: seq<(nat, Value)>, s1: State, e: Expr, fuel: nat)
    requires WritesTop(s, log, s1)
    ensures WritesTop(s, log + Assignments(e, fuel, s1), Eval(e, fuel, s1).state)
    decreases fuel, e, 2
  {
    TopMeans(s, log, s1);
    hide *;
    EvalWrites(e, fuel, s1);
    WritesThen(s, log, s1, Assignments(e, fuel, s1), Eval(e, fuel, s1).state);
  }

  lemma TopMeans(s: State, log: seq<(nat, Value)>, t: State)
    requires WritesTop(s, log, t)
    ensures |t.txns| == |s.txns| && t.txns != []
  {
  }

  lemma {:induction false} LoopWrites(cond: Expr, body: Expr, fuel: nat, s: State)
    requires s.txns != [] && fuel > 0
    ensures WritesTop(s, Assignments(While(cond, body), fuel, s), Eval(While(cond, body), fuel, s).state)
    decreases fuel, While(cond, body), 0
  {
    hide *;
    var e := While(cond, body);
    EvalUnfolds(e, fuel, s);
    AssignmentsUnfold(e, fuel, s);
    EvalWrites(cond, fuel - 1, s);
    var a := Assignments(cond, fuel - 1, s);
    var r1 := Eval(cond, fuel - 1, s);
    NothingMore(a);
    if r1.outcome.Done? && Truthy(r1.outcome.v) {
      ThenWrites(s, a, r1.state, body, fuel - 1);
      var b := Assignments(body, fuel - 1, r1.state);
      var r2 := Eval(body, fuel - 1, r1.state);
      NothingMore(b);
      if r2.outcome.Done? || r2.outcome.Continued? {
        ThenWrites(s, a + b, r2.state, e, fuel - 1);
        assert a + b + Assignments(e, fuel - 1, r2.state) == a + (b + Assignments(e, fuel - 1, r2.state));
      }
    }
  }

  lemma {:induction false} ScopeWrites(s: State, frame: Frame, e: Expr, fuel: nat)
    requires s.txns != []
    ensures WritesTop(s, Assignments(e, fuel, Enter(s, frame)), Leave(Eval(e, fuel, Enter(s, frame))).state)
    decreases fuel, e, 2
  {
    hide *;
    EvalWrites(e, fuel, Enter(s, frame));
    SameTop(s, Enter(s, frame), Assignments(e, fuel, Enter(s, frame)), Eval(e, fuel, Enter(s, frame)).state,
            Leave(Eval(e, fuel, Enter(s, frame))).state);
  }

  lemma SameTop(s: State, s1: State, log: seq<(nat, Value)>, t1: State, t: State)
    requires s.txns == s1.txns && t.txns == t1.txns && WritesTop(s1, log, t1)
    ensures WritesTop(s, log, t)
  {
  }

  /** A nested attempt that is merged leaves its assignments, one that is thrown away none. */
  lemma {:induction false} AttemptsWrite(body: Expr, left: nat, fuel: nat, s: State)
    requires s.txns != []
    ensures WritesTop(s, KeptAssignments(body, left, fuel, s), Attempts(body, left, fuel, s).state)
    decreases fuel, body, 3, left
  {
    hide *;
    KeptUnfold(body, left, fuel, s);
    if left == 0 {
      NoAttemptLeft(body, fuel, s);
      WritesNothing(s, s);
    } else {
      AttemptUnfolds(body, left, fuel, s);
      var run := Eval(body, fuel, Begin(s));
      EvalWrites(body, fuel, Begin(s));
      EvalBalanced(body, fuel, Begin(s));
      AttemptKeepsOuter(body, fuel, s);
      SettleWrites(s, Assignments(body, fuel, Begin(s)), run);
      match Settle(run.outcome, run.state)
      case Finished(_) =>
      case Again(next) =>
        TopMeans(s, [], next);
        AttemptsWrite(body, left - 1, fuel, next);
        WritesThen(s, [], next, KeptAssignments(body, left - 1, fuel, next),
                   Attempts(body, left - 1, fuel, next).state);
        assert [] + KeptAssignments(body, left - 1, fuel, next) == KeptAssignments(body, left - 1, fuel, next);
    }
  }

  lemma AttemptKeepsOuter(body: Expr, fuel: nat, s: State)
    ensures |Eval(body, fuel, Begin(s)).state.txns| == |s.txns| + 1
    ensures Eval(body, fuel, Begin(s)).state.txns[..|s.txns|] == s.txns
  {
    hide Eval;
    assert Balanced(Begin(s).txns, Eval(body, fuel, Begin(s)).state.txns);
    assert Begin(s).txns[..|s.txns|] == s.txns;
  }

  lemma SettleWrites(s: State, log: seq<(nat, Value)>, run: Run)
    requires s.txns != [] && |run.state.txns| == |s.txns| + 1 && run.state.txns[..|s.txns|] == s.txns
    requires WritesTop(Begin(s), log, run.state)
    ensures match Settle(run.outcome, run.state)
            case Finished(done) => WritesTop(s, if Commits(run.outcome) then log else [], done.state)
            case Again(next) => WritesTop(s, [], next)
  {
    var n := |s.txns|;
    assert Begin(s).txns[n] == EMPTY_TXN;
    assert run.state.txns[n - 1] == s.txns[n - 1];
    hide LastOf, Conflict, OthersWrite, Publish;
    NothingLogged();
  }

  // ----- over whole runs -----

  /** After any evaluation inside a transaction a cell reads as last assigned, or as it read before. */
  lemma {:induction false} EvalLeaves(e: Expr, fuel: nat, s: State, r: nat)
    requires s.txns != []
    ensures Buffered(Eval(e, fuel, s).state.txns, r) == Or(LastOf(Assignments(e, fuel, s), r), Buffered(s.txns, r))
  {
    hide Eval, Assignments, LastOf;
    var t, n := Eval(e, fuel, s).state, |s.txns| - 1;
    EvalWrites(e, fuel, s);
    assert Balanced(s.txns, t.txns);
    assert t.txns[..n] == s.txns[..n];
  }

  /**
   Read after write: whatever lies between an assignment and a read in the same
   transaction, nested transactions and other writers included, if it assigns
   the cell no more, the read yields the value assigned.
   */
  lemma ReadsBack(x: string, v: Value, e: Expr, fuel: nat, y: string, s: State)
    requires s.txns != [] && Get(s.env, x).Some? && Get(s.env, x).value.Shared?
    requires var r, s1 := Get(s.env, x).value.cell, Perform(Assign(x), v, s).state;
             LastOf(Assignments(e, fuel, s1), r) == None && Get(Eval(e, fuel, s1).state.env, y) == Some(Shared(r))
    ensures var s1 := Perform(Assign(x), v, s).state;
            EvalLeaf(Ident(y), Eval(e, fuel, s1).state).outcome == Done(v)
  {
    var r, s1 := Get(s.env, x).value.cell, Perform(Assign(x), v, s).state;
    hide Eval, Assignments, LastOf, Get, ApplyBatch;
    BufferedWrite(s, r, v);
    EvalLeaves(e, fuel, s1, r);
    ReadLands(Eval(e, fuel, s1).state, r);
  }

  /** The assignments of a transaction are those of its final attempt. */
  lemma {:induction false} KeptAreFinal(body: Expr, left: nat, fuel: nat, s: State)
    requires Commits(Attempts(body, left, fuel, s).outcome)
    ensures FinalAttempt(body, left, fuel, s).Some?
    ensures KeptAssignments(body, left, fuel, s) ==
              Assignments(body, fuel, Begin(FinalAttempt(body, left, fuel, s).value))
    decreases left
  {
    hide Eval, Settle, Assignments, Attempts, FinalAttempt, KeptAssignments;
    KeptUnfold(body, left, fuel, s);
    if left == 0 {
      NoAttemptLeft(body, fuel, s);
    } else {
      AttemptStep(body, left, fuel, s);
      var run := Eval(body, fuel, Begin(s));
      EvalBalanced(body, fuel, Begin(s));
      match Settle(run.outcome, run.state)
      case Finished(r) => SettledOutcome(run.outcome, run.state);
      case Again(next) => KeptAreFinal(body, left - 1, fuel, next);
    }
  }

  lemma SettledOutcome(o: Outcome, s: State)
    requires s.txns != []
    ensures Settle(o, s).Finished? ==> Settle(o, s).run.outcome == o
  {
    hide Conflict, OthersWrite, Publish;
  }

  /**
   A committed transaction leaves in each cell the value last assigned to it,
   its version raised by one, and every cell it did not assign as it was at the
   commit. Assignments of discarded nested attempts do not count.
   */
  lemma CommitLeaves(body: Expr, fuel: nat, s: State)
    requires s.txns == [] && Commits(Eval(Transact(body), fuel, s).outcome)
    ensures FinalAttempt(body, MAX_RETRIES, fuel, s).Some?
    ensures var t := CommitInstant(body, fuel, FinalAttempt(body, MAX_RETRIES, fuel, s).value);
            var after, log := Eval(Transact(body), fuel, s).state.cells, Assignments(Transact(body), fuel, s);
            && after.Keys == t.cells.Keys
            && forall r :: r in t.cells ==>
                 after[r] == match LastOf(log, r)
                             case Some(v) => Cell(v, t.cells[r].version + 1)
                             case None => t.cells[r]
  {
    hide *;
    EvalUnfolds(Transact(body), fuel, s);
    AssignmentsUnfold(Transact(body), fuel, s);
    KeptAreFinal(body, MAX_RETRIES, fuel, s);
    var a := FinalAttempt(body, MAX_RETRIES, fuel, s).value;
    Atomicity(body, fuel, s);
    FinalAttemptEnds(body, MAX_RETRIES, fuel, s);
    BeginOne(a);
    EvalWrites(body, fuel, Begin(a));
    InstantIs(body, fuel, a);
    WrittenIs(Begin(a), Assignments(body, fuel, Begin(a)), Eval(body, fuel, Begin(a)).state);
  }

  lemma BeginOne(a: State)
    requires a.txns == []
    ensures Begin(a).txns == [EMPTY_TXN]
  {
  }

  lemma WrittenIs(s: State, log: seq<(nat, Value)>, t: State)
    requires s.txns == [EMPTY_TXN] && WritesTop(s, log, t)
    ensures |OthersWrite(t).txns| == 1
    ensures var writes := OthersWrite(t).txns[0].writes;
            forall r :: LastOf(log, r) == if r in writes then Some(writes[r]) else None
  {
    hide LastOf, ApplyBatch;
  }
}
