/**
 What the ways out of an expression do: which of them commit a transaction,
 what loops and `try` make of them, and how often a transaction is tried.
 */
module ControlLaws {
  import opened Values
  import opened ScopeChains
  import opened Transactions
  import opened TransactionLaws
  import opened Serializability
  import opened WriteLaws

  // ----- out of a transaction -----

  /**
   A transaction left by its end, by `reply` or by `return` leaves its last
   assignments in the cells, and hands the value on.
   */
  lemma LeavesItsWrites(body: Expr, fuel: nat, s: State)
    requires s.txns == []
    requires var o := Eval(Transact(body), fuel, s).outcome; o.Done? || o.Replied? || o.Returned?
    ensures FinalAttempt(body, MAX_RETRIES, fuel, s).Some?
    ensures var a := FinalAttempt(body, MAX_RETRIES, fuel, s).value;
            var t, r := CommitInstant(body, fuel, a), Eval(Transact(body), fuel, s);
            && r.outcome == Eval(body, fuel, Begin(a)).outcome && r.state.env == t.env
            && r.state.cells.Keys == t.cells.Keys
            && forall c :: c in t.cells ==>
                 r.state.cells[c] == match LastOf(Assignments(body, fuel, Begin(a)), c)
                                     case Some(v) => Cell(v, t.cells[c].version + 1)
                                     case None => t.cells[c]
  {
    hide Eval, Assignments, LastOf, FinalAttempt, CommitInstant, OthersWrite, Conflict, Publish, Attempts;
    EvalUnfolds(Transact(body), fuel, s);
    AssignmentsUnfold(Transact(body), fuel, s);
    KeptAreFinal(body, MAX_RETRIES, fuel, s);
    CommitLeaves(body, fuel, s);
    FinalAttemptEnds(body, MAX_RETRIES, fuel, s);
    OutermostSettles(body, fuel, FinalAttempt(body, MAX_RETRIES, fuel, s).value);
  }

  /** Left in any other way, or given up, it leaves no trace in the cells. */
  lemma LeavesNothing(body: Expr, fuel: nat, s: State)
    requires s.txns == []
    requires var o := Eval(Transact(body), fuel, s).outcome; !o.Done? && !o.Replied? && !o.Returned?
    ensures CellsByOthers(s, Eval(Transact(body), fuel, s).state)
  {
    hide Eval, FinalAttempt, CommitInstant, OthersWrite, Conflict, Publish, Attempts, CellsByOthers;
    Atomicity(body, fuel, s);
  }

  /** Reads a cell and wants another attempt. */
  function Again(x: string): Expr {
    Seq(Atom(Ident(x)), Atom(Retry))
  }

  lemma OneAttempt(x: string, fuel: nat, s: State)
    requires s.txns == [] && Get(s.env, x).Some? && Get(s.env, x).value.Shared? && Get(s.env, x).value.cell in s.cells
    ensures var run := Eval(Again(x), fuel, Begin(s));
            && run.outcome == Retrying && run.state.now == (if s.now < |s.script| then s.now + 1 else s.now)
            && |run.state.txns| == 1 && run.state.env == s.env && run.state.script == s.script
            && run.state.cells.Keys == s.cells.Keys
  {
    var b := Begin(s);
    FirstRead(x, b);
    hide Eval, Get, EvalLeaf;
    EvalUnfolds(Again(x), fuel, b);
    EvalUnfolds(Atom(Ident(x)), fuel, b);
    RetryIs(EvalLeaf(Ident(x), b).state);
    EvalUnfolds(Atom(Retry), fuel, EvalLeaf(Ident(x), b).state);
  }

  lemma RetryIs(s: State)
    ensures EvalLeaf(Retry, s) == Run(Retrying, s)
  {
  }

  lemma FirstRead(x: string, b: State)
    requires b.txns == [EMPTY_TXN]
    requires Get(b.env, x).Some? && Get(b.env, x).value.Shared? && Get(b.env, x).value.cell in b.cells
    ensures var run := EvalLeaf(Ident(x), b);
            && run.outcome.Done? && run.state.now == (if b.now < |b.script| then b.now + 1 else b.now)
            && |run.state.txns| == 1 && run.state.env == b.env && run.state.script == b.script
            && run.state.cells.Keys == b.cells.Keys
  {
    hide Get, ApplyBatch;
    var r := Get(b.env, x).value.cell;
    assert b.txns[..0] == [];
    assert Buffered(b.txns, r) == None;
  }

  lemma {:induction false} AttemptsCounted(x: string, left: nat, fuel: nat, s: State)
    requires s.txns == [] && Get(s.env, x).Some? && Get(s.env, x).value.Shared? && Get(s.env, x).value.cell in s.cells
    requires s.now + left <= |s.script|
    ensures var r := Attempts(Again(x), left, fuel, s);
            r.outcome == Failed(TooManyRetries) && r.state.now == s.now + left
    decreases left
  {
    hide Eval, Attempts, Get, Again;
    if left == 0 {
      NoAttemptLeft(Again(x), fuel, s);
    } else {
      AttemptUnfolds(Again(x), left, fuel, s);
      OneAttempt(x, fuel, s);
      AttemptsCounted(x, left - 1, fuel, Discard(Eval(Again(x), fuel, Begin(s)).state));
    }
  }

  /** A transaction that never stops wanting another attempt is given up after sixty-four. */
  lemma GivesUp(x: string, fuel: nat, s: State)
    requires s.txns == [] && Get(s.env, x).Some? && Get(s.env, x).value.Shared? && Get(s.env, x).value.cell in s.cells
    requires s.now + 64 <= |s.script|
    ensures var r := Eval(Transact(Again(x)), fuel, s);
            r.outcome == Failed(TooManyRetries) && r.state.now == s.now + 64
  {
    EvalUnfolds(Transact(Again(x)), fuel, s);
    AttemptsCounted(x, MAX_RETRIES, fuel, s);
    hide Eval, Attempts, Get, Again;
  }

  // ----- jumps and exceptions -----

  /** What comes after `raise`, `reply` or `return` is not evaluated, and the value goes out as what it was sent as. */
  lemma NothingAfter(action: Action, e: Expr, after: Expr, fuel: nat, s: State)
    requires action in {Raise, Reply, Return} && Eval(e, fuel, s).outcome.Done?
    ensures var r, run := Eval(e, fuel, s), Eval(Seq(Act(action, e), after), fuel, s);
            && run.state == r.state
            && (action == Raise ==> run.outcome == Raised(r.outcome.v))
            && (action == Reply ==> run.outcome == Replied(r.outcome.v))
            && (action == Return ==> run.outcome == Returned(r.outcome.v))
  {
    hide Eval;
    EvalUnfolds(Seq(Act(action, e), after), fuel, s);
    EvalUnfolds(Act(action, e), fuel, s);
  }

  /** `try { raise e } rescue as x { x }` is `e`. */
  lemma RescueHasTheValue(e: Expr, x: string, fuel: nat, s: State)
    requires Eval(e, fuel, s).outcome.Done? && !Eval(e, fuel, s).outcome.v.Shared?
    ensures Eval(Try(Act(Raise, e), x, Atom(Ident(x))), fuel, s) == Eval(e, fuel, s)
  {
    var r := Eval(e, fuel, s);
    var inner := Enter(r.state, map[x := r.outcome.v]);
    assert Get(inner.env, x) == Some(r.outcome.v);
    assert inner.env[..|inner.env| - 1] == r.state.env;
    hide Eval, Get;
    EvalUnfolds(Try(Act(Raise, e), x, Atom(Ident(x))), fuel, s);
    EvalUnfolds(Act(Raise, e), fuel, s);
    EvalUnfolds(Atom(Ident(x)), fuel, inner);
  }

  /** `try` keeps out of everything but exceptions: values, jumps and errors pass through. */
  lemma TryPasses(e: Expr, x: string, rescue: Expr, fuel: nat, s: State)
    requires !Eval(e, fuel, s).outcome.Raised?
    ensures Eval(Try(e, x, rescue), fuel, s) == Eval(e, fuel, s)
  {
    hide Eval;
    EvalUnfolds(Try(e, x, rescue), fuel, s);
  }

  /** `while c { b; continue }` is `while c { b }`. */
  lemma {:induction false} ContinueAtTheEnd(c: Expr, b: Expr, fuel: nat, s: State)
    ensures Eval(While(c, Seq(b, Atom(Continue))), fuel, s) == Eval(While(c, b), fuel, s)
    decreases fuel
  {
    hide Eval;
    var e1, e2 := While(c, Seq(b, Atom(Continue))), While(c, b);
    EvalUnfolds(e1, fuel, s);
    EvalUnfolds(e2, fuel, s);
    if fuel > 0 {
      var s1 := Eval(c, fuel - 1, s).state;
      EvalUnfolds(Seq(b, Atom(Continue)), fuel - 1, s1);
      var r := Eval(b, fuel - 1, s1);
      EvalUnfolds(Atom(Continue), fuel - 1, r.state);
      ContinueAtTheEnd(c, b, fuel - 1, r.state);
    }
  }

  /** `while c { b; break }` is `if c { b; nil }`, where nothing in `b` jumps. */
  lemma BreakAtTheEnd(c: Expr, b: Expr, fuel: nat, s: State)
    requires fuel > 0
    requires var s1 := Eval(c, fuel - 1, s).state;
             !Eval(b, fuel - 1, s1).outcome.Broke? && !Eval(b, fuel - 1, s1).outcome.Continued?
    ensures Eval(While(c, Seq(b, Atom(Break))), fuel, s) ==
              Eval(If(c, Seq(b, Atom(Const(Nil))), Atom(Const(Nil))), fuel - 1, s)
  {
    hide Eval;
    EvalUnfolds(While(c, Seq(b, Atom(Break))), fuel, s);
    EvalUnfolds(If(c, Seq(b, Atom(Const(Nil))), Atom(Const(Nil))), fuel - 1, s);
    var s1 := Eval(c, fuel - 1, s).state;
    EvalUnfolds(Seq(b, Atom(Break)), fuel - 1, s1);
    EvalUnfolds(Seq(b, Atom(Const(Nil))), fuel - 1, s1);
    var r := Eval(b, fuel - 1, s1);
    EvalUnfolds(Atom(Break), fuel - 1, r.state);
    EvalUnfolds(Atom(Const(Nil)), fuel - 1, r.state);
    EvalUnfolds(Atom(Const(Nil)), fuel - 1, s1);
  }

  // ----- without other writers -----

  predicate Exact(t: Txn, cells: Cells) {
    forall r :: r in t.versions ==> r in cells && t.versions[r] == cells[r].version
  }

  /** The others have nothing left to write, and every version on record is the current one. */
  predicate Undisturbed(s: State) {
    s.now >= |s.script| && forall k :: 0 <= k < |s.txns| ==> Exact(s.txns[k], s.cells)
  }

  predicate Stays(s: State, t: State) {
    Undisturbed(s) ==> Undisturbed(t) && t.cells == s.cells
  }

  lemma StaysStays(s: State, t: State, u: State)
    requires Stays(s, t) && Stays(t, u)
    ensures Stays(s, u)
  {
    hide Undisturbed;
  }

  lemma StaysSame(s: State, t: State)
    requires t.script == s.script && t.now == s.now && t.cells == s.cells && |t.txns| == |s.txns|
    requires forall k :: 0 <= k < |s.txns| ==> t.txns[k].versions == s.txns[k].versions
    ensures Stays(s, t)
  {
    if Undisturbed(s) {
      forall k | 0 <= k < |t.txns|
        ensures Exact(t.txns[k], t.cells)
      {
        assert Exact(s.txns[k], s.cells);
      }
    }
  }

  lemma ReadStays(s: State, r: nat)
    requires s.txns != []
    ensures Stays(s, ReadCell(s, r).state)
  {
    var t := ReadCell(s, r).state;
    if Undisturbed(s) {
      forall k | 0 <= k < |t.txns|
        ensures Exact(t.txns[k], t.cells)
      {
        assert Exact(s.txns[k], s.cells);
      }
    }
  }

  lemma LeafStays(leaf: Leaf, s: State)
    requires s.txns != []
    ensures Stays(s, EvalLeaf(leaf, s).state)
  {
    StaysSame(s, s);
    if leaf.Ident? && Get(s.env, leaf.x).Some? && Get(s.env, leaf.x).value.Shared? {
      ReadStays(s, Get(s.env, leaf.x).value.cell);
    }
    hide ReadCell, Get, Stays;
  }

  lemma WriteStays(s: State, r: nat, v: Value)
    requires s.txns != []
    ensures Stays(s, WriteCell(s, r, v))
  {
    if Undisturbed(s) {
      StaysSame(s, WriteCell(s, r, v));
    }
  }

  lemma PerformStays(action: Action, v: Value, s: State)
    requires s.txns != []
    ensures Stays(s, Perform(action, v, s).state)
  {
    if action.Assign? && Get(s.env, action.x).Some? && Get(s.env, action.x).value.Shared? {
      WriteStays(s, Get(s.env, action.x).value.cell, v);
    } else {
      StaysSame(s, Perform(action, v, s).state);
    }
    hide WriteCell, Get, Stays, Update;
  }

  lemma BeginStays(s: State)
    ensures Stays(s, Begin(s))
  {
  }

  lemma SettleStays(o: Outcome, s: State)
    requires |s.txns| > 1
    ensures match Settle(o, s)
            case Finished(done) => Stays(s, done.state)
            case Again(next) => next.txns != [] && Stays(s, next)
  {
    var n := |s.txns| - 1;
    if Undisturbed(s) {
      assert Exact(s.txns[n], s.cells) && Exact(s.txns[n - 1], s.cells);
      assert Exact(Merge(s.txns[n - 1], s.txns[n]), s.cells);
    }
  }

  lemma {:induction false} AttemptsStay(body: Expr, left: nat, fuel: nat, s: State)
    requires s.txns != []
    ensures Stays(s, Attempts(body, left, fuel, s).state)
    decreases fuel, body, left
  {
    hide *;
    if left > 0 {
      var run := Eval(body, fuel, Begin(s));
      BeginStays(s);
      AttemptUnfolds(body, left, fuel, s);
      EvalBalanced(body, fuel, Begin(s));
      EvalStays(body, fuel, Begin(s));
      SettleStays(run.outcome, run.state);
      StaysStays(s, Begin(s), run.state);
      match Settle(run.outcome, run.state)
      case Finished(done) =>
        StaysStays(s, run.state, done.state);
      case Again(next) =>
        StaysStays(s, run.state, next);
        AttemptsStay(body, left - 1, fuel, next);
        StaysStays(s, next, Attempts(body, left - 1, fuel, next).state);
    } else {
      NoAttemptLeft(body, fuel, s);
      StaysSame(s, s);
    }
  }

  /** No step of a transaction puts a version on record that is not the current one. */
  lemma {:induction false} EvalStays(e: Expr, fuel: nat, s: State)
    requires s.txns != []
    ensures Stays(s, Eval(e, fuel, s).state)
    decreases fuel, e, 0
  {
    hide *;
    StaysSame(s, s);
    EvalUnfolds(e, fuel, s);
    match e
    case Atom(leaf) =>
      LeafStays(leaf, s);
    case Act(action, e1) =>
      EvalStays(e1, fuel, s);
      EvalBalanced(e1, fuel, s);
      var r1 := Eval(e1, fuel, s);
      if r1.outcome.Done? {
        PerformStays(action, r1.outcome.v, r1.state);
        StaysStays(s, r1.state, Perform(action, r1.outcome.v, r1.state).state);
      }
    case Binary(op, lhs, rhs) =>
      EvalStays(lhs, fuel, s);
      EvalBalanced(lhs, fuel, s);
      ThenStays(s, Eval(lhs, fuel, s).state, rhs, fuel);
    case Seq(first, second) =>
      EvalStays(first, fuel, s);
      EvalBalanced(first, fuel, s);
      ThenStays(s, Eval(first, fuel, s).state, second, fuel);
    case If(cond, thn, els) =>
      EvalStays(cond, fuel, s);
      EvalBalanced(cond, fuel, s);
      var r1 := Eval(cond, fuel, s);
      if r1.outcome.Done? {
        ThenStays(s, r1.state, if Truthy(r1.outcome.v) then thn else els, fuel);
      }
    case While(cond, body) =>
      if fuel > 0 {
        EvalStays(cond, fuel - 1, s);
        EvalBalanced(cond, fuel - 1, s);
        var s1 := Eval(cond, fuel - 1, s).state;
        ThenStays(s, s1, body, fuel - 1);
        EvalBalanced(body, fuel - 1, s1);
        ThenStays(s, Eval(body, fuel - 1, s1).state, e, fuel - 1);
      }
    case Block(body) =>
      ScopeStays(s, s, map[], body, fuel);
    case Transact(body) =>
      AttemptsStay(body, MAX_RETRIES, fuel, s);
    case Try(body, bind, rescue) =>
      EvalStays(body, fuel, s);
      EvalBalanced(body, fuel, s);
      var r1 := Eval(body, fuel, s);
      if r1.outcome.Raised? {
        ScopeStays(s, r1.state, map[bind := r1.outcome.v], rescue, fuel);
      }
  }

  lemma {:induction false} ScopeStays(s: State, s1: State, frame: Frame, e: Expr, fuel: nat)
    requires s1.txns != [] && Stays(s, s1)
    ensures Stays(s, Leave(Eval(e, fuel, Enter(s1, frame))).state)
    decreases fuel, e, 2
  {
    var r := Eval(e, fuel, Enter(s1, frame));
    EvalBalanced(e, fuel, Enter(s1, frame));
    StaysSame(s1, Enter(s1, frame));
    StaysSame(r.state, Leave(r).state);
    hide Stays, Eval;
    StaysStays(s, s1, Enter(s1, frame));
    ThenStays(s, Enter(s1, frame), e, fuel);
    StaysStays(s, r.state, Leave(r).state);
  }

  lemma {:induction false} ThenStays(s: State, s1: State, e: Expr, fuel: nat)
    requires s1.txns != [] && Stays(s, s1)
    ensures Stays(s, Eval(e, fuel, s1).state)
    decreases fuel, e, 1
  {
    hide Stays, Eval;
    EvalStays(e, fuel, s1);
    StaysStays(s, s1, Eval(e, fuel, s1).state);
  }

  /**
   Where nobody else writes, a transaction whose body ends with a value, by
   `reply` or by `return` commits at its first attempt.
   */
  lemma CommitsAtOnce(body: Expr, fuel: nat, s: State)
    requires s.txns == [] && s.now >= |s.script|
    requires var o := Eval(body, fuel, Begin(s)).outcome; o.Done? || o.Replied? || o.Returned?
    ensures var run, r := Eval(body, fuel, Begin(s)), Eval(Transact(body), fuel, s);
            r.outcome == run.outcome && r.state.env == run.state.env && r.state.now == s.now
  {
    var run := Eval(body, fuel, Begin(s));
    BeginStays(s);
    EvalStays(body, fuel, Begin(s));
    EvalBalanced(body, fuel, Begin(s));
    EvalFollows(body, fuel, Begin(s));
    EvalUnfolds(Transact(body), fuel, s);
    AttemptUnfolds(body, MAX_RETRIES, fuel, s);
    assert Exact(run.state.txns[0], run.state.cells);
    hide Eval, Attempts;
  }
}
