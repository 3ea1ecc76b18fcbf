/**
 The tree-walker's evaluator for transaction bodies, updating its fields in
 place, proved to compute the evaluation function of `Transactions`.
 */
module TransactionInterpreter {
  import opened Values
  import opened ScopeChains
  import opened Transactions
  import opened TransactionLaws

  class Interpreter {
    var cells: Cells
    var txnStack: seq<Txn>
    var env: Chain

    // what the other writers do, and how far they have got
    var script: seq<Batch>
    var now: nat

    // observations only
    ghost var seen: seq<(nat, nat)>
    ghost var discarded: nat

    ghost function Snapshot(): State
      reads this
    {
      State(cells, script, now, txnStack, env, seen, discarded)
    }

    constructor (cells: Cells, env: Chain, script: seq<Batch>)
      ensures Snapshot() == State(cells, script, 0, [], env, [], 0)
    {
      this.cells, this.env, this.script := cells, env, script;
      now, txnStack := 0, [];
      seen, discarded := [], 0;
    }

    method OthersStep()
      modifies this
      ensures Snapshot() == OthersWrite(old(Snapshot()))
    {
      if now < |script| {
        var batch := script[now];
        for i := 0 to |batch|
          invariant Snapshot() == old(Snapshot()).(cells := cells)
          invariant ApplyBatch(cells, batch[i..]) == ApplyBatch(old(cells), batch)
        {
          assert batch[i..][1..] == batch[i + 1..];
          var (r, v) := batch[i];
          if r in cells {
            cells := cells[r := Cell(v, cells[r].version + 1)];
          }
        }
        now := now + 1;
      }
    }

    /** The innermost frame that binds `x`, if there is one. */
    method FindFrame(x: string) returns (k: int)
      ensures -1 <= k < |env| && (k >= 0 ==> x in env[k]) && forall j :: k < j < |env| ==> x !in env[j]
    {
      k := |env| - 1;
      while k >= 0 && x !in env[k]
        invariant -1 <= k < |env| && forall j :: k < j < |env| ==> x !in env[j]
      {
        k := k - 1;
      }
    }

    method Lookup(x: string) returns (bound: Option<Value>)
      ensures bound == Get(env, x)
    {
      var k := FindFrame(x);
      if k < 0 {
        NoneBinds(env, x, Nil);
        return None;
      }
      InnermostBinds(env, k, x, Nil);
      return Some(env[k][x]);
    }

    /** Assign to the innermost binding of `x`; false if there is none. */
    method AssignVar(x: string, v: Value) returns (found: bool)
      modifies this`env
      ensures match Update(old(env), x, v)
              case Some(after) => found && env == after
              case None => !found && env == old(env)
    {
      var k := FindFrame(x);
      found := k >= 0;
      if found {
        InnermostBinds(env, k, x, v);
        env := env[k := env[k][x := v]];
      } else {
        NoneBinds(env, x, v);
      }
    }

    /** Search the write sets from the innermost transaction outwards. */
    method LookupWrites(r: nat) returns (found: Option<Value>)
      ensures found == Buffered(txnStack, r)
    {
      var i := |txnStack|;
      assert txnStack[..i] == txnStack;
      while i > 0
        invariant 0 <= i <= |txnStack|
        invariant Buffered(txnStack, r) == Buffered(txnStack[..i], r)
      {
        i := i - 1;
        assert txnStack[..i + 1][..i] == txnStack[..i];
        if r in txnStack[i].writes {
          return Some(txnStack[i].writes[r]);
        }
      }
      return None;
    }

    method ReadShared(r: nat) returns (o: Outcome)
      modifies this
      ensures Run(o, Snapshot()) == ReadCell(old(Snapshot()), r)
    {
      OthersStep();
      var buffered := LookupWrites(r);
      if buffered.Some? {
        return Done(buffered.value);
      }
      if r !in cells {
        return Failed(NameError);
      }
      var Cell(value, version) := cells[r];
      if txnStack != [] {
        var n := |txnStack| - 1;
        if r !in txnStack[n].versions {
          txnStack := txnStack[n := txnStack[n].(versions := txnStack[n].versions[r := version])];
        }
        seen := seen + [(r, version)];
      }
      return Done(value);
    }

    method WriteShared(r: nat, v: Value)
      modifies this
      ensures Snapshot() == WriteCell(old(Snapshot()), r, v)
    {
      OthersStep();
      if txnStack != [] {
        var n := |txnStack| - 1;
        txnStack := txnStack[n := txnStack[n].(writes := txnStack[n].writes[r := v])];
      } else if r in cells {
        cells := cells[r := Cell(v, cells[r].version + 1)];
      }
    }

    /** Merge a committed child into the innermost transaction, entry by entry in any order. */
    method MergeIntoParent(inner: Txn)
      requires txnStack != []
      modifies this`txnStack
      ensures txnStack == old(txnStack)[..|old(txnStack)| - 1] + [Merge(old(txnStack)[|old(txnStack)| - 1], inner)]
    {
      var n := |txnStack| - 1;
      var parent := txnStack[n];
      var pending := inner.writes.Keys;
      while pending != {}
        invariant pending <= inner.writes.Keys
        invariant parent.versions == old(txnStack)[n].versions
        invariant parent.writes == old(txnStack)[n].writes + (inner.writes - pending)
        decreases pending
      {
        var r :| r in pending;
        parent := parent.(writes := parent.writes[r := inner.writes[r]]);
        pending := pending - {r};
      }
      assert inner.writes - {} == inner.writes;
      pending := inner.versions.Keys;
      while pending != {}
        invariant pending <= inner.versions.Keys
        invariant parent.writes == old(txnStack)[n].writes + inner.writes
        invariant parent.versions == (inner.versions - pending) + old(txnStack)[n].versions
        decreases pending
      {
        var r :| r in pending;
        if r !in parent.versions {
          parent := parent.(versions := parent.versions[r := inner.versions[r]]);
        }
        pending := pending - {r};
      }
      assert inner.versions - {} == inner.versions;
      txnStack := txnStack[n := parent];
    }

    method HasConflict(versions: map<nat, nat>) returns (conflict: bool)
      ensures conflict == Conflict(cells, versions)
    {
      var pending := versions.Keys;
      while pending != {}
        invariant pending <= versions.Keys
        invariant forall r :: r in versions && r !in pending ==> r in cells && cells[r].version == versions[r]
        decreases pending
      {
        var r :| r in pending;
        if r !in cells || cells[r].version != versions[r] {
          return true;
        }
        pending := pending - {r};
      }
      return false;
    }

    /** Apply the buffered writes, in any order, raising each version once. */
    method PublishWrites(writes: map<nat, Value>)
      modifies this`cells
      ensures cells == Publish(old(cells), writes)
    {
      var pending := writes.Keys;
      while pending != {}
        invariant pending <= writes.Keys
        invariant cells == Publish(old(cells), writes - pending)
        decreases pending
      {
        var r :| r in pending;
        if r in cells {
          cells := cells[r := Cell(writes[r], cells[r].version + 1)];
        }
        pending := pending - {r};
      }
      assert writes - {} == writes;
    }

    /** Commit a popped context; false means that the caller must try again. */
    method CommitTxn(inner: Txn) returns (done: bool)
      modifies this
      ensures var s := old(Snapshot()).(txns := old(txnStack) + [inner]);
              match Settle(Done(Nil), s)
              case Finished(run) => done && Snapshot() == run.state
              case Again(next) => !done && Snapshot() == next
    {
      ghost var s := Snapshot().(txns := txnStack + [inner]);
      if txnStack != [] {
        MergeIntoParent(inner);
        assert s.txns[..|s.txns| - 2] == old(txnStack)[..|old(txnStack)| - 1];
        return true;
      }
      OthersStep();
      var conflict := HasConflict(inner.versions);
      if conflict {
        assert OthersWrite(s).txns[..0] == [];
        return false;
      }
      PublishWrites(inner.writes);
      return true;
    }

    /** After the body: commit, merge or discard the innermost context. */
    method SettleAttempt(o: Outcome) returns (again: bool)
      requires txnStack != []
      modifies this
      ensures match Settle(o, old(Snapshot()))
              case Finished(r) => !again && Run(o, Snapshot()) == r
              case Again(next) => again && Snapshot() == next
    {
      var n := |txnStack| - 1;
      var inner := txnStack[n];
      txnStack := txnStack[..n];
      assert txnStack + [inner] == old(txnStack);
      if Commits(o) {
        SettleIgnoresValue(o, old(Snapshot()));
        var done := CommitTxn(inner);
        again := !done;
      } else {
        if n > 0 {
          discarded := discarded + 1;
        }
        again := o.Retrying?;
      }
    }

    method RunAttempt(body: Expr, fuel: nat) returns (o: Outcome, again: bool)
      modifies this
      ensures var run := Eval(body, fuel, Begin(old(Snapshot())));
              match Settle(run.outcome, run.state)
              case Finished(r) => !again && Run(o, Snapshot()) == r
              case Again(next) => again && Snapshot() == next
      decreases fuel, body, 2
    {
      hide Eval, Settle;
      if txnStack == [] {
        seen := [];
      }
      txnStack := txnStack + [EMPTY_TXN];
      o := EvalExpr(body, fuel);
      again := SettleAttempt(o);
    }

    method EvalTransact(body: Expr, fuel: nat) returns (o: Outcome)
      modifies this
      ensures Run(o, Snapshot()) == Attempts(body, MAX_RETRIES, fuel, old(Snapshot()))
      decreases fuel, body, 3
    {
      hide Attempts, Eval, Settle, MAX_RETRIES;
      for attempt := 0 to MAX_RETRIES
        invariant Attempts(body, MAX_RETRIES - attempt, fuel, Snapshot())
               == Attempts(body, MAX_RETRIES, fuel, old(Snapshot()))
      {
        AttemptUnfolds(body, MAX_RETRIES - attempt, fuel, Snapshot());
        var again;
        o, again := RunAttempt(body, fuel);
        if !again {
          return;
        }
      }
      NoAttemptLeft(body, fuel, Snapshot());
      o := Failed(TooManyRetries);
    }

    method EvalWhile(cond: Expr, body: Expr, fuel: nat) returns (o: Outcome)
      modifies this
      ensures Run(o, Snapshot()) == Eval(While(cond, body), fuel, old(Snapshot()))
      decreases fuel, While(cond, body), 0
    {
      hide Eval;
      var left: nat := fuel;
      while left > 0
        invariant left <= fuel
        invariant Eval(While(cond, body), left, Snapshot()) == Eval(While(cond, body), fuel, old(Snapshot()))
      {
        EvalUnfolds(While(cond, body), left, Snapshot());
        o := EvalExpr(cond, left - 1);
        if !o.Done? {
          return;
        }
        if !Truthy(o.v) {
          o := Done(Nil);
          return;
        }
        o := EvalExpr(body, left - 1);
        if o.Broke? {
          o := Done(Nil);
          return;
        }
        if !o.Done? && !o.Continued? {
          return;
        }
        left := left - 1;
      }
      EvalUnfolds(While(cond, body), 0, Snapshot());
      o := Diverged;
    }

    method EvalExpr(e: Expr, fuel: nat) returns (o: Outcome)
      modifies this
      ensures Run(o, Snapshot()) == Eval(e, fuel, old(Snapshot()))
      decreases fuel, e, 1
    {
      match e
      case Atom(leaf) =>
        match leaf {
          case Const(v) => o := Done(v);
          case Ident(x) =>
            var bound := Lookup(x);
            if bound.None? {
              o := Failed(NameError);
            } else if bound.value.Shared? {
              o := ReadShared(bound.value.cell);
            } else {
              o := Done(bound.value);
            }
          case Retry => o := Retrying;
          case Break => o := Broke;
          case Continue => o := Continued;
        }
      case Act(action, e1) =>
        o := EvalExpr(e1, fuel);
        if o.Done? {
          o := DoAction(action, o.v);
        }
      case Binary(op, lhs, rhs) =>
        o := EvalExpr(lhs, fuel);
        if o.Done? && !ShortCircuits(op, o.v) {
          var left := o.v;
          o := EvalExpr(rhs, fuel);
          if o.Done? && op !in {And, Or} {
            o := Combine(op, left, o.v);
          }
        }
      case Seq(first, second) =>
        o := EvalExpr(first, fuel);
        if o.Done? {
          o := EvalExpr(second, fuel);
        }
      case If(cond, thn, els) =>
        o := EvalExpr(cond, fuel);
        if o.Done? {
          if Truthy(o.v) {
            o := EvalExpr(thn, fuel);
          } else {
            o := EvalExpr(els, fuel);
          }
        }
      case While(cond, body) =>
        o := EvalWhile(cond, body, fuel);
      case Block(body) =>
        o := EvalScope(body, map[], fuel);
      case Transact(body) =>
        o := EvalTransact(body, fuel);
      case Try(body, bind, rescue) =>
        o := EvalExpr(body, fuel);
        if o.Raised? {
          o := EvalScope(rescue, map[bind := o.v], fuel);
        }
    }

    /** In a child of the current frame. */
    method EvalScope(e: Expr, frame: Frame, fuel: nat) returns (o: Outcome)
      modifies this
      ensures Run(o, Snapshot()) == Leave(Eval(e, fuel, Enter(old(Snapshot()), frame)))
      decreases fuel, e, 2
    {
      hide Eval;
      env := env + [frame];
      assert Snapshot() == Enter(old(Snapshot()), frame);
      o := EvalExpr(e, fuel);
      env := env[..|env| - 1];
    }

    method DoAction(action: Action, v: Value) returns (o: Outcome)
      modifies this
      ensures Run(o, Snapshot()) == Perform(action, v, old(Snapshot()))
    {
      match action
      case Let(x) =>
        env := Define(env, x, v);
        o := Done(Nil);
      case Assign(x) =>
        o := DoAssign(x, v);
      case Raise => o := Raised(v);
      case Reply => o := Replied(v);
      case Return => o := Returned(v);
    }

    method DoAssign(x: string, v: Value) returns (o: Outcome)
      modifies this
      ensures Run(o, Snapshot()) == AssignTo(x, Get(old(env), x), v, old(Snapshot()))
    {
      var bound := Lookup(x);
      if bound.Some? && bound.value.Shared? {
        WriteShared(bound.value.cell, v);
        o := Done(Nil);
      } else {
        var found := AssignVar(x, v);
        o := if found then Done(Nil) else Failed(NameError);
      }
    }
  }

  /** Which value a committing attempt carries does not matter to the commit. */
  lemma SettleIgnoresValue(o: Outcome, s: State)
    requires s.txns != [] && Commits(o)
    ensures match Settle(Done(Nil), s)
            case Finished(run) => Settle(o, s) == Finished(Run(o, run.state))
            case Again(next) => Settle(o, s) == Again(next)
  {
  }
}
