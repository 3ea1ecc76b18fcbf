/**
 What `transact` promises over whole runs: isolation, rollback, atomic commit,
 serializability, and the flattening of nested transactions.
 */
module TransactionLaws {
  import opened Values
  import opened ScopeChains
  import opened Transactions

  /** One unfolding of evaluation, so that proofs need not look at the whole definition. */
  lemma EvalUnfolds(e: Expr, fuel: nat, s: State)
    ensures Eval(e, fuel, s) ==
              match e
              case Atom(leaf) => EvalLeaf(leaf, s)
              case Act(action, e1) =>
                var r1 := Eval(e1, fuel, s);
                if r1.outcome.Done? then Perform(action, r1.outcome.v, r1.state) else r1
              case Binary(op, lhs, rhs) =>
                var r1 := Eval(lhs, fuel, s);
                if !r1.outcome.Done? || ShortCircuits(op, r1.outcome.v) then r1
                else
                  var r2 := Eval(rhs, fuel, r1.state);
                  if !r2.outcome.Done? || op in {And, Or} then r2
                  else Run(Combine(op, r1.outcome.v, r2.outcome.v), r2.state)
              case Seq(first, second) =>
                var r1 := Eval(first, fuel, s);
                if r1.outcome.Done? then Eval(second, fuel, r1.state) else r1
              case If(cond, thn, els) =>
                var r1 := Eval(cond, fuel, s);
                if !r1.outcome.Done? then r1
                else Eval(if Truthy(r1.outcome.v) then thn else els, fuel, r1.state)
              case While(cond, body) =>
                if fuel == 0 then Run(Diverged, s)
                else
                  var r1 := Eval(cond, fuel - 1, s);
                  if !r1.outcome.Done? then r1
                  else if !Truthy(r1.outcome.v) then Run(Done(Nil), r1.state)
                  else
                    var r2 := Eval(body, fuel - 1, r1.state);
                    if r2.outcome.Broke? then Run(Done(Nil), r2.state)
                    else if r2.outcome.Done? || r2.outcome.Continued? then Eval(e, fuel - 1, r2.state)
                    else r2
              case Block(body) => Leave(Eval(body, fuel, Enter(s, map[])))
              case Transact(body) => Attempts(body, MAX_RETRIES, fuel, s)
              case Try(body, bind, rescue) =>
                var r1 := Eval(body, fuel, s);
                if r1.outcome.Raised? then Leave(Eval(rescue, fuel, Enter(r1.state, map[bind := r1.outcome.v])))
                else r1
  {
    hide Attempts, EvalLeaf, Perform, Combine, ShortCircuits, Enter, Leave;
  }

  lemma EvalBalanced(e: Expr, fuel: nat, s: State)
    ensures |Eval(e, fuel, s).state.txns| == |s.txns|
  {
    hide Eval;
    assert Balanced(s.txns, Eval(e, fuel, s).state.txns);
  }

  lemma NoAttemptLeft(body: Expr, fuel: nat, s: State)
    ensures Attempts(body, 0, fuel, s) == Run(Failed(TooManyRetries), s)
  {
  }

  lemma AttemptUnfolds(body: Expr, left: nat, fuel: nat, s: State)
    requires left > 0
    ensures var run := Eval(body, fuel, Begin(s));
            Attempts(body, left, fuel, s) ==
              match Settle(run.outcome, run.state)
              case Finished(done) => done
              case Again(next) => Attempts(body, left - 1, fuel, next)
  {
    hide Eval, Settle;
  }

  // ----- isolation: inside a transaction only the other writers change cells -----

  /** The cells after the others wrote batches `from` up to `to` of the script. */
  function Replayed(cells: Cells, script: seq<Batch>, from: nat, to: nat): (res: Cells)
    requires from <= to <= |script|
    ensures res.Keys == cells.Keys
    decreases |script| - from
  {
    if from == to then cells else Replayed(ApplyBatch(cells, script[from]), script, from + 1, to)
  }

  lemma {:induction false} ReplayedAppend(cells: Cells, script: seq<Batch>, i: nat, j: nat, k: nat)
    requires i <= j <= k <= |script|
    ensures Replayed(cells, script, i, k) == Replayed(Replayed(cells, script, i, j), script, j, k)
    decreases j - i
  {
    if i < j {
      ReplayedAppend(ApplyBatch(cells, script[i]), script, i + 1, j, k);
    }
  }

  /** From `s` to `t` the cells changed by nothing but the script. */
  predicate CellsByOthers(s: State, t: State) {
    && t.script == s.script
    && (s.now == t.now || s.now < t.now <= |s.script|)
    && t.cells == (if s.now < t.now then Replayed(s.cells, s.script, s.now, t.now) else s.cells)
  }

  /** Some transaction of the stack recorded a version of `r` no later than `version`. */
  predicate Recorded(txns: seq<Txn>, r: nat, version: nat) {
    exists k :: 0 <= k < |txns| && r in txns[k].versions && txns[k].versions[r] <= version
  }

  /** No record claims a version the cell has not reached. */
  predicate NotAhead(t: Txn, cells: Cells) {
    forall r :: r in t.versions ==> r in cells && t.versions[r] <= cells[r].version
  }

  /** An enclosing transaction read no later than a nested one. */
  predicate NotLater(outer: Txn, inner: Txn) {
    forall r :: r in outer.versions && r in inner.versions ==> outer.versions[r] <= inner.versions[r]
  }

  /** Nothing on record or used is ahead of the cells. */
  predicate Reached(s: State) {
    && (forall k :: 0 <= k < |s.txns| ==> NotAhead(s.txns[k], s.cells))
    && (forall i :: 0 <= i < |s.seen| ==> s.seen[i].0 in s.cells && s.seen[i].1 <= s.cells[s.seen[i].0].version)
  }

  /** Every committed value the attempt used is still on record for validation. */
  predicate Covered(s: State) {
    && Reached(s)
    && (forall j, k :: 0 <= j < k < |s.txns| ==> NotLater(s.txns[j], s.txns[k]))
    && (forall i :: 0 <= i < |s.seen| ==> Recorded(s.txns, s.seen[i].0, s.seen[i].1))
  }

  /** What evaluation inside a transaction keeps, whatever the others write meanwhile. */
  predicate Follows(s: State, t: State) {
    && CellsByOthers(s, t)
    && s.seen <= t.seen
    && s.discarded <= t.discarded
    && (Reached(s) ==> Reached(t))
    && (s.discarded == t.discarded && Covered(s) ==> Covered(t))
  }

  lemma CellsByOthersTransitive(s: State, t: State, u: State)
    requires CellsByOthers(s, t) && CellsByOthers(t, u)
    ensures CellsByOthers(s, u)
  {
    if s.now < t.now && t.now < u.now {
      ReplayedAppend(s.cells, s.script, s.now, t.now, u.now);
    }
  }

  lemma FollowsTransitive(s: State, t: State, u: State)
    requires Follows(s, t) && Follows(t, u)
    ensures Follows(s, u)
  {
    CellsByOthersTransitive(s, t, u);
  }

  // ----- versions determine values -----

  /** Versions never go back, and an unchanged version means an unchanged value. */
  predicate Evolves(c: Cells, d: Cells) {
    && c.Keys == d.Keys
    && forall r :: r in c ==> c[r].version <= d[r].version && (c[r].version == d[r].version ==> c[r] == d[r])
  }

  lemma {:induction false} BatchEvolves(cells: Cells, batch: Batch)
    ensures Evolves(cells, ApplyBatch(cells, batch))
  {
    if batch != [] {
      BatchEvolves(DirectWrite(cells, batch[0].0, batch[0].1), batch[1..]);
    }
  }

  lemma {:induction false} ReplayedEvolves(cells: Cells, script: seq<Batch>, from: nat, to: nat)
    requires from <= to <= |script|
    ensures Evolves(cells, Replayed(cells, script, from, to))
    decreases |script| - from
  {
    if from < to {
      var next := ApplyBatch(cells, script[from]);
      BatchEvolves(cells, script[from]);
      ReplayedEvolves(next, script, from + 1, to);
    }
  }

  lemma OthersEvolve(s: State, t: State)
    requires CellsByOthers(s, t)
    ensures Evolves(s.cells, t.cells)
  {
    if s.now < t.now {
      ReplayedEvolves(s.cells, s.script, s.now, t.now);
    }
  }

  // ----- isolation -----

  lemma OthersWriteFollows(s: State)
    ensures Follows(s, OthersWrite(s))
  {
    if s.now < |s.script| {
      assert Replayed(s.cells, s.script, s.now, s.now + 1) == ApplyBatch(s.cells, s.script[s.now]);
      OthersEvolve(s, OthersWrite(s));
    }
  }

  /** Changing locals, or putting a write into the innermost transaction, touches no cell. */
  lemma KeepsRecord(txns: seq<Txn>, later: seq<Txn>, r: nat, version: nat)
    requires Recorded(txns, r, version)
    requires |txns| <= |later|
    requires forall k :: 0 <= k < |txns| && r in txns[k].versions ==>
               r in later[k].versions && later[k].versions[r] == txns[k].versions[r]
    ensures Recorded(later, r, version)
  {
    var k :| 0 <= k < |txns| && r in txns[k].versions && txns[k].versions[r] <= version;
    assert r in later[k].versions;
  }

  lemma LocalFollows(s: State, t: State)
    requires t.(env := s.env, txns := s.txns) == s
    requires |t.txns| == |s.txns|
    requires forall k :: 0 <= k < |s.txns| ==> t.txns[k].versions == s.txns[k].versions
    ensures Follows(s, t)
  {
    if Covered(s) {
      forall i | 0 <= i < |t.seen|
        ensures Recorded(t.txns, t.seen[i].0, t.seen[i].1)
      {
        KeepsRecord(s.txns, t.txns, s.seen[i].0, s.seen[i].1);
      }
    }
  }

  lemma NoteReadFollows(s: State, r: nat)
    requires s.txns != [] && r in s.cells
    ensures var n, version := |s.txns| - 1, s.cells[r].version;
            Follows(s, s.(txns := s.txns[n := NoteRead(s.txns[n], r, version)], seen := s.seen + [(r, version)]))
  {
    var n, version := |s.txns| - 1, s.cells[r].version;
    var t := s.(txns := s.txns[n := NoteRead(s.txns[n], r, version)], seen := s.seen + [(r, version)]);
    if Covered(s) {
      assert NotAhead(s.txns[n], s.cells);
      assert NotAhead(t.txns[n], t.cells);
      forall i | 0 <= i < |t.seen|
        ensures Recorded(t.txns, t.seen[i].0, t.seen[i].1)
      {
        if i == |s.seen| {
          assert r in t.txns[n].versions && t.txns[n].versions[r] <= version;
        } else {
          KeepsRecord(s.txns, t.txns, s.seen[i].0, s.seen[i].1);
        }
      }
    }
  }

  lemma ReadCellFollows(s: State, r: nat)
    requires s.txns != []
    ensures Follows(s, ReadCell(s, r).state)
  {
    var s1 := OthersWrite(s);
    OthersWriteFollows(s);
    if Buffered(s1.txns, r).None? && r in s1.cells {
      NoteReadFollows(s1, r);
      FollowsTransitive(s, s1, ReadCell(s, r).state);
    }
  }

  lemma WriteCellFollows(s: State, r: nat, v: Value)
    requires s.txns != []
    ensures Follows(s, WriteCell(s, r, v))
  {
    var s1 := OthersWrite(s);
    OthersWriteFollows(s);
    LocalFollows(s1, WriteCell(s, r, v));
    FollowsTransitive(s, s1, WriteCell(s, r, v));
  }

  lemma LeafFollows(leaf: Leaf, s: State)
    requires s.txns != []
    ensures Follows(s, EvalLeaf(leaf, s).state)
  {
    if leaf.Ident? && Get(s.env, leaf.x).Some? && Get(s.env, leaf.x).value.Shared? {
      ReadCellFollows(s, Get(s.env, leaf.x).value.cell);
    }
  }

  lemma PerformFollows(action: Action, v: Value, s: State)
    requires s.txns != []
    ensures Follows(s, Perform(action, v, s).state)
  {
    if action.Assign? && Get(s.env, action.x).Some? && Get(s.env, action.x).value.Shared? {
      WriteCellFollows(s, Get(s.env, action.x).value.cell, v);
    } else {
      LocalFollows(s, Perform(action, v, s).state);
    }
    hide Follows, WriteCell, Get, Update;
  }

  lemma BeginFollows(s: State)
    requires s.txns != []
    ensures Follows(s, Begin(s))
  {
    forall i | 0 <= i < |s.seen| && Recorded(s.txns, s.seen[i].0, s.seen[i].1)
      ensures Recorded(Begin(s).txns, s.seen[i].0, s.seen[i].1)
    {
      KeepsRecord(s.txns, Begin(s).txns, s.seen[i].0, s.seen[i].1);
    }
  }

  function Merged(s: State): State
    requires |s.txns| > 1
  {
    var n := |s.txns| - 1;
    s.(txns := s.txns[..n - 1] + [Merge(s.txns[n - 1], s.txns[n])])
  }

  lemma MergeKeepsRecord(s: State, r: nat, version: nat)
    requires |s.txns| > 1
    requires NotLater(s.txns[|s.txns| - 2], s.txns[|s.txns| - 1])
    requires Recorded(s.txns, r, version)
    ensures Recorded(Merged(s).txns, r, version)
  {
    var n, t := |s.txns| - 1, Merged(s);
    var k :| 0 <= k < |s.txns| && r in s.txns[k].versions && s.txns[k].versions[r] <= version;
    if k < n - 1 {
      assert t.txns[k] == s.txns[k];
    } else {
      assert r in t.txns[n - 1].versions && t.txns[n - 1].versions[r] <= version;
    }
  }

  lemma MergeFollows(s: State)
    requires |s.txns| > 1
    ensures Follows(s, Merged(s))
  {
    var n, t := |s.txns| - 1, Merged(s);
    if Covered(s) {
      assert NotAhead(s.txns[n - 1], s.cells) && NotAhead(s.txns[n], s.cells);
      assert NotLater(s.txns[n - 1], s.txns[n]);
      forall j | 0 <= j < n - 1
        ensures NotLater(t.txns[j], t.txns[n - 1])
      {
        assert NotLater(s.txns[j], s.txns[n - 1]) && NotLater(s.txns[j], s.txns[n]);
      }
      forall i | 0 <= i < |s.seen|
        ensures Recorded(t.txns, s.seen[i].0, s.seen[i].1)
      {
        MergeKeepsRecord(s, s.seen[i].0, s.seen[i].1);
      }
    }
  }

  lemma SettleFollows(o: Outcome, s: State)
    requires |s.txns| > 1
    ensures match Settle(o, s)
            case Finished(done) => Follows(s, done.state)
            case Again(next) => next.txns != [] && Follows(s, next)
  {
    MergeFollows(s);
  }

  lemma {:induction false} AttemptsFollow(body: Expr, left: nat, fuel: nat, s: State)
    requires s.txns != []
    ensures Follows(s, Attempts(body, left, fuel, s).state)
    decreases fuel, body, left
  {
    hide *;
    if left > 0 {
      var run := Eval(body, fuel, Begin(s));
      BeginFollows(s);
      AttemptUnfolds(body, left, fuel, s);
      EvalBalanced(body, fuel, Begin(s));
      EvalFollows(body, fuel, Begin(s));
      SettleFollows(run.outcome, run.state);
      FollowsTransitive(s, Begin(s), run.state);
      match Settle(run.outcome, run.state)
      case Finished(done) =>
        FollowsTransitive(s, run.state, done.state);
      case Again(next) =>
        FollowsTransitive(s, run.state, next);
        AttemptsFollow(body, left - 1, fuel, next);
        FollowsTransitive(s, next, Attempts(body, left - 1, fuel, next).state);
    } else {
      NoAttemptLeft(body, fuel, s);
      LocalFollows(s, s);
    }
  }

  /** Inside a transaction no expression changes a committed cell, and no read goes unrecorded. */
  lemma {:induction false} EvalFollows(e: Expr, fuel: nat, s: State)
    requires s.txns != []
    ensures Follows(s, Eval(e, fuel, s).state)
    decreases fuel, e, 0
  {
    hide *;
    LocalFollows(s, s);
    EvalUnfolds(e, fuel, s);
    match e
    case Atom(leaf) =>
      LeafFollows(leaf, s);
    case Act(action, e1) =>
      EvalFollows(e1, fuel, s);
      EvalBalanced(e1, fuel, s);
      var r1 := Eval(e1, fuel, s);
      if r1.outcome.Done? {
        PerformFollows(action, r1.outcome.v, r1.state);
        FollowsTransitive(s, r1.state, Perform(action, r1.outcome.v, r1.state).state);
      }
    case Binary(op, lhs, rhs) =>
      EvalFollows(lhs, fuel, s);
      EvalBalanced(lhs, fuel, s);
      ThenFollows(s, Eval(lhs, fuel, s).state, rhs, fuel);
    case Seq(first, second) =>
      EvalFollows(first, fuel, s);
      EvalBalanced(first, fuel, s);
      ThenFollows(s, Eval(first, fuel, s).state, second, fuel);
    case If(cond, thn, els) =>
      EvalFollows(cond, fuel, s);
      EvalBalanced(cond, fuel, s);
      var r1 := Eval(cond, fuel, s);
      if r1.outcome.Done? {
        ThenFollows(s, r1.state, if Truthy(r1.outcome.v) then thn else els, fuel);
      }
    case While(cond, body) =>
      if fuel > 0 {
        EvalFollows(cond, fuel - 1, s);
        EvalBalanced(cond, fuel - 1, s);
        var s1 := Eval(cond, fuel - 1, s).state;
        ThenFollows(s, s1, body, fuel - 1);
        EvalBalanced(body, fuel - 1, s1);
        ThenFollows(s, Eval(body, fuel - 1, s1).state, e, fuel - 1);
      }
    case Block(body) =>
      ScopeFollows(s, s, map[], body, fuel);
    case Transact(body) =>
      AttemptsFollow(body, MAX_RETRIES, fuel, s);
    case Try(body, bind, rescue) =>
      EvalFollows(body, fuel, s);
      EvalBalanced(body, fuel, s);
      var r1 := Eval(body, fuel, s);
      if r1.outcome.Raised? {
        ScopeFollows(s, r1.state, map[bind := r1.outcome.v], rescue, fuel);
      }
  }

  /** In a scope of its own. */
  lemma {:induction false} ScopeFollows(s: State, s1: State, frame: Frame, e: Expr, fuel: nat)
    requires s1.txns != []
    requires Follows(s, s1)
    ensures Follows(s, Leave(Eval(e, fuel, Enter(s1, frame))).state)
    decreases fuel, e, 2
  {
    var r := Eval(e, fuel, Enter(s1, frame));
    EvalBalanced(e, fuel, Enter(s1, frame));
    LocalFollows(s1, Enter(s1, frame));
    LocalFollows(r.state, Leave(r).state);
    hide Follows, Eval;
    FollowsTransitive(s, s1, Enter(s1, frame));
    ThenFollows(s, Enter(s1, frame), e, fuel);
    FollowsTransitive(s, r.state, Leave(r).state);
  }

  lemma {:induction false} ThenFollows(s: State, s1: State, e: Expr, fuel: nat)
    requires s1.txns != []
    requires Follows(s, s1)
    ensures Follows(s, Eval(e, fuel, s1).state)
    decreases fuel, e, 1
  {
    hide Follows;
    EvalFollows(e, fuel, s1);
    FollowsTransitive(s, s1, Eval(e, fuel, s1).state);
  }

  // ----- scopes -----

  /** The same names are bound in every frame, but for new ones in the last if it is `open`. */
  predicate SameNames(a: Env, b: Env, open: bool) {
    && |a| == |b|
    && forall k :: 0 <= k < |a| ==>
         a[k].Keys <= b[k].Keys && ((open && k == |a| - 1) || a[k].Keys == b[k].Keys)
  }

  lemma {:induction false} UpdateNames(env: Env, x: string, v: Value)
    ensures Update(env, x, v).Some? ==> SameNames(env, Update(env, x, v).value, false)
  {
    if env != [] && x !in env[|env| - 1] {
      UpdateNames(env[..|env| - 1], x, v);
    }
  }

  lemma PerformNames(action: Action, v: Value, s: State)
    ensures SameNames(s.env, Perform(action, v, s).state.env, true)
  {
    if action.Assign? {
      UpdateNames(s.env, action.x, v);
    }
    hide Update, Get;
  }

  lemma SettleNames(o: Outcome, s: State)
    requires s.txns != []
    ensures match Settle(o, s)
            case Finished(done) => done.state.env == s.env
            case Again(next) => next.env == s.env
  {
    hide Conflict, Publish, Merge;
  }

  /** However evaluation ends, names are declared in the innermost frame and in no other. */
  lemma {:induction false} EvalNames(e: Expr, fuel: nat, s: State)
    ensures SameNames(s.env, Eval(e, fuel, s).state.env, true)
    decreases fuel, e, 0
  {
    EvalUnfolds(e, fuel, s);
    hide Eval, Attempts, Perform, Combine, ShortCircuits, Leave, Enter;
    match e
    case Atom(_) =>
    case Act(action, e1) =>
      EvalNames(e1, fuel, s);
      var r1 := Eval(e1, fuel, s);
      if r1.outcome.Done? {
        PerformNames(action, r1.outcome.v, r1.state);
      }
    case Binary(_, lhs, rhs) =>
      EvalNames(lhs, fuel, s);
      EvalNames(rhs, fuel, Eval(lhs, fuel, s).state);
    case Seq(first, second) =>
      EvalNames(first, fuel, s);
      EvalNames(second, fuel, Eval(first, fuel, s).state);
    case If(cond, thn, els) =>
      EvalNames(cond, fuel, s);
      EvalNames(thn, fuel, Eval(cond, fuel, s).state);
      EvalNames(els, fuel, Eval(cond, fuel, s).state);
    case While(cond, body) =>
      if fuel > 0 {
        EvalNames(cond, fuel - 1, s);
        var s1 := Eval(cond, fuel - 1, s).state;
        EvalNames(body, fuel - 1, s1);
        EvalNames(e, fuel - 1, Eval(body, fuel - 1, s1).state);
      }
    case Block(body) => ScopeNames(s, map[], body, fuel);
    case Transact(body) => AttemptsNames(body, MAX_RETRIES, fuel, s);
    case Try(body, bind, rescue) =>
      EvalNames(body, fuel, s);
      var r1 := Eval(body, fuel, s);
      if r1.outcome.Raised? {
        ScopeNames(r1.state, map[bind := r1.outcome.v], rescue, fuel);
      }
  }

  /** What is declared in a scope is gone with it, and no frame around it has gained or lost a name. */
  lemma {:induction false} ScopeNames(s: State, frame: Frame, e: Expr, fuel: nat)
    ensures SameNames(s.env, Leave(Eval(e, fuel, Enter(s, frame))).state.env, false)
    decreases fuel, e, 1
  {
    hide Eval;
    EvalNames(e, fuel, Enter(s, frame));
  }

  lemma {:induction false} AttemptsNames(body: Expr, left: nat, fuel: nat, s: State)
    ensures SameNames(s.env, Attempts(body, left, fuel, s).state.env, true)
    decreases fuel, body, left
  {
    hide Eval, Settle;
    if left > 0 {
      var run := Eval(body, fuel, Begin(s));
      EvalBalanced(body, fuel, Begin(s));
      EvalNames(body, fuel, Begin(s));
      SettleNames(run.outcome, run.state);
      if Settle(run.outcome, run.state).Again? {
        AttemptsNames(body, left - 1, fuel, Settle(run.outcome, run.state).state);
      }
    }
  }
}
