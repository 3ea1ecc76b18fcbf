/**
 A committed outermost transaction is equivalent to running its last attempt
 alone, in one go, on the cells as they stand when it commits.
 */
module Serializability {
  import opened Values
  import opened ScopeChains
  import opened Transactions
  import opened TransactionLaws

  // ----- running alone -----

  /** Nobody else writes, and the cells are `cells` from the start. */
  function Alone(s: State, cells: Cells): State {
    s.(cells := cells, script := [], now := 0)
  }

  /** Every committed version the attempt used is still the version in `cells`. */
  predicate Current(seen: seq<(nat, nat)>, cells: Cells) {
    forall i :: 0 <= i < |seen| ==> seen[i].0 in cells && cells[seen[i].0].version == seen[i].1
  }

  /** The run up to `s` has used nothing that `final` contradicts. */
  predicate Agrees(s: State, final: Cells) {
    Evolves(s.cells, final) && Current(s.seen, final)
  }

  lemma Earlier(s: State, t: State, final: Cells)
    requires Follows(s, t) && Agrees(t, final)
    ensures Agrees(s, final)
  {
    OthersEvolve(s, t);
    forall i | 0 <= i < |s.seen|
      ensures s.seen[i].0 in final && final[s.seen[i].0].version == s.seen[i].1
    {
      assert t.seen[i] == s.seen[i];
    }
  }

  lemma ReplayLeaf(leaf: Leaf, s: State, final: Cells)
    requires s.txns != [] && Agrees(EvalLeaf(leaf, s).state, final)
    ensures EvalLeaf(leaf, Alone(s, final))
         == Run(EvalLeaf(leaf, s).outcome, Alone(EvalLeaf(leaf, s).state, final))
  {
    if leaf.Ident? && Get(s.env, leaf.x).Some? && Get(s.env, leaf.x).value.Shared? {
      var r, s1 := Get(s.env, leaf.x).value.cell, OthersWrite(s);
      var t := ReadCell(s, r).state;
      if Buffered(s1.txns, r).None? && r in s1.cells {
        assert t.seen[|s1.seen|] == (r, s1.cells[r].version);
        assert s1.cells[r] == final[r];
      }
    }
  }

  lemma ReplayPerform(action: Action, v: Value, s: State, final: Cells)
    requires s.txns != []
    ensures Perform(action, v, Alone(s, final))
         == Run(Perform(action, v, s).outcome, Alone(Perform(action, v, s).state, final))
  {
  }

  function AloneSettled(x: Settled, cells: Cells): Settled {
    match x
    case Finished(run) => Finished(Run(run.outcome, Alone(run.state, cells)))
    case Again(next) => Again(Alone(next, cells))
  }

  lemma ReplaySettle(o: Outcome, s: State, final: Cells)
    requires |s.txns| > 1
    ensures Settle(o, Alone(s, final)) == AloneSettled(Settle(o, s), final)
  {
  }

  lemma {:induction false} ReplayAttempts(body: Expr, left: nat, fuel: nat, s: State, final: Cells)
    requires s.txns != [] && Agrees(Attempts(body, left, fuel, s).state, final)
    ensures Attempts(body, left, fuel, Alone(s, final))
         == Run(Attempts(body, left, fuel, s).outcome, Alone(Attempts(body, left, fuel, s).state, final))
    decreases fuel, body, 3, left
  {
    hide Follows, Agrees, Eval, Current;
    if left > 0 {
      var run := Eval(body, fuel, Begin(s));
      SettleFollows(run.outcome, run.state);
      ReplaySettle(run.outcome, run.state, final);
      hide Settle;
      assert Begin(Alone(s, final)) == Alone(Begin(s), final);
      match Settle(run.outcome, run.state)
      case Finished(done) =>
        Earlier(run.state, done.state, final);
        Replay(body, fuel, Begin(s), final);
      case Again(next) =>
        AttemptsFollow(body, left - 1, fuel, next);
        Earlier(next, Attempts(body, left - 1, fuel, next).state, final);
        Earlier(run.state, next, final);
        Replay(body, fuel, Begin(s), final);
        ReplayAttempts(body, left - 1, fuel, next, final);
    }
  }

  /** A run whose reads are all still current at the end would have gone the same way on the final cells. */
  lemma {:induction false} Replay(e: Expr, fuel: nat, s: State, final: Cells)
    requires s.txns != [] && Agrees(Eval(e, fuel, s).state, final)
    ensures Eval(e, fuel, Alone(s, final))
         == Run(Eval(e, fuel, s).outcome, Alone(Eval(e, fuel, s).state, final))
    decreases fuel, e, 1
  {
    hide *;
    EvalUnfolds(e, fuel, s);
    EvalUnfolds(e, fuel, Alone(s, final));
    match e
    case Atom(leaf) =>
      ReplayLeaf(leaf, s, final);
    case Act(action, e1) =>
      var r1 := Eval(e1, fuel, s);
      EvalBalanced(e1, fuel, s);
      if r1.outcome.Done? {
        PerformFollows(action, r1.outcome.v, r1.state);
        Earlier(r1.state, Perform(action, r1.outcome.v, r1.state).state, final);
        ReplayPerform(action, r1.outcome.v, r1.state, final);
      }
      Replay(e1, fuel, s, final);
    case Binary(op, lhs, rhs) =>
      var r1 := Eval(lhs, fuel, s);
      EvalBalanced(lhs, fuel, s);
      if r1.outcome.Done? && !ShortCircuits(op, r1.outcome.v) {
        ReplayThen(r1.state, rhs, fuel, final);
      }
      Replay(lhs, fuel, s, final);
    case Seq(first, second) =>
      var r1 := Eval(first, fuel, s);
      EvalBalanced(first, fuel, s);
      if r1.outcome.Done? {
        ReplayThen(r1.state, second, fuel, final);
      }
      Replay(first, fuel, s, final);
    case If(cond, thn, els) =>
      var r1 := Eval(cond, fuel, s);
      EvalBalanced(cond, fuel, s);
      if r1.outcome.Done? {
        ReplayThen(r1.state, if Truthy(r1.outcome.v) then thn else els, fuel, final);
      }
      Replay(cond, fuel, s, final);
    case While(cond, body) =>
      if fuel > 0 {
        ReplayLoop(cond, body, fuel, s, final);
      }
    case Block(body) =>
      ReplayScope(s, map[], body, fuel, final);
    case Transact(body) =>
      ReplayAttempts(body, MAX_RETRIES, fuel, s, final);
    case Try(body, bind, rescue) =>
      var r1 := Eval(body, fuel, s);
      EvalBalanced(body, fuel, s);
      if r1.outcome.Raised? {
        ReplayScope(r1.state, map[bind := r1.outcome.v], rescue, fuel, final);
      }
      Replay(body, fuel, s, final);
  }

  /** In a scope of its own. */
  lemma {:induction false} ReplayScope(s: State, frame: Frame, e: Expr, fuel: nat, final: Cells)
    requires s.txns != [] && Agrees(Leave(Eval(e, fuel, Enter(s, frame))).state, final)
    ensures Agrees(s, final)
    ensures Leave(Eval(e, fuel, Enter(Alone(s, final), frame)))
         == Run(Leave(Eval(e, fuel, Enter(s, frame))).outcome,
                Alone(Leave(Eval(e, fuel, Enter(s, frame))).state, final))
    decreases fuel, e, 3
  {
    hide *;
    EnterAlone(s, frame, final);
    LeaveAlone(Eval(e, fuel, Enter(s, frame)), final);
    ReplayThen(Enter(s, frame), e, fuel, final);
  }

  lemma EnterAlone(s: State, frame: Frame, final: Cells)
    ensures Enter(Alone(s, final), frame) == Alone(Enter(s, frame), final)
    ensures Agrees(Enter(s, frame), final) ==> Agrees(s, final)
  {
    hide Evolves, Current;
  }

  lemma LeaveAlone(r: Run, final: Cells)
    requires |r.state.env| > 1
    ensures |Alone(r.state, final).env| > 1
    ensures Leave(Run(r.outcome, Alone(r.state, final))) == Run(Leave(r).outcome, Alone(Leave(r).state, final))
    ensures Agrees(Leave(r).state, final) ==> Agrees(r.state, final)
  {
    hide Evolves, Current;
  }

  lemma {:induction false} ReplayLoop(cond: Expr, body: Expr, fuel: nat, s: State, final: Cells)
    requires s.txns != [] && fuel > 0 && Agrees(Eval(While(cond, body), fuel, s).state, final)
    ensures Eval(While(cond, body), fuel, Alone(s, final))
         == Run(Eval(While(cond, body), fuel, s).outcome, Alone(Eval(While(cond, body), fuel, s).state, final))
    decreases fuel, While(cond, body), 0
  {
    hide *;
    EvalUnfolds(While(cond, body), fuel, s);
    EvalUnfolds(While(cond, body), fuel, Alone(s, final));
    var r1 := Eval(cond, fuel - 1, s);
    EvalBalanced(cond, fuel - 1, s);
    if r1.outcome.Done? && Truthy(r1.outcome.v) {
      var r2 := Eval(body, fuel - 1, r1.state);
      EvalBalanced(body, fuel - 1, r1.state);
      if r2.outcome.Done? || r2.outcome.Continued? {
        ReplayThen(r2.state, While(cond, body), fuel - 1, final);
      }
      ReplayThen(r1.state, body, fuel - 1, final);
    }
    Replay(cond, fuel - 1, s, final);
  }

  lemma {:induction false} ReplayThen(s: State, e: Expr, fuel: nat, final: Cells)
    requires s.txns != [] && Agrees(Eval(e, fuel, s).state, final)
    ensures Agrees(s, final)
    ensures Eval(e, fuel, Alone(s, final))
         == Run(Eval(e, fuel, s).outcome, Alone(Eval(e, fuel, s).state, final))
    decreases fuel, e, 2
  {
    hide *;
    Replay(e, fuel, s, final);
    EvalFollows(e, fuel, s);
    Earlier(s, Eval(e, fuel, s).state, final);
  }

  // ----- the outermost transaction -----

  /** Where the last attempt of a transaction starts, if one of the attempts settles. */
  function FinalAttempt(body: Expr, left: nat, fuel: nat, s: State): Option<State>
    decreases left
  {
    if left == 0 then None
    else
      var run := Eval(body, fuel, Begin(s));
      match Settle(run.outcome, run.state)
      case Finished(_) => Some(s)
      case Again(next) => FinalAttempt(body, left - 1, fuel, next)
  }

  /** The state in which the attempt started at `a` is validated. */
  function CommitInstant(body: Expr, fuel: nat, a: State): State {
    OthersWrite(Eval(body, fuel, Begin(a)).state)
  }

  /** `r` is the state `t`, validated and with its writes published. */
  predicate CommittedAt(t: State, r: State) {
    && |t.txns| == 1
    && !Conflict(t.cells, t.txns[0].versions)
    && r == t.(txns := [], cells := Publish(t.cells, t.txns[0].writes))
  }

  lemma OutermostSettles(body: Expr, fuel: nat, s: State)
    requires s.txns == []
    ensures var run, t := Eval(body, fuel, Begin(s)), CommitInstant(body, fuel, s);
            && |run.state.txns| == 1
            && CellsByOthers(s, t)
            && match Settle(run.outcome, run.state)
               case Finished(r) =>
                 r.outcome == run.outcome && r.state.txns == [] &&
                 if Commits(r.outcome) then CommittedAt(t, r.state) else CellsByOthers(s, r.state)
               case Again(next) => next.txns == [] && CellsByOthers(s, next)
  {
    var s0 := Begin(s);
    var run := Eval(body, fuel, s0);
    EvalFollows(body, fuel, s0);
    OthersWriteFollows(run.state);
    hide Eval, Settle, OthersWrite, Covered;
    SameCells(s, s, s0);
    CellsByOthersTransitive(s, s0, run.state);
    CellsByOthersTransitive(s, run.state, OthersWrite(run.state));
    SettlesAlone(run.outcome, s, run.state);
  }

  /** Whether only the others wrote does not depend on transactions, locals and observations. */
  lemma SameCells(s: State, t: State, u: State)
    requires t.cells == u.cells && t.script == u.script && t.now == u.now
    ensures CellsByOthers(s, s) && CellsByOthers(s, t) == CellsByOthers(s, u)
  {
  }

  lemma SettlesAlone(o: Outcome, s: State, end: State)
    requires |end.txns| == 1 && CellsByOthers(s, end) && CellsByOthers(s, OthersWrite(end))
    ensures match Settle(o, end)
            case Finished(r) =>
              r.outcome == o && r.state.txns == [] &&
              if Commits(r.outcome) then CommittedAt(OthersWrite(end), r.state) else CellsByOthers(s, r.state)
            case Again(next) => next.txns == [] && CellsByOthers(s, next)
  {
    var t := OthersWrite(end);
    SameCells(s, end, Discard(end));
    assert t.txns == end.txns;
    SameCells(s, t, Discard(t));
    hide CellsByOthers, OthersWrite, Conflict, Publish;
  }

  /** One turn of the attempt loop. */
  lemma AttemptStep(body: Expr, left: nat, fuel: nat, s: State)
    requires left > 0
    ensures var run := Eval(body, fuel, Begin(s));
            match Settle(run.outcome, run.state)
            case Finished(r) =>
              Attempts(body, left, fuel, s) == r && FinalAttempt(body, left, fuel, s) == Some(s)
            case Again(next) =>
              && Attempts(body, left, fuel, s) == Attempts(body, left - 1, fuel, next)
              && FinalAttempt(body, left, fuel, s) == FinalAttempt(body, left - 1, fuel, next)
  {
    hide Eval, Settle;
  }

  lemma {:induction false} FinalAttemptEnds(body: Expr, left: nat, fuel: nat, s: State)
    requires s.txns == []
    ensures var r := Attempts(body, left, fuel, s);
            match FinalAttempt(body, left, fuel, s)
            case None => r.outcome == Failed(TooManyRetries) && CellsByOthers(s, r.state)
            case Some(a) =>
              && a.txns == [] && CellsByOthers(s, a)
              && var run := Eval(body, fuel, Begin(a));
                 Settle(run.outcome, run.state) == Finished(r)
    decreases left
  {
    NoAttempts(body, fuel, s);
    hide *;
    if left > 0 {
      var run := Eval(body, fuel, Begin(s));
      OutermostSettles(body, fuel, s);
      AttemptStep(body, left, fuel, s);
      match Settle(run.outcome, run.state)
      case Finished(_) =>
      case Again(next) =>
        FinalAttemptEnds(body, left - 1, fuel, next);
        match FinalAttempt(body, left - 1, fuel, next)
        case None =>
          CellsByOthersTransitive(s, next, Attempts(body, left - 1, fuel, next).state);
        case Some(a) =>
          CellsByOthersTransitive(s, next, a);
    }
  }

  lemma NoAttempts(body: Expr, fuel: nat, s: State)
    ensures CellsByOthers(s, s)
    ensures Attempts(body, 0, fuel, s) == Run(Failed(TooManyRetries), s)
    ensures FinalAttempt(body, 0, fuel, s).None?
  {
  }

  /**
   All or nothing. A transaction that does not commit leaves the cells as the
   others left them. One that commits raises the version of each cell it wrote
   by exactly one, in one step, and changes no other cell.
   */
  lemma Atomicity(body: Expr, fuel: nat, s: State)
    requires s.txns == []
    ensures var r := Eval(Transact(body), fuel, s);
            && r.state.txns == []
            && (!Commits(r.outcome) ==> CellsByOthers(s, r.state))
            && (Commits(r.outcome) ==>
                  && FinalAttempt(body, MAX_RETRIES, fuel, s).Some?
                  && var t := CommitInstant(body, fuel, FinalAttempt(body, MAX_RETRIES, fuel, s).value);
                     && CellsByOthers(s, t)
                     && CommittedAt(t, r.state)
                     && r.state.cells.Keys == t.cells.Keys
                     && forall c :: c in t.cells ==>
                          r.state.cells[c] ==
                            if c in t.txns[0].writes
                            then Cell(t.txns[0].writes[c], t.cells[c].version + 1)
                            else t.cells[c])
  {
    hide Eval, Settle, CellsByOthers, FinalAttempt, Attempts, OthersWrite, Conflict;
    EvalUnfolds(Transact(body), fuel, s);
    FinalAttemptEnds(body, MAX_RETRIES, fuel, s);
    match FinalAttempt(body, MAX_RETRIES, fuel, s)
    case None =>
    case Some(a) =>
      OutermostSettles(body, fuel, a);
      var r := Attempts(body, MAX_RETRIES, fuel, s);
      if Commits(r.outcome) {
        CellsByOthersTransitive(s, a, CommitInstant(body, fuel, a));
      } else {
        CellsByOthersTransitive(s, a, r.state);
      }
  }

  /** Leaving a nested transaction other than by a commit restores the enclosing one exactly. */
  lemma {:induction false} NestedRollback(body: Expr, left: nat, fuel: nat, s: State)
    requires s.txns != []
    requires !Commits(Attempts(body, left, fuel, s).outcome)
    ensures Attempts(body, left, fuel, s).state.txns == s.txns
  {
    if left > 0 {
      var run := Eval(body, fuel, Begin(s));
      assert run.state.txns[..|s.txns|] == Begin(s).txns[..|s.txns|] == s.txns;
      match Settle(run.outcome, run.state)
      case Finished(_) =>
      case Again(next) => NestedRollback(body, left - 1, fuel, next);
    }
  }

  // ----- serializability -----

  /** What is on record at the end of an outermost attempt. */
  lemma AttemptRecords(body: Expr, fuel: nat, a: State)
    requires a.txns == []
    ensures var t := Eval(body, fuel, Begin(a)).state;
            |t.txns| == 1 && Reached(t) && (t.discarded == a.discarded ==> Covered(t))
  {
    hide Eval, CellsByOthers;
    assert Covered(Begin(a));
    EvalFollows(body, fuel, Begin(a));
    EvalBalanced(body, fuel, Begin(a));
  }

  /** If no nested attempt was thrown away, validating the recorded versions validates every read. */
  lemma ValidationIsComplete(body: Expr, fuel: nat, a: State)
    requires a.txns == []
    requires Eval(body, fuel, Begin(a)).state.discarded == a.discarded
    requires !Conflict(CommitInstant(body, fuel, a).cells, CommitInstant(body, fuel, a).txns[0].versions)
    ensures Current(CommitInstant(body, fuel, a).seen, CommitInstant(body, fuel, a).cells)
  {
    hide *;
    var t := Eval(body, fuel, Begin(a)).state;
    AttemptRecords(body, fuel, a);
    InstantIs(body, fuel, a);
    CoveredStays(t);
    CoveredCurrent(OthersWrite(t));
  }

  lemma CoveredStays(t: State)
    requires Covered(t)
    ensures Covered(OthersWrite(t)) && OthersWrite(t).txns == t.txns
  {
    OthersWriteFollows(t);
    hide Covered, ApplyBatch, CellsByOthers;
  }

  lemma CoveredCurrent(t: State)
    requires |t.txns| == 1 && Covered(t) && !Conflict(t.cells, t.txns[0].versions)
    ensures Current(t.seen, t.cells)
  {
    forall i | 0 <= i < |t.seen|
      ensures t.seen[i].0 in t.cells && t.cells[t.seen[i].0].version == t.seen[i].1
    {
      assert Recorded(t.txns, t.seen[i].0, t.seen[i].1);
    }
  }

  /** Every used version is the one on record. */
  predicate OnRecord(t: Txn, seen: seq<(nat, nat)>) {
    forall i :: 0 <= i < |seen| ==> seen[i].0 in t.versions && t.versions[seen[i].0] == seen[i].1
  }

  /** Whatever the others write last, an attempt that passes validation used current versions only. */
  ghost predicate Validates(s: State)
    requires s.txns != []
  {
    forall batch ::
      !Conflict(ApplyBatch(s.cells, batch), s.txns[0].versions) ==> Current(s.seen, ApplyBatch(s.cells, batch))
  }

  /**
   Exactly when validation is complete: if the attempt is in conflict already, or if every version it used is the one
   on record, those used in nested attempts that were thrown away included.
   */
  lemma ValidationDecides(body: Expr, fuel: nat, a: State)
    requires a.txns == []
    ensures |Eval(body, fuel, Begin(a)).state.txns| == 1
    ensures var t := Eval(body, fuel, Begin(a)).state;
            Validates(t) <==> Conflict(t.cells, t.txns[0].versions) || OnRecord(t.txns[0], t.seen)
  {
    hide *;
    AttemptRecords(body, fuel, a);
    DecidesAt(Eval(body, fuel, Begin(a)).state);
  }

  lemma DecidesAt(t: State)
    requires |t.txns| == 1 && Reached(t)
    ensures Validates(t) <==> Conflict(t.cells, t.txns[0].versions) || OnRecord(t.txns[0], t.seen)
  {
    if Conflict(t.cells, t.txns[0].versions) {
      forall batch
        ensures Conflict(ApplyBatch(t.cells, batch), t.txns[0].versions)
      {
        ConflictStays(t.cells, t.txns[0], batch);
      }
    } else if !OnRecord(t.txns[0], t.seen) {
      var i :| && 0 <= i < |t.seen|
               && !(t.seen[i].0 in t.txns[0].versions && t.txns[0].versions[t.seen[i].0] == t.seen[i].1);
      Escapes(t, i);
    }
  }

  lemma ConflictStays(cells: Cells, t: Txn, batch: Batch)
    requires NotAhead(t, cells) && Conflict(cells, t.versions)
    ensures Conflict(ApplyBatch(cells, batch), t.versions)
  {
    BatchEvolves(cells, batch);
    var r :| r in t.versions && (r !in cells || cells[r].version != t.versions[r]);
    assert r in cells && cells[r].version > t.versions[r];
  }

  /** A read that is not on record: a write to its cell, if it is still current, goes unnoticed. */
  lemma Escapes(t: State, i: nat)
    requires t.txns != [] && Reached(t) && !Conflict(t.cells, t.txns[0].versions) && i < |t.seen|
    requires !(t.seen[i].0 in t.txns[0].versions && t.txns[0].versions[t.seen[i].0] == t.seen[i].1)
    ensures !Validates(t)
  {
    var r := t.seen[i].0;
    var batch := if r in t.txns[0].versions then [] else [(r, Nil)];
    var after := ApplyBatch(t.cells, batch);
    if batch != [] {
      assert batch[1..] == [] && ApplyBatch(DirectWrite(t.cells, r, Nil), []) == DirectWrite(t.cells, r, Nil);
      assert after == DirectWrite(t.cells, r, Nil);
    }
    assert !Conflict(after, t.txns[0].versions);
    assert !Current(t.seen, after);
  }

  lemma ReplayBegin(body: Expr, fuel: nat, a: State)
    requires a.txns == []
    requires var t := CommitInstant(body, fuel, a); Current(t.seen, t.cells)
    ensures var run, final := Eval(body, fuel, Begin(a)), CommitInstant(body, fuel, a).cells;
            Eval(body, fuel, Begin(Alone(a, final))) == Run(run.outcome, Alone(run.state, final))
  {
    hide Eval, Current, CellsByOthers;
    var run, final := Eval(body, fuel, Begin(a)), CommitInstant(body, fuel, a).cells;
    OthersWriteFollows(run.state);
    OthersEvolve(run.state, CommitInstant(body, fuel, a));
    assert Begin(Alone(a, final)) == Alone(Begin(a), final);
    Replay(body, fuel, Begin(a), final);
  }

  lemma AloneCommits(body: Expr, fuel: nat, a: State)
    requires a.txns == []
    requires var run, final := Eval(body, fuel, Begin(a)), CommitInstant(body, fuel, a).cells;
             && Commits(run.outcome)
             && Eval(body, fuel, Begin(Alone(a, final))) == Run(run.outcome, Alone(run.state, final))
    requires |Eval(body, fuel, Begin(a)).state.txns| == 1
    requires var t := CommitInstant(body, fuel, a); !Conflict(t.cells, t.txns[0].versions)
    ensures var t := CommitInstant(body, fuel, a);
            var r := Attempts(body, MAX_RETRIES, fuel, Alone(a, t.cells));
            && r.outcome == Eval(body, fuel, Begin(a)).outcome
            && r.state.env == t.env
            && r.state.cells == Publish(t.cells, t.txns[0].writes)
  {
    var t := CommitInstant(body, fuel, a);
    var b := Alone(a, t.cells);
    hide Eval, Conflict;
    AttemptStep(body, MAX_RETRIES, fuel, b);
  }

  /**
   Serializability, with the reads of thrown-away nested attempts counted: if
   every version the final attempt used is current when it commits, then the
   whole transaction has the outcome, the locals and the cells of the same
   attempt run alone on the cells of that moment.
   */
  lemma SerializableIfCurrent(body: Expr, fuel: nat, s: State)
    requires s.txns == [] && Commits(Eval(Transact(body), fuel, s).outcome)
    requires FinalAttempt(body, MAX_RETRIES, fuel, s).Some?
    requires var t := CommitInstant(body, fuel, FinalAttempt(body, MAX_RETRIES, fuel, s).value);
             Current(t.seen, t.cells)
    ensures var a := FinalAttempt(body, MAX_RETRIES, fuel, s).value;
            var r, alone := Eval(Transact(body), fuel, s),
                            Eval(Transact(body), fuel, Alone(a, CommitInstant(body, fuel, a).cells));
            && alone.outcome == r.outcome
            && alone.state.env == r.state.env
            && alone.state.cells == r.state.cells
  {
    hide Eval, Settle, Attempts, FinalAttempt, CellsByOthers, Conflict, Current, OthersWrite;
    var a := FinalAttempt(body, MAX_RETRIES, fuel, s).value;
    var t := CommitInstant(body, fuel, a);
    EvalUnfolds(Transact(body), fuel, s);
    EvalUnfolds(Transact(body), fuel, Alone(a, t.cells));
    FinalAttemptEnds(body, MAX_RETRIES, fuel, s);
    OutermostSettles(body, fuel, a);
    ReplayBegin(body, fuel, a);
    AloneCommits(body, fuel, a);
  }

  /**
   Serializability under the exact condition for validation to be complete: every version the committed attempt used
   is the one on record, whether or not nested attempts were thrown away.
   */
  lemma SerializableIfOnRecord(body: Expr, fuel: nat, s: State)
    requires s.txns == [] && Commits(Eval(Transact(body), fuel, s).outcome)
    requires FinalAttempt(body, MAX_RETRIES, fuel, s).Some? ==>
               var t := Eval(body, fuel, Begin(FinalAttempt(body, MAX_RETRIES, fuel, s).value)).state;
               t.txns != [] && OnRecord(t.txns[0], t.seen)
    ensures FinalAttempt(body, MAX_RETRIES, fuel, s).Some?
    ensures var a := FinalAttempt(body, MAX_RETRIES, fuel, s).value;
            var r, alone := Eval(Transact(body), fuel, s),
                            Eval(Transact(body), fuel, Alone(a, CommitInstant(body, fuel, a).cells));
            && alone.outcome == r.outcome
            && alone.state.env == r.state.env
            && alone.state.cells == r.state.cells
  {
    hide *;
    Atomicity(body, fuel, s);
    var a := FinalAttempt(body, MAX_RETRIES, fuel, s).value;
    InstantIs(body, fuel, a);
    OnRecordCurrent(Eval(body, fuel, Begin(a)).state, Eval(Transact(body), fuel, s).state);
    SerializableIfCurrent(body, fuel, s);
  }

  lemma InstantIs(body: Expr, fuel: nat, a: State)
    ensures CommitInstant(body, fuel, a) == OthersWrite(Eval(body, fuel, Begin(a)).state)
  {
    hide Eval, OthersWrite;
  }

  lemma OnRecordCurrent(t: State, r: State)
    requires t.txns != [] && OnRecord(t.txns[0], t.seen) && CommittedAt(OthersWrite(t), r)
    ensures Current(OthersWrite(t).seen, OthersWrite(t).cells)
  {
    hide ApplyBatch, Publish;
  }

  /** Serializability: no nested attempt of the committed attempt was thrown away. */
  lemma Serializable(body: Expr, fuel: nat, s: State)
    requires s.txns == [] && Commits(Eval(Transact(body), fuel, s).outcome)
    requires FinalAttempt(body, MAX_RETRIES, fuel, s).Some? ==>
               var a := FinalAttempt(body, MAX_RETRIES, fuel, s).value;
               Eval(body, fuel, Begin(a)).state.discarded == a.discarded
    ensures FinalAttempt(body, MAX_RETRIES, fuel, s).Some?
    ensures var a := FinalAttempt(body, MAX_RETRIES, fuel, s).value;
            var r, alone := Eval(Transact(body), fuel, s),
                            Eval(Transact(body), fuel, Alone(a, CommitInstant(body, fuel, a).cells));
            && alone.outcome == r.outcome
            && alone.state.env == r.state.env
            && alone.state.cells == r.state.cells
  {
    Atomicity(body, fuel, s);
    FinalAttemptEnds(body, MAX_RETRIES, fuel, s);
    ValidationIsComplete(body, fuel, FinalAttempt(body, MAX_RETRIES, fuel, s).value);
    SerializableIfCurrent(body, fuel, s);
  }

  // ----- where it fails -----

  /** `{ raise x }`, the body of a nested transaction that is thrown away. */
  function Peek(): Expr {
    Block(Act(Raise, Atom(Ident("x"))))
  }

  /** `{ try { transact { raise x } } rescue as e { y = e } }` */
  function Leaking(): Expr {
    Block(Try(Block(Transact(Peek())), "e", Block(Act(Assign("y"), Atom(Ident("e"))))))
  }

  const NAMES: Chain := [map["x" := Shared(0), "y" := Shared(1)]]

  /** `x` and `y` are the two cells, whatever else is in scope. */
  predicate NamesCells(env: Chain) {
    Get(env, "x") == Some(Shared(0)) && Get(env, "y") == Some(Shared(1))
  }

  /** What the discarded attempt leaves behind: nothing but that it happened. */
  function Peeked(s: State): State
    requires 0 in s.cells
  {
    OthersWrite(s).(seen := s.seen + [(0, OthersWrite(s).cells[0].version)], discarded := s.discarded + 1)
  }

  lemma ReadsX(s: State)
    requires s.txns == [EMPTY_TXN, EMPTY_TXN] && NamesCells(s.env) && 0 in s.cells
    ensures var r, cell := EvalLeaf(Ident("x"), s), OthersWrite(s).cells[0];
            && r.outcome == Done(cell.value)
            && r.state == OthersWrite(s).(txns := [EMPTY_TXN, NoteRead(EMPTY_TXN, 0, cell.version)],
                                          seen := s.seen + [(0, cell.version)])
  {
    var t := OthersWrite(s);
    assert t.txns[..1] == [EMPTY_TXN] && t.txns[..1][..0] == [];
    assert Buffered(t.txns, 0) == Buffered([EMPTY_TXN], 0) == Buffered([], 0) == None;
    hide Get, ApplyBatch;
  }

  lemma InnerScope(s: State, frame: Frame)
    requires NamesCells(s.env) && "x" !in frame && "y" !in frame
    ensures var t := Enter(s, frame);
            NamesCells(t.env) && OthersWrite(t) == OthersWrite(s).(env := t.env) && t.env[..|s.env|] == s.env
  {
    hide ApplyBatch;
  }

  /** The attempt raises the value it read. */
  lemma PeekRaises(fuel: nat, s: State)
    requires s.txns == [EMPTY_TXN, EMPTY_TXN] && NamesCells(s.env) && 0 in s.cells
    ensures var r, cell := Eval(Peek(), fuel, s), OthersWrite(s).cells[0];
            && r.outcome == Raised(cell.value)
            && r.state == OthersWrite(s).(txns := [EMPTY_TXN, NoteRead(EMPTY_TXN, 0, cell.version)],
                                          seen := s.seen + [(0, cell.version)])
  {
    var e1, s1 := Act(Raise, Atom(Ident("x"))), Enter(s, map[]);
    InnerScope(s, map[]);
    ReadsX(s1);
    hide Eval, NamesCells, OthersWrite, EvalLeaf, NoteRead;
    EvalUnfolds(Peek(), fuel, s);
    EvalUnfolds(e1, fuel, s1);
    EvalUnfolds(e1.e, fuel, s1);
  }

  /** So it is discarded, and its record of the read with it. */
  lemma PeekDiscarded(fuel: nat, s: State)
    requires s.txns == [EMPTY_TXN] && NamesCells(s.env) && 0 in s.cells
    ensures Eval(Transact(Peek()), fuel, s) == Run(Raised(OthersWrite(s).cells[0].value), Peeked(s))
  {
    var s1 := Begin(s);
    PeekRaises(fuel, s1);
    var run := Eval(Peek(), fuel, s1);
    assert run.state.txns[..1] == [EMPTY_TXN];
    hide Eval, NamesCells, NoteRead, Peek;
    EvalUnfolds(Transact(Peek()), fuel, s);
    AttemptStep(Peek(), MAX_RETRIES, fuel, s);
  }

  /** `{ y = e }` with the exception bound to `e`. */
  lemma RescueWrites(fuel: nat, s: State, v: Value)
    requires s.txns == [EMPTY_TXN] && NamesCells(s.env) && !v.Shared?
    ensures Leave(Eval(Block(Act(Assign("y"), Atom(Ident("e")))), fuel, Enter(s, map["e" := v]))) ==
              Run(Done(Nil), OthersWrite(s).(txns := [Txn(map[1 := v], map[])]))
  {
    var body := Act(Assign("y"), Atom(Ident("e")));
    var s1 := Enter(s, map["e" := v]);
    var s2 := Enter(s1, map[]);
    InnerScope(s, map["e" := v]);
    InnerScope(s1, map[]);
    assert Get(s1.env, "e") == Some(v);
    assert s2.env[..|s1.env|] == s1.env;
    assert Get(s2.env, "e") == Some(v);
    hide Eval, OthersWrite, Get;
    EvalUnfolds(Block(body), fuel, s1);
    EvalUnfolds(body, fuel, s2);
    EvalUnfolds(body.e, fuel, s2);
  }

  /** The outer transaction ends with the peeked value for `y` and no record of the read of `x`. */
  lemma LeakingRuns(fuel: nat, s: State)
    requires s.txns == [EMPTY_TXN] && NamesCells(s.env) && 0 in s.cells
    requires !OthersWrite(s).cells[0].value.Shared?
    ensures Eval(Leaking(), fuel, s) ==
              Run(Done(Nil), OthersWrite(Peeked(s)).(txns := [Txn(map[1 := OthersWrite(s).cells[0].value], map[])]))
  {
    var v := OthersWrite(s).cells[0].value;
    var s1 := Enter(s, map[]);
    var s2 := Enter(s1, map[]);
    InnerScope(s, map[]);
    InnerScope(s1, map[]);
    PeekDiscarded(fuel, s2);
    PeekedScope(s, s1);
    PeekedScope(s1, s2);
    hide Eval, OthersWrite, NamesCells, Peeked, Peek;
    var all := Leaking().body;
    EvalUnfolds(Leaking(), fuel, s);
    EvalUnfolds(all, fuel, s1);
    EvalUnfolds(all.body, fuel, s1);
    RescueWrites(fuel, Peeked(s1), v);
  }

  lemma PeekedScope(s: State, t: State)
    requires 0 in s.cells && t == s.(env := t.env)
    ensures Peeked(t) == Peeked(s).(env := t.env)
    ensures OthersWrite(Peeked(t)) == OthersWrite(Peeked(s)).(env := t.env)
  {
    hide ApplyBatch;
  }

  /**
   A read made only by a discarded nested attempt is not validated. When `x`
   goes from 0 to 5 after that read, the transaction still commits and leaves 0
   in `y`; run alone on the cells of its commit it leaves 5.
   */
  lemma DroppedReadIsNotValidated(fuel: nat)
    ensures var cells := map[0 := Cell(Int(0), 0), 1 := Cell(Int(0), 0)];
            var s := State(cells, [[], [(0, Int(5))]], 0, [], NAMES, [], 0);
            var t := CommitInstant(Leaking(), fuel, s);
            var r, alone := Eval(Transact(Leaking()), fuel, s), Eval(Transact(Leaking()), fuel, Alone(s, t.cells));
            && FinalAttempt(Leaking(), MAX_RETRIES, fuel, s) == Some(s)
            && r.outcome == alone.outcome == Done(Nil)
            && 1 in r.state.cells && r.state.cells[1].value == Int(0)
            && 1 in alone.state.cells && alone.state.cells[1].value == Int(5)
  {
    hide Eval, Leaking;
    var cells := map[0 := Cell(Int(0), 0), 1 := Cell(Int(0), 0)];
    var s := State(cells, [[], [(0, Int(5))]], 0, [], NAMES, [], 0);
    var t := CommitInstant(Leaking(), fuel, s);
    LeakingRuns(fuel, Begin(s));
    assert ApplyBatch(cells, []) == cells;
    assert ApplyBatch(cells, [(0, Int(5))]) == DirectWrite(cells, 0, Int(5));
    assert t.cells[0] == Cell(Int(5), 1);
    AttemptStep(Leaking(), MAX_RETRIES, fuel, s);
    EvalUnfolds(Transact(Leaking()), fuel, s);
    LeakingRuns(fuel, Begin(Alone(s, t.cells)));
    AttemptStep(Leaking(), MAX_RETRIES, fuel, Alone(s, t.cells));
    EvalUnfolds(Transact(Leaking()), fuel, Alone(s, t.cells));
  }
}
