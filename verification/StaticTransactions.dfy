/**
 Transactions whose nested transactions cannot be thrown away on their own, as
 can be read off the text: for them serializability and flattening hold under
 every interleaving and every step budget.
 */
module StaticTransactions {
  import opened Values
  import opened ScopeChains
  import opened Transactions
  import opened TransactionLaws
  import opened Serializability
  import opened Flattening

  // ----- ways out of an expression, read off its text -----

  predicate MayRaise(e: Expr) {
    match e
    case Atom(_) => false
    case Act(action, e1) => action.Raise? || MayRaise(e1)
    case Binary(_, lhs, rhs) => MayRaise(lhs) || MayRaise(rhs)
    case Seq(first, second) => MayRaise(first) || MayRaise(second)
    case If(cond, thn, els) => MayRaise(cond) || MayRaise(thn) || MayRaise(els)
    case While(cond, body) => MayRaise(cond) || MayRaise(body)
    case Block(body) => MayRaise(body)
    case Transact(body) => MayRaise(body)
    case Try(_, _, rescue) => MayRaise(rescue)
  }

  /** A `retry` inside a nested transaction concerns that transaction. */
  predicate MayRetry(e: Expr) {
    match e
    case Atom(leaf) => leaf.Retry?
    case Act(_, e1) => MayRetry(e1)
    case Binary(_, lhs, rhs) => MayRetry(lhs) || MayRetry(rhs)
    case Seq(first, second) => MayRetry(first) || MayRetry(second)
    case If(cond, thn, els) => MayRetry(cond) || MayRetry(thn) || MayRetry(els)
    case While(cond, body) => MayRetry(cond) || MayRetry(body)
    case Block(body) => MayRetry(body)
    case Transact(_) => false
    case Try(body, _, rescue) => MayRetry(body) || MayRetry(rescue)
  }

  /** `break` and `continue` in the body of a loop concern that loop. */
  predicate MayBreak(e: Expr) {
    match e
    case Atom(leaf) => leaf.Break? || leaf.Continue?
    case Act(_, e1) => MayBreak(e1)
    case Binary(_, lhs, rhs) => MayBreak(lhs) || MayBreak(rhs)
    case Seq(first, second) => MayBreak(first) || MayBreak(second)
    case If(cond, thn, els) => MayBreak(cond) || MayBreak(thn) || MayBreak(els)
    case While(cond, _) => MayBreak(cond)
    case Block(body) => MayBreak(body)
    case Transact(body) => MayBreak(body)
    case Try(body, _, rescue) => MayBreak(body) || MayBreak(rescue)
  }

  /** The body of every nested transaction ends by its end, by `reply`, by `return` or in an error, if it ends. */
  predicate NestedQuiet(e: Expr) {
    match e
    case Atom(_) => true
    case Act(_, e1) => NestedQuiet(e1)
    case Binary(_, lhs, rhs) => NestedQuiet(lhs) && NestedQuiet(rhs)
    case Seq(first, second) => NestedQuiet(first) && NestedQuiet(second)
    case If(cond, thn, els) => NestedQuiet(cond) && NestedQuiet(thn) && NestedQuiet(els)
    case While(cond, body) => NestedQuiet(cond) && NestedQuiet(body)
    case Block(body) => NestedQuiet(body)
    case Transact(body) => !MayRaise(body) && !MayRetry(body) && !MayBreak(body) && NestedQuiet(body)
    case Try(body, _, rescue) => NestedQuiet(body) && NestedQuiet(rescue)
  }

  /** The outcome is one of those the text allows. */
  predicate Foreseen(o: Outcome, e: Expr) {
    && (o.Raised? ==> MayRaise(e)) && (o.Retrying? ==> MayRetry(e)) && (o.Broke? || o.Continued? ==> MayBreak(e))
  }

  lemma {:induction false} OutcomeForeseen(e: Expr, fuel: nat, s: State)
    ensures Foreseen(Eval(e, fuel, s).outcome, e)
    decreases fuel, e, 1
  {
    EvalUnfolds(e, fuel, s);
    hide Eval, Attempts, EvalLeaf, Perform, Combine, ShortCircuits;
    match e
    case Atom(leaf) => LeafForeseen(leaf, s);
    case Act(action, e1) =>
      OutcomeForeseen(e1, fuel, s);
      var r1 := Eval(e1, fuel, s);
      if r1.outcome.Done? {
        PerformForeseen(action, r1.outcome.v, r1.state);
      }
    case Binary(op, lhs, rhs) =>
      OutcomeForeseen(lhs, fuel, s);
      var r1 := Eval(lhs, fuel, s);
      OutcomeForeseen(rhs, fuel, r1.state);
      var r2 := Eval(rhs, fuel, r1.state);
      if r1.outcome.Done? && r2.outcome.Done? {
        CombineForeseen(op, r1.outcome.v, r2.outcome.v);
      }
    case Seq(first, second) =>
      OutcomeForeseen(first, fuel, s);
      OutcomeForeseen(second, fuel, Eval(first, fuel, s).state);
    case If(cond, thn, els) =>
      OutcomeForeseen(cond, fuel, s);
      OutcomeForeseen(thn, fuel, Eval(cond, fuel, s).state);
      OutcomeForeseen(els, fuel, Eval(cond, fuel, s).state);
    case While(cond, body) =>
      if fuel > 0 {
        OutcomeForeseen(cond, fuel - 1, s);
        var s1 := Eval(cond, fuel - 1, s).state;
        OutcomeForeseen(body, fuel - 1, s1);
        OutcomeForeseen(e, fuel - 1, Eval(body, fuel - 1, s1).state);
      }
    case Block(body) => OutcomeForeseen(body, fuel, Enter(s, map[]));
    case Transact(body) => AttemptsForeseen(body, MAX_RETRIES, fuel, s);
    case Try(body, bind, rescue) =>
      OutcomeForeseen(body, fuel, s);
      var r1 := Eval(body, fuel, s);
      if r1.outcome.Raised? {
        OutcomeForeseen(rescue, fuel, Enter(r1.state, map[bind := r1.outcome.v]));
      }
  }

  lemma LeafForeseen(leaf: Leaf, s: State)
    ensures Foreseen(EvalLeaf(leaf, s).outcome, Atom(leaf))
  {
  }

  lemma PerformForeseen(action: Action, v: Value, s: State)
    ensures var o := Perform(action, v, s).outcome;
            !o.Retrying? && !o.Broke? && !o.Continued? && (o.Raised? ==> action.Raise?)
  {
  }

  lemma CombineForeseen(op: BinOp, l: Value, r: Value)
    ensures Combine(op, l, r).Done? || Combine(op, l, r).Failed?
  {
    hide ApplyBinOp;
  }

  lemma {:induction false} AttemptsForeseen(body: Expr, left: nat, fuel: nat, s: State)
    ensures Foreseen(Attempts(body, left, fuel, s).outcome, Transact(body))
    decreases fuel, body, 2, left
  {
    hide Eval, Settle;
    if left > 0 {
      var run := Eval(body, fuel, Begin(s));
      OutcomeForeseen(body, fuel, Begin(s));
      EvalBalanced(body, fuel, Begin(s));
      SettleOutcome(run.outcome, run.state);
      if Settle(run.outcome, run.state).Again? {
        AttemptsForeseen(body, left - 1, fuel, Settle(run.outcome, run.state).state);
      }
    }
  }

  /** An attempt ends as its body did, unless there is another. */
  lemma SettleOutcome(o: Outcome, s: State)
    requires s.txns != []
    ensures Settle(o, s).Finished? ==> Settle(o, s).run.outcome == o && !o.Retrying?
  {
    hide Conflict, OthersWrite;
  }

  // ----- no nested attempt is thrown away -----

  /** Errors and exhausted budgets end every transaction around them. */
  predicate Aborts(o: Outcome) {
    o.Failed? || o.Diverged?
  }

  /** Unless the whole evaluation is abandoned, no nested attempt is. */
  lemma {:induction false} NothingDiscarded(e: Expr, fuel: nat, s: State)
    requires s.txns != [] && NestedQuiet(e) && !Aborts(Eval(e, fuel, s).outcome)
    ensures Eval(e, fuel, s).state.discarded == s.discarded
    decreases fuel, e, 1
  {
    EvalUnfolds(e, fuel, s);
    hide Eval, Attempts, EvalLeaf, Perform, Combine, ShortCircuits;
    match e
    case Atom(leaf) => LeafKeepsCount(leaf, s);
    case Act(action, e1) =>
      NothingThen(s, e1, fuel);
      var r1 := Eval(e1, fuel, s);
      if r1.outcome.Done? {
        FlattenPerform(action, r1.outcome.v, r1.state);
      }
    case Binary(op, lhs, rhs) =>
      NothingThen(s, lhs, fuel);
      NothingThen(Eval(lhs, fuel, s).state, rhs, fuel);
    case Seq(first, second) =>
      NothingThen(s, first, fuel);
      NothingThen(Eval(first, fuel, s).state, second, fuel);
    case If(cond, thn, els) =>
      NothingThen(s, cond, fuel);
      NothingThen(Eval(cond, fuel, s).state, thn, fuel);
      NothingThen(Eval(cond, fuel, s).state, els, fuel);
    case While(cond, body) =>
      if fuel > 0 {
        NothingThen(s, cond, fuel - 1);
        var s1 := Eval(cond, fuel - 1, s).state;
        NothingThen(s1, body, fuel - 1);
        NothingThen(Eval(body, fuel - 1, s1).state, e, fuel - 1);
      }
    case Block(body) => NothingThen(Enter(s, map[]), body, fuel);
    case Transact(body) => FirstAttemptMerges(body, MAX_RETRIES, fuel, s);
    case Try(body, bind, rescue) =>
      NothingThen(s, body, fuel);
      var r1 := Eval(body, fuel, s);
      if r1.outcome.Raised? {
        NothingThen(Enter(r1.state, map[bind := r1.outcome.v]), rescue, fuel);
      }
  }

  lemma LeafKeepsCount(leaf: Leaf, s: State)
    ensures EvalLeaf(leaf, s).state.discarded == s.discarded
  {
  }

  /** The same for a part, which may be abandoned. */
  lemma {:induction false} NothingThen(s: State, e: Expr, fuel: nat)
    requires s.txns != [] && NestedQuiet(e)
    ensures Eval(e, fuel, s).state.txns != []
    ensures !Aborts(Eval(e, fuel, s).outcome) ==> Eval(e, fuel, s).state.discarded == s.discarded
    decreases fuel, e, 2
  {
    hide Eval;
    EvalBalanced(e, fuel, s);
    if !Aborts(Eval(e, fuel, s).outcome) {
      NothingDiscarded(e, fuel, s);
    }
  }

  /** A quiet nested body is attempted once: it is merged, or everything is abandoned. */
  lemma {:induction false} FirstAttemptMerges(body: Expr, left: nat, fuel: nat, s: State)
    requires s.txns != [] && left > 0 && NestedQuiet(Transact(body))
    ensures var run := Eval(body, fuel, Begin(s));
            && |run.state.txns| == |s.txns| + 1
            && if Commits(run.outcome) then
                 && run.state.discarded == s.discarded
                 && Attempts(body, left, fuel, s) == Run(run.outcome, Merged(run.state))
               else
                 Aborts(run.outcome) && Attempts(body, left, fuel, s) == Run(run.outcome, Discard(run.state))
    decreases fuel, body, 3
  {
    var run := Eval(body, fuel, Begin(s));
    hide Eval, MayRaise, MayRetry, MayBreak;
    EvalBalanced(body, fuel, Begin(s));
    OutcomeForeseen(body, fuel, Begin(s));
    NothingThen(Begin(s), body, fuel);
    AttemptOnce(body, left, fuel, s);
  }

  lemma AttemptOnce(body: Expr, left: nat, fuel: nat, s: State)
    requires s.txns != [] && left > 0
    requires |Eval(body, fuel, Begin(s)).state.txns| == |s.txns| + 1 && !Eval(body, fuel, Begin(s)).outcome.Retrying?
    ensures var run := Eval(body, fuel, Begin(s));
            Attempts(body, left, fuel, s) ==
              Run(run.outcome, if Commits(run.outcome) then Merged(run.state) else Discard(run.state))
  {
    hide Eval;
  }

  /**
   Serializability for every script of direct writes and every step budget, of
   a body whose nested transactions are quiet.
   */
  lemma SerializableIfQuiet(body: Expr, fuel: nat, s: State)
    requires s.txns == [] && NestedQuiet(body) && Commits(Eval(Transact(body), fuel, s).outcome)
    ensures FinalAttempt(body, MAX_RETRIES, fuel, s).Some?
    ensures var a := FinalAttempt(body, MAX_RETRIES, fuel, s).value;
            var r, alone := Eval(Transact(body), fuel, s),
                            Eval(Transact(body), fuel, Alone(a, CommitInstant(body, fuel, a).cells));
            && alone.outcome == r.outcome
            && alone.state.env == r.state.env
            && alone.state.cells == r.state.cells
  {
    hide *;
    Atomicity(body, fuel, s);
    FinalAttemptEnds(body, MAX_RETRIES, fuel, s);
    EvalUnfolds(Transact(body), fuel, s);
    var a := FinalAttempt(body, MAX_RETRIES, fuel, s).value;
    var run := Eval(body, fuel, Begin(a));
    BeginMeans(a);
    EvalBalanced(body, fuel, Begin(a));
    SettleOutcome(run.outcome, run.state);
    CommitsIsNoAbort(run.outcome);
    NothingThen(Begin(a), body, fuel);
    Serializable(body, fuel, s);
  }

  lemma BeginMeans(s: State)
    ensures Begin(s).txns != [] && Begin(s).discarded == s.discarded
  {
  }

  lemma CommitsIsNoAbort(o: Outcome)
    requires Commits(o)
    ensures !Aborts(o)
  {
  }

  // ----- the markers of quiet nested transactions can go -----

  /** The flattened evaluation: abandoned alike, or the same in one transaction. */
  predicate FlatAlike(r: Run, f: Run)
    requires r.state.txns != []
  {
    && f.outcome == r.outcome
    && if Aborts(r.outcome) then f.state == r.state.(txns := f.state.txns, discarded := f.state.discarded)
       else f.state == Collapsed(r.state)
  }

  lemma FlattenIs(e: Expr)
    ensures Flatten(e) ==
              match e
              case Atom(_) => e
              case Act(action, e1) => Act(action, Flatten(e1))
              case Binary(op, lhs, rhs) => Binary(op, Flatten(lhs), Flatten(rhs))
              case Seq(first, second) => Seq(Flatten(first), Flatten(second))
              case If(cond, thn, els) => If(Flatten(cond), Flatten(thn), Flatten(els))
              case While(cond, body) => While(Flatten(cond), Flatten(body))
              case Block(body) => Block(Flatten(body))
              case Transact(body) => Flatten(body)
              case Try(body, bind, rescue) => Try(Flatten(body), bind, Flatten(rescue))
  {
  }

  lemma NestedParts(e: Expr)
    requires NestedQuiet(e)
    ensures match e
            case Atom(_) => true
            case Act(_, e1) => NestedQuiet(e1)
            case Binary(_, lhs, rhs) => NestedQuiet(lhs) && NestedQuiet(rhs)
            case Seq(first, second) => NestedQuiet(first) && NestedQuiet(second)
            case If(cond, thn, els) => NestedQuiet(cond) && NestedQuiet(thn) && NestedQuiet(els)
            case While(cond, body) => NestedQuiet(cond) && NestedQuiet(body)
            case Block(body) => NestedQuiet(body)
            case Transact(body) => NestedQuiet(body)
            case Try(body, _, rescue) => NestedQuiet(body) && NestedQuiet(rescue)
  {
    hide MayRaise, MayRetry, MayBreak;
  }

  lemma AlikeMeans(r: Run, f: Run)
    requires r.state.txns != []
    ensures FlatAlike(r, f) ==> f.outcome == r.outcome
    ensures !Aborts(r.outcome) ==> (FlatAlike(r, f) <==> f == Run(r.outcome, Collapsed(r.state)))
    ensures r.outcome.Done? || r.outcome.Raised? || r.outcome.Broke? || r.outcome.Continued? ==> !Aborts(r.outcome)
  {
    hide Collapse;
  }

  lemma {:induction false} FlattenQuiet(e: Expr, fuel: nat, s: State)
    requires s.txns != [] && NestedQuiet(e)
    ensures Eval(e, fuel, s).state.txns != []
    ensures FlatAlike(Eval(e, fuel, s), Eval(Flatten(e), fuel, Collapsed(s)))
    decreases fuel, e, 1
  {
    hide *;
    EvalBalanced(e, fuel, s);
    NestedParts(e);
    FlattenIs(e);
    EvalUnfolds(e, fuel, s);
    EvalUnfolds(Flatten(e), fuel, Collapsed(s));
    AlikeMeans(Eval(e, fuel, s), Eval(Flatten(e), fuel, Collapsed(s)));
    match e
    case Atom(leaf) =>
      FlattenLeaf(leaf, s);
      AlikeIf(EvalLeaf(leaf, s), EvalLeaf(leaf, Collapsed(s)));
    case Act(action, e1) =>
      FlattenQuiet(e1, fuel, s);
      var r1 := Eval(e1, fuel, s);
      AlikeMeans(r1, Eval(Flatten(e1), fuel, Collapsed(s)));
      if r1.outcome.Done? {
        FlattenPerform(action, r1.outcome.v, r1.state);
        AlikeIf(Perform(action, r1.outcome.v, r1.state), Perform(action, r1.outcome.v, Collapsed(r1.state)));
      }
    case Binary(op, lhs, rhs) => FlattenQuietBinary(e, fuel, s);
    case Seq(first, second) =>
      FlattenQuiet(first, fuel, s);
      var r1 := Eval(first, fuel, s);
      AlikeMeans(r1, Eval(Flatten(first), fuel, Collapsed(s)));
      FlattenQuiet(second, fuel, r1.state);
    case If(cond, thn, els) =>
      FlattenQuiet(cond, fuel, s);
      var r1 := Eval(cond, fuel, s);
      AlikeMeans(r1, Eval(Flatten(cond), fuel, Collapsed(s)));
      FlattenQuiet(thn, fuel, r1.state);
      FlattenQuiet(els, fuel, r1.state);
    case While(cond, body) =>
      if fuel == 0 {
        AbortedHere(s);
      } else {
        FlattenQuietLoop(cond, body, fuel, s);
      }
    case Block(body) => FlattenQuietScope(s, map[], body, fuel);
    case Transact(body) => FlattenQuietNested(body, fuel, s);
    case Try(body, bind, rescue) =>
      FlattenQuiet(body, fuel, s);
      var r1 := Eval(body, fuel, s);
      AlikeMeans(r1, Eval(Flatten(body), fuel, Collapsed(s)));
      if r1.outcome.Raised? {
        FlattenQuietScope(r1.state, map[bind := r1.outcome.v], rescue, fuel);
      }
  }

  lemma AlikeIf(r: Run, f: Run)
    requires r.state.txns != [] && f == Run(r.outcome, Collapsed(r.state))
    ensures FlatAlike(r, f)
  {
    hide Collapse;
  }

  lemma AbortedHere(s: State)
    requires s.txns != []
    ensures FlatAlike(Run(Diverged, s), Run(Diverged, Collapsed(s)))
  {
    hide Collapse;
  }

  /** In a scope of its own. */
  lemma {:induction false} FlattenQuietScope(s: State, frame: Frame, e: Expr, fuel: nat)
    requires s.txns != [] && NestedQuiet(e)
    ensures Leave(Eval(e, fuel, Enter(s, frame))).state.txns != []
    ensures FlatAlike(Leave(Eval(e, fuel, Enter(s, frame))), Leave(Eval(Flatten(e), fuel, Enter(Collapsed(s), frame))))
    decreases fuel, e, 2
  {
    hide *;
    CollapsedEnters(s, frame);
    FlattenQuiet(e, fuel, Enter(s, frame));
    LeaveAlike(Eval(e, fuel, Enter(s, frame)), Eval(Flatten(e), fuel, Enter(Collapsed(s), frame)));
  }

  lemma CollapsedEnters(s: State, frame: Frame)
    requires s.txns != []
    ensures Enter(s, frame).txns != [] && Enter(Collapsed(s), frame) == Collapsed(Enter(s, frame))
  {
    hide Collapse;
  }

  lemma LeaveAlike(r: Run, f: Run)
    requires r.state.txns != [] && |r.state.env| > 1 && |f.state.env| > 1 && FlatAlike(r, f)
    ensures FlatAlike(Leave(r), Leave(f))
  {
    hide Collapse;
  }

  lemma {:induction false} FlattenQuietBinary(e: Expr, fuel: nat, s: State)
    requires s.txns != [] && NestedQuiet(e) && e.Binary?
    ensures Eval(e, fuel, s).state.txns != []
    ensures FlatAlike(Eval(e, fuel, s), Eval(Flatten(e), fuel, Collapsed(s)))
    decreases fuel, e, 0
  {
    hide *;
    EvalBalanced(e, fuel, s);
    NestedParts(e);
    FlattenIs(e);
    EvalUnfolds(e, fuel, s);
    EvalUnfolds(Flatten(e), fuel, Collapsed(s));
    FlattenQuiet(e.lhs, fuel, s);
    var r1 := Eval(e.lhs, fuel, s);
    AlikeMeans(r1, Eval(Flatten(e.lhs), fuel, Collapsed(s)));
    FlattenQuiet(e.rhs, fuel, r1.state);
    var r2 := Eval(e.rhs, fuel, r1.state);
    AlikeMeans(r2, Eval(Flatten(e.rhs), fuel, Collapsed(r1.state)));
    if r1.outcome.Done? && r2.outcome.Done? {
      CombinedAlike(e.op, r1.outcome.v, r2.outcome.v, r2.state);
    }
  }

  lemma CombinedAlike(op: BinOp, a: Value, b: Value, s: State)
    requires s.txns != []
    ensures FlatAlike(Run(Combine(op, a, b), s), Run(Combine(op, a, b), Collapsed(s)))
  {
    hide Collapse, Combine;
  }

  lemma {:induction false} FlattenQuietLoop(cond: Expr, body: Expr, fuel: nat, s: State)
    requires s.txns != [] && NestedQuiet(While(cond, body)) && fuel > 0
    ensures Eval(While(cond, body), fuel, s).state.txns != []
    ensures FlatAlike(Eval(While(cond, body), fuel, s), Eval(Flatten(While(cond, body)), fuel, Collapsed(s)))
    decreases fuel, While(cond, body), 0
  {
    hide *;
    var e := While(cond, body);
    EvalBalanced(e, fuel, s);
    NestedParts(e);
    FlattenIs(e);
    EvalUnfolds(e, fuel, s);
    EvalUnfolds(Flatten(e), fuel, Collapsed(s));
    FlattenQuiet(cond, fuel - 1, s);
    var r1 := Eval(cond, fuel - 1, s);
    AlikeMeans(r1, Eval(Flatten(cond), fuel - 1, Collapsed(s)));
    AlikeIf(Run(Done(Nil), r1.state), Run(Done(Nil), Collapsed(r1.state)));
    FlattenQuiet(body, fuel - 1, r1.state);
    var r2 := Eval(body, fuel - 1, r1.state);
    AlikeMeans(r2, Eval(Flatten(body), fuel - 1, Collapsed(r1.state)));
    AlikeIf(Run(Done(Nil), r2.state), Run(Done(Nil), Collapsed(r2.state)));
    FlattenQuiet(e, fuel - 1, r2.state);
  }

  lemma {:induction false} FlattenQuietNested(body: Expr, fuel: nat, s: State)
    requires s.txns != [] && NestedQuiet(Transact(body))
    ensures Eval(Transact(body), fuel, s).state.txns != []
    ensures FlatAlike(Eval(Transact(body), fuel, s), Eval(Flatten(body), fuel, Collapsed(s)))
    decreases fuel, Transact(body), 0
  {
    hide *;
    EvalBalanced(Transact(body), fuel, s);
    NestedParts(Transact(body));
    EvalUnfolds(Transact(body), fuel, s);
    Retries();
    FirstAttemptMerges(body, MAX_RETRIES, fuel, s);
    BeginCollapses(s);
    FlattenQuiet(body, fuel, Begin(s));
    NestedAlike(Eval(body, fuel, Begin(s)), Eval(Flatten(body), fuel, Collapsed(s)), |s.txns|);
  }

  lemma Retries()
    ensures MAX_RETRIES > 0
  {
  }

  lemma BeginCollapses(s: State)
    requires s.txns != []
    ensures Begin(s).txns != [] && Collapsed(Begin(s)) == Collapsed(s)
  {
    CollapseBegin(s.txns);
    hide Collapse;
  }

  lemma NestedAlike(run: Run, f: Run, n: nat)
    requires |run.state.txns| == n + 1 && n > 0 && FlatAlike(run, f) && (Commits(run.outcome) || Aborts(run.outcome))
    ensures FlatAlike(Run(run.outcome, if Commits(run.outcome) then Merged(run.state) else Discard(run.state)), f)
  {
    CollapseMerge(run.state);
    hide Collapse, Merge;
  }

  /** The same outcome, locals and cells, at the same point of the script; only the count of nested attempts differs. */
  predicate SameButCount(r: Run, f: Run) {
    f.outcome == r.outcome && f.state == r.state.(discarded := f.state.discarded)
  }

  lemma {:induction false} FlattenQuietAttempts(body: Expr, left: nat, fuel: nat, s: State)
    requires s.txns == [] && NestedQuiet(body)
    ensures SameButCount(Attempts(body, left, fuel, s), Attempts(Flatten(body), left, fuel, s))
    decreases left
  {
    hide Eval, Settle, Flatten, NestedQuiet, Conflict, Collapse;
    if left > 0 {
      EvalBalanced(body, fuel, Begin(s));
      EvalBalanced(Flatten(body), fuel, Begin(s));
      FlattenQuiet(body, fuel, Begin(s));
      var run, f := Eval(body, fuel, Begin(s)), Eval(Flatten(body), fuel, Begin(s));
      OneCollapsed(Begin(s));
      OneCollapsed(run.state);
      SettledAlike(run, f);
      SettledAlone(run.outcome, run.state);
      match Settle(run.outcome, run.state)
      case Finished(_) =>
      case Again(next) => FlattenQuietAttempts(body, left - 1, fuel, next);
    }
  }

  lemma OneCollapsed(s: State)
    requires |s.txns| == 1
    ensures Collapsed(s) == s
  {
    assert s.txns == [s.txns[0]];
  }

  lemma SettledAlone(o: Outcome, s: State)
    requires |s.txns| == 1
    ensures Settle(o, s).Again? ==> Settle(o, s).state.txns == []
  {
    hide Conflict;
  }

  lemma SettledAlike(run: Run, f: Run)
    requires |run.state.txns| == 1 && |f.state.txns| == 1 && FlatAlike(run, f) && Collapsed(run.state) == run.state
    ensures !Aborts(run.outcome) ==> Settle(f.outcome, f.state) == Settle(run.outcome, run.state)
    ensures Aborts(run.outcome) ==>
              && Settle(run.outcome, run.state).Finished? && Settle(f.outcome, f.state).Finished?
              && SameButCount(Settle(run.outcome, run.state).run, Settle(f.outcome, f.state).run)
  {
    hide Collapse, Conflict, Publish, OthersWrite;
  }

  /**
   A transaction with quiet nested transactions, and the same transaction
   without their markers: the same outcome, locals and cells under every
   script of direct writes and every step budget, whether it commits or not.
   */
  lemma FlattenQuietTransaction(body: Expr, fuel: nat, s: State)
    requires s.txns == [] && NestedQuiet(body)
    ensures SameButCount(Eval(Transact(body), fuel, s), Eval(Transact(Flatten(body)), fuel, s))
  {
    hide *;
    EvalUnfolds(Transact(Flatten(body)), fuel, s);
    EvalUnfolds(Transact(body), fuel, s);
    FlattenQuietAttempts(body, MAX_RETRIES, fuel, s);
  }
}
