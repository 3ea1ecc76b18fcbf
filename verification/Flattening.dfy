/**
 Nested transactions flatten: while no nested attempt is thrown away, a stack of
 transactions behaves as one transaction, and a body as the same body without
 its nested `transact` markers.
 */
module Flattening {
  import opened Values
  import opened ScopeChains
  import opened Transactions
  import opened TransactionLaws

  // ----- a stack of transactions seen as one -----

  function Collapse(txns: seq<Txn>): Txn
    requires txns != []
  {
    if |txns| == 1 then txns[0]
    else Merge(Collapse(txns[..|txns| - 1]), txns[|txns| - 1])
  }

  function Collapsed(s: State): State
    requires s.txns != []
  {
    s.(txns := [Collapse(s.txns)])
  }

  /** Looking a cell up through the stack is looking it up in the collapsed transaction. */
  lemma {:induction false} CollapseLookup(txns: seq<Txn>, r: nat)
    requires txns != []
    ensures Buffered(txns, r) == Buffered([Collapse(txns)], r)
  {
    var c := [Collapse(txns)];
    assert Buffered(c[..0], r).None?;
    if |txns| == 1 {
      assert txns == c;
    } else {
      var outer := txns[..|txns| - 1];
      CollapseLookup(outer, r);
      assert Buffered([Collapse(outer)][..0], r).None?;
    }
  }

  lemma CollapseWrite(txns: seq<Txn>, r: nat, v: Value)
    requires txns != []
    ensures var n, all := |txns| - 1, Collapse(txns);
            Collapse(txns[n := txns[n].(writes := txns[n].writes[r := v])]) == all.(writes := all.writes[r := v])
  {
    var n := |txns| - 1;
    var txns' := txns[n := txns[n].(writes := txns[n].writes[r := v])];
    if n > 0 {
      assert txns'[..n] == txns[..n];
    }
  }

  lemma CollapseRead(txns: seq<Txn>, r: nat, version: nat)
    requires txns != []
    ensures var n := |txns| - 1;
            Collapse(txns[n := NoteRead(txns[n], r, version)]) == NoteRead(Collapse(txns), r, version)
  {
    var n := |txns| - 1;
    var txns' := txns[n := NoteRead(txns[n], r, version)];
    if n > 0 {
      assert txns'[..n] == txns[..n];
    }
  }

  lemma CollapseBegin(txns: seq<Txn>)
    requires txns != []
    ensures Collapse(txns + [EMPTY_TXN]) == Collapse(txns)
  {
    assert (txns + [EMPTY_TXN])[..|txns|] == txns;
  }

  lemma MergeAssociates(a: Txn, b: Txn, c: Txn)
    ensures Merge(a, Merge(b, c)) == Merge(Merge(a, b), c)
  {
    assert a.writes + (b.writes + c.writes) == (a.writes + b.writes) + c.writes;
    assert (c.versions + b.versions) + a.versions == c.versions + (b.versions + a.versions);
  }

  lemma CollapseMerge(s: State)
    requires |s.txns| > 1
    ensures Collapsed(Merged(s)) == Collapsed(s)
  {
    var n := |s.txns| - 1;
    var t := Merged(s);
    if n > 1 {
      assert t.txns[..n - 1] == s.txns[..n - 1] == s.txns[..n][..n - 1];
      assert t.txns[n - 1] == Merge(s.txns[n - 1], s.txns[n]);
      assert s.txns[..n][n - 1] == s.txns[n - 1];
      assert Collapse(s.txns[..n]) == Merge(Collapse(s.txns[..n - 1]), s.txns[n - 1]);
      MergeAssociates(Collapse(s.txns[..n - 1]), s.txns[n - 1], s.txns[n]);
    } else {
      assert Collapse(s.txns[..1]) == s.txns[0];
      assert t.txns == [Merge(s.txns[0], s.txns[1])];
    }
  }

  // ----- the body without nested markers -----

  function Flatten(e: Expr): Expr {
    match e
    case Atom(_) => e
    case Act(action, e1) => Act(action, Flatten(e1))
    case Binary(op, lhs, rhs) => Binary(op, Flatten(lhs), Flatten(rhs))
    case Seq(first, second) => Seq(Flatten(first), Flatten(second))
    case If(cond, thn, els) => If(Flatten(cond), Flatten(thn), Flatten(els))
    case While(cond, body) => While(Flatten(cond), Flatten(body))
    case Block(body) => Block(Flatten(body))
    case Transact(body) => Flatten(body)
    case Try(body, bind, rescue) => Try(Flatten(body), bind, Flatten(rescue))
  }

  lemma FlattenLeaf(leaf: Leaf, s: State)
    requires s.txns != []
    ensures EvalLeaf(leaf, Collapsed(s))
         == Run(EvalLeaf(leaf, s).outcome, Collapsed(EvalLeaf(leaf, s).state))
  {
    hide Get, Collapse, NoteRead, ApplyBatch;
    if leaf.Ident? && Get(s.env, leaf.x).Some? && Get(s.env, leaf.x).value.Shared? {
      var r, s1 := Get(s.env, leaf.x).value.cell, OthersWrite(s);
      CollapseLookup(s1.txns, r);
      if r in s1.cells {
        CollapseRead(s1.txns, r, s1.cells[r].version);
      }
    }
  }

  lemma FlattenPerform(action: Action, v: Value, s: State)
    requires s.txns != []
    ensures Perform(action, v, Collapsed(s))
         == Run(Perform(action, v, s).outcome, Collapsed(Perform(action, v, s).state))
    ensures Perform(action, v, s).state.discarded == s.discarded
  {
    hide Get, Update, Define, Collapse, ApplyBatch;
    if action.Assign? && Get(s.env, action.x).Some? && Get(s.env, action.x).value.Shared? {
      CollapseWrite(OthersWrite(s).txns, Get(s.env, action.x).value.cell, v);
    }
  }

  /** Without a thrown-away attempt, the first attempt of a nested transaction commits. */
  lemma FirstAttemptCommits(body: Expr, left: nat, fuel: nat, s: State)
    requires s.txns != [] && left > 0
    requires Attempts(body, left, fuel, s).state.discarded == s.discarded
    ensures var run := Eval(body, fuel, Begin(s));
            && run.state.discarded == s.discarded
            && |run.state.txns| > 1
            && Attempts(body, left, fuel, s) == Run(run.outcome, Merged(run.state))
  {
    hide Eval, Reached, Covered, CellsByOthers, Conflict, OthersWrite, Publish;
    var run := Eval(body, fuel, Begin(s));
    EvalFollows(body, fuel, Begin(s));
    EvalBalanced(body, fuel, Begin(s));
    if Settle(run.outcome, run.state).Again? {
      AttemptsFollow(body, left - 1, fuel, Settle(run.outcome, run.state).state);
    }
  }

  /** Evaluating inside a stack of transactions is evaluating the flattened body inside one. */
  lemma {:induction false} FlattenCorrect(e: Expr, fuel: nat, s: State)
    requires s.txns != []
    requires Eval(e, fuel, s).state.discarded == s.discarded
    ensures Eval(Flatten(e), fuel, Collapsed(s))
         == Run(Eval(e, fuel, s).outcome, Collapsed(Eval(e, fuel, s).state))
    decreases fuel, e, 1
  {
    hide Follows, Collapse;
    match e
    case Atom(leaf) =>
      FlattenLeaf(leaf, s);
    case Act(action, e1) =>
      var r1 := Eval(e1, fuel, s);
      if r1.outcome.Done? {
        FlattenPerform(action, r1.outcome.v, r1.state);
      }
      FlattenCorrect(e1, fuel, s);
    case Binary(op, lhs, rhs) =>
      var r1 := Eval(lhs, fuel, s);
      if r1.outcome.Done? && !ShortCircuits(op, r1.outcome.v) {
        FlattenThen(s, lhs, r1.state, rhs, fuel);
      }
      FlattenCorrect(lhs, fuel, s);
    case Seq(first, second) =>
      var r1 := Eval(first, fuel, s);
      if r1.outcome.Done? {
        FlattenThen(s, first, r1.state, second, fuel);
      }
      FlattenCorrect(first, fuel, s);
    case If(cond, thn, els) =>
      var r1 := Eval(cond, fuel, s);
      if r1.outcome.Done? {
        FlattenThen(s, cond, r1.state, if Truthy(r1.outcome.v) then thn else els, fuel);
      }
      FlattenCorrect(cond, fuel, s);
    case While(cond, body) =>
      FlattenLoop(cond, body, fuel, s);
    case Block(body) =>
      FlattenScope(s, map[], body, fuel);
    case Transact(body) =>
      FirstAttemptCommits(body, MAX_RETRIES, fuel, s);
      var run := Eval(body, fuel, Begin(s));
      CollapseBegin(s.txns);
      CollapseMerge(run.state);
      FlattenCorrect(body, fuel, Begin(s));
    case Try(body, bind, rescue) =>
      var r1 := Eval(body, fuel, s);
      if r1.outcome.Raised? {
        DiscardedGrows(body, fuel, s);
        DiscardedGrows(rescue, fuel, Enter(r1.state, map[bind := r1.outcome.v]));
        FlattenScope(r1.state, map[bind := r1.outcome.v], rescue, fuel);
      }
      FlattenCorrect(body, fuel, s);
  }

  /** In a scope of its own. */
  lemma {:induction false} FlattenScope(s: State, frame: Frame, e: Expr, fuel: nat)
    requires s.txns != []
    requires Eval(e, fuel, Enter(s, frame)).state.discarded == s.discarded
    ensures Eval(e, fuel, Enter(s, frame)).state.txns != []
    ensures Leave(Eval(Flatten(e), fuel, Enter(Collapsed(s), frame)))
         == Run(Leave(Eval(e, fuel, Enter(s, frame))).outcome, Collapsed(Leave(Eval(e, fuel, Enter(s, frame))).state))
    decreases fuel, e, 2
  {
    EvalBalanced(e, fuel, Enter(s, frame));
    hide Collapse, Eval;
    assert Enter(Collapsed(s), frame) == Collapsed(Enter(s, frame));
    FlattenCorrect(e, fuel, Enter(s, frame));
  }

  /** One turn of a `while` loop. */
  lemma WhileUnfolds(cond: Expr, body: Expr, fuel: nat, s: State)
    ensures fuel == 0 ==> Eval(While(cond, body), fuel, s) == Run(Diverged, s)
    ensures fuel > 0 ==>
              var r1 := Eval(cond, fuel - 1, s);
              var r2 := Eval(body, fuel - 1, r1.state);
              Eval(While(cond, body), fuel, s) ==
                if !r1.outcome.Done? then r1
                else if !Truthy(r1.outcome.v) then Run(Done(Nil), r1.state)
                else if r2.outcome.Broke? then Run(Done(Nil), r2.state)
                else if r2.outcome.Done? || r2.outcome.Continued? then Eval(While(cond, body), fuel - 1, r2.state)
                else r2
  {
  }

  lemma {:induction false} FlattenLoop(cond: Expr, body: Expr, fuel: nat, s: State)
    requires s.txns != []
    requires Eval(While(cond, body), fuel, s).state.discarded == s.discarded
    ensures Eval(Flatten(While(cond, body)), fuel, Collapsed(s))
         == Run(Eval(While(cond, body), fuel, s).outcome, Collapsed(Eval(While(cond, body), fuel, s).state))
    decreases fuel, While(cond, body), 0
  {
    hide Follows, Collapse, Eval;
    WhileUnfolds(cond, body, fuel, s);
    WhileUnfolds(Flatten(cond), Flatten(body), fuel, Collapsed(s));
    if fuel > 0 {
      var r1 := Eval(cond, fuel - 1, s);
      if r1.outcome.Done? && Truthy(r1.outcome.v) {
        var r2 := Eval(body, fuel - 1, r1.state);
        if r2.outcome.Done? || r2.outcome.Continued? {
          DiscardedGrows(cond, fuel - 1, s);
          DiscardedGrows(body, fuel - 1, r1.state);
          DiscardedGrows(While(cond, body), fuel - 1, r2.state);
          FlattenThen(r1.state, body, r2.state, While(cond, body), fuel - 1);
        }
        FlattenThen(s, cond, r1.state, body, fuel - 1);
      }
      FlattenCorrect(cond, fuel - 1, s);
    }
  }

  lemma DiscardedGrows(e: Expr, fuel: nat, s: State)
    requires s.txns != []
    ensures s.discarded <= Eval(e, fuel, s).state.discarded
  {
    hide Eval;
    EvalFollows(e, fuel, s);
  }

  /** `e2` evaluated at `s1`, which `e1` reached from `s` up to a change of locals. */
  lemma {:induction false} FlattenThen(s: State, e1: Expr, s1: State, e2: Expr, fuel: nat)
    requires s.txns != [] && s1.txns != []
    requires s1.discarded == Eval(e1, fuel, s).state.discarded
    requires Eval(e2, fuel, s1).state.discarded == s.discarded
    ensures s1.discarded == s.discarded
    ensures Eval(Flatten(e2), fuel, Collapsed(s1))
         == Run(Eval(e2, fuel, s1).outcome, Collapsed(Eval(e2, fuel, s1).state))
    decreases fuel, e2, 2
  {
    hide Follows, Collapse;
    DiscardedGrows(e1, fuel, s);
    DiscardedGrows(e2, fuel, s1);
    FlattenCorrect(e2, fuel, s1);
  }

  // ----- whole transactions -----

  /** No attempt of the transaction, retried or not, throws a nested attempt away. */
  predicate KeepsNested(body: Expr, left: nat, fuel: nat, s: State)
    decreases left
  {
    left > 0 ==>
      var run := Eval(body, fuel, Begin(s));
      && run.state.discarded == s.discarded
      && (Settle(run.outcome, run.state).Again? ==>
            KeepsNested(body, left - 1, fuel, Settle(run.outcome, run.state).state))
  }

  lemma FlattenSettled(body: Expr, fuel: nat, s: State)
    requires s.txns == [] && Eval(body, fuel, Begin(s)).state.discarded == s.discarded
    ensures Eval(Flatten(body), fuel, Begin(s)) == Eval(body, fuel, Begin(s))
    ensures var run := Eval(body, fuel, Begin(s));
            Settle(run.outcome, run.state).Again? ==> Settle(run.outcome, run.state).state.txns == []
  {
    var run := Eval(body, fuel, Begin(s));
    FlattenCorrect(body, fuel, Begin(s));
    hide Eval;
    assert run.state.txns == [run.state.txns[0]];
  }

  /**
   A transaction and the same transaction with its nested `transact` markers
   removed have the same outcome, locals and cells, under any interleaving.
   */
  lemma {:induction false} FlattenAttempts(body: Expr, left: nat, fuel: nat, s: State)
    requires s.txns == [] && KeepsNested(body, left, fuel, s)
    ensures Attempts(Flatten(body), left, fuel, s) == Attempts(body, left, fuel, s)
    decreases left
  {
    hide Eval, Settle, Flatten;
    if left > 0 {
      FlattenSettled(body, fuel, s);
      var run := Eval(body, fuel, Begin(s));
      match Settle(run.outcome, run.state)
      case Finished(_) =>
      case Again(next) => FlattenAttempts(body, left - 1, fuel, next);
    }
  }

  lemma FlattenTransaction(body: Expr, fuel: nat, s: State)
    requires s.txns == [] && KeepsNested(body, MAX_RETRIES, fuel, s)
    ensures Eval(Transact(Flatten(body)), fuel, s) == Eval(Transact(body), fuel, s)
  {
    hide *;
    EvalUnfolds(Transact(Flatten(body)), fuel, s);
    EvalUnfolds(Transact(body), fuel, s);
    FlattenAttempts(body, MAX_RETRIES, fuel, s);
  }
}
