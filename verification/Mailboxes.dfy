/**
 Actor mailboxes (`ActorSend` and `drain_mailboxes` in
 `src/interpreter/mod.rs`): messages queue up and are dispatched in turn, while
 the handlers they run send more and spawn more actors.
 */
module Mailboxes {
  import opened Values

  datatype Message = Message(target: nat, body: Value)

  /**
   What a handler does when it runs: messages to actors there are by then, actors
   it spawns first, and whether it raises.
   */
  datatype Reaction = Reaction(spawned: nat, sends: seq<Message>, fails: bool)

  /** The bodies of the messages for one actor, in order. */
  function For(actor: nat, ms: seq<Message>): seq<Value> {
    if ms == [] then []
    else For(actor, ms[..|ms| - 1]) + (if ms[|ms| - 1].target == actor then [ms[|ms| - 1].body] else [])
  }

  lemma {:induction false} ForAppend(actor: nat, a: seq<Message>, b: seq<Message>)
    ensures For(actor, a + b) == For(actor, a) + For(actor, b)
    decreases |b|
  {
    if b == [] {
      assert a + b == a;
    } else {
      var n := |b| - 1;
      ForAppend(actor, a, b[..n]);
      assert (a + b)[..|a + b| - 1] == a + b[..n];
    }
  }

  lemma OneMore(ms: seq<Message>, m: Message)
    ensures forall a: nat :: For(a, ms + [m]) == For(a, ms) + (if m.target == a then [m.body] else [])
  {
    assert (ms + [m])[..|ms|] == ms;
  }

  /** Messages for nobody yet. */
  lemma {:induction false} ForNobody(actor: nat, ms: seq<Message>, live: nat)
    requires actor >= live && forall k :: 0 <= k < |ms| ==> ms[k].target < live
    ensures For(actor, ms) == []
  {
    if ms != [] {
      ForNobody(actor, ms[..|ms| - 1], live);
    }
  }

  /** The messages that reach an actor, where `live` actors there are. */
  function Deliverable(ms: seq<Message>, live: nat): seq<Message> {
    if ms == [] then []
    else
      var n := |ms| - 1;
      Deliverable(ms[..n], live) + if ms[n].target < live then [ms[n]] else []
  }

  /** Nothing addressed to a live actor is missing, doubled or out of order, and nothing else is there. */
  lemma {:induction false} DeliverableKeeps(ms: seq<Message>, live: nat)
    ensures forall k :: 0 <= k < |Deliverable(ms, live)| ==> Deliverable(ms, live)[k].target < live
    ensures forall a: nat :: a < live ==> For(a, Deliverable(ms, live)) == For(a, ms)
  {
    if ms != [] {
      var n := |ms| - 1;
      DeliverableKeeps(ms[..n], live);
      var done := Deliverable(ms[..n], live);
      assert Deliverable(ms, live) == if ms[n].target < live then done + [ms[n]] else done;
      OneMore(done, ms[n]);
    }
  }

  /** How many actors there are after the reactions, from `live` at first. */
  function Population(rs: seq<Reaction>, live: nat): nat {
    if rs == [] then live else Population(rs[..|rs| - 1], live) + rs[|rs| - 1].spawned
  }

  /** What the reactions send, one after the other, each to the actors there are after its own spawns. */
  function SentBy(rs: seq<Reaction>, live: nat): seq<Message> {
    if rs == [] then []
    else SentBy(rs[..|rs| - 1], live) + Deliverable(rs[|rs| - 1].sends, Population(rs, live))
  }

  lemma OneReaction(rs: seq<Reaction>, k: nat, live: nat)
    requires k < |rs|
    ensures Population(rs[..k + 1], live) == Population(rs[..k], live) + rs[k].spawned
    ensures SentBy(rs[..k + 1], live) ==
              SentBy(rs[..k], live) + Deliverable(rs[k].sends, Population(rs[..k + 1], live))
  {
    assert rs[..k + 1][..k] == rs[..k];
  }

  datatype Drained = Complete | Raised | Unfinished

  /** The live actors' mailboxes, with a record of everything sent and dispatched. */
  class ActorSystem {
    var mailboxes: seq<seq<Value>>
    ghost var sent: seq<Message>
    ghost var dispatched: seq<Message>

    /** Nothing lost, repeated or reordered: what was sent to an actor is what was dispatched to it and what waits. */
    ghost predicate Conserved()
      reads this
    {
      && (forall a :: 0 <= a < |mailboxes| ==> For(a, sent) == For(a, dispatched) + mailboxes[a])
      && (forall k :: 0 <= k < |sent| ==> sent[k].target < |mailboxes|)
      && (forall k :: 0 <= k < |dispatched| ==> dispatched[k].target < |mailboxes|)
    }

    constructor ()
      ensures Conserved() && mailboxes == [] && sent == [] && dispatched == []
    {
      mailboxes, sent, dispatched := [], [], [];
    }

    method Spawn()
      requires Conserved()
      modifies this
      ensures Conserved() && mailboxes == old(mailboxes) + [[]]
      ensures sent == old(sent) && dispatched == old(dispatched)
    {
      ForNobody(|mailboxes|, sent, |mailboxes|);
      ForNobody(|mailboxes|, dispatched, |mailboxes|);
      mailboxes := mailboxes + [[]];
    }

    /** `actor ! body`: to the end of the actor's mailbox. */
    method Send(m: Message)
      requires Conserved() && m.target < |mailboxes|
      modifies this
      ensures Conserved() && sent == old(sent) + [m] && dispatched == old(dispatched)
      ensures mailboxes == old(mailboxes)[m.target := old(mailboxes)[m.target] + [m.body]]
    {
      assert (sent + [m])[..|sent|] == sent;
      mailboxes := mailboxes[m.target := mailboxes[m.target] + [m.body]];
      sent := sent + [m];
    }

    /** Take the first message of a mailbox. */
    method Receive(a: nat) returns (m: Message)
      requires Conserved() && a < |mailboxes| && mailboxes[a] != []
      modifies this
      ensures Conserved() && sent == old(sent) && dispatched == old(dispatched) + [m]
      ensures m == Message(a, old(mailboxes)[a][0]) && mailboxes == old(mailboxes)[a := old(mailboxes)[a][1..]]
    {
      m := Message(a, mailboxes[a][0]);
      OneMore(dispatched, m);
      hide For;
      assert mailboxes[a] == [m.body] + mailboxes[a][1..];
      mailboxes := mailboxes[a := mailboxes[a][1..]];
      dispatched := dispatched + [m];
    }

    method SpawnAll(count: nat)
      requires Conserved()
      modifies this
      ensures Conserved() && |mailboxes| == |old(mailboxes)| + count
      ensures sent == old(sent) && dispatched == old(dispatched)
      ensures forall a :: 0 <= a < |mailboxes| ==>
                mailboxes[a] == if a < |old(mailboxes)| then old(mailboxes)[a] else []
    {
      var n := 0;
      while n < count
        invariant n <= count && Conserved() && |mailboxes| == |old(mailboxes)| + n
        invariant sent == old(sent) && dispatched == old(dispatched)
        invariant forall a :: 0 <= a < |mailboxes| ==>
                    mailboxes[a] == if a < |old(mailboxes)| then old(mailboxes)[a] else []
      {
        Spawn();
        n := n + 1;
      }
    }

    /** A message to an actor there is not is an error before it is queued. */
    method SendAll(ms: seq<Message>)
      requires Conserved()
      modifies this
      ensures Conserved() && |mailboxes| == |old(mailboxes)| && dispatched == old(dispatched)
      ensures sent == old(sent) + Deliverable(ms, |mailboxes|)
      ensures Delivered(old(mailboxes), Deliverable(ms, |mailboxes|), mailboxes)
    {
      hide For, Conserved, Deliverable, Delivered;
      var k := 0;
      NothingSent(ms, mailboxes);
      while k < |ms|
        invariant k <= |ms| && Conserved() && |mailboxes| == |old(mailboxes)|
        invariant sent == old(sent) + Deliverable(ms[..k], |mailboxes|) && dispatched == old(dispatched)
        invariant Delivered(old(mailboxes), Deliverable(ms[..k], |mailboxes|), mailboxes)
      {
        var m := ms[k];
        DeliverableStep(ms, k, |mailboxes|);
        if m.target < |mailboxes| {
          DeliveredMore(old(mailboxes), Deliverable(ms[..k], |mailboxes|), mailboxes, m);
          Send(m);
        }
        k := k + 1;
      }
      assert ms[..|ms|] == ms;
    }

    /** Run a handler. */
    method Run(r: Reaction)
      requires Conserved()
      modifies this
      ensures Conserved() && |mailboxes| == |old(mailboxes)| + r.spawned && dispatched == old(dispatched)
      ensures sent == old(sent) + Deliverable(r.sends, |mailboxes|)
      ensures forall a :: 0 <= a < |mailboxes| ==>
                mailboxes[a] == (if a < |old(mailboxes)| then old(mailboxes)[a] else [])
                                + For(a, Deliverable(r.sends, |mailboxes|))
    {
      hide For, Conserved, Deliverable;
      SpawnAll(r.spawned);
      SendAll(r.sends);
    }

    /** Dispatch the first message of a mailbox to its handler. */
    method Dispatch(a: nat, r: Reaction)
      requires Conserved() && a < |mailboxes| && mailboxes[a] != []
      modifies this
      ensures Conserved() && |mailboxes| == |old(mailboxes)| + r.spawned
      ensures dispatched == old(dispatched) + [Message(a, old(mailboxes)[a][0])]
      ensures sent == old(sent) + Deliverable(r.sends, |mailboxes|)
      ensures forall b :: 0 <= b < |old(mailboxes)| && b != a ==>
                mailboxes[b] == old(mailboxes)[b] + For(b, Deliverable(r.sends, |mailboxes|))
    {
      hide For, Conserved, Deliverable;
      var m := Receive(a);
      Run(r);
    }

    /**
     Visit every actor once, in order, also those spawned meanwhile, and dispatch
     its messages until its mailbox is empty, one reaction for each. `marks`
     records what had been sent when each actor's visit ended.
     */
    method Drain(reactions: seq<Reaction>) returns (outcome: Drained, ghost marks: seq<nat>)
      requires Conserved()
      modifies this
      ensures Conserved() && old(dispatched) <= dispatched
      // one reaction for each message dispatched, and what they send and spawn
      ensures var used := |dispatched| - |old(dispatched)|;
              && used <= |reactions|
              && sent == old(sent) + SentBy(reactions[..used], |old(mailboxes)|)
              && |mailboxes| == Population(reactions[..used], |old(mailboxes)|)
      // actor after actor, and each one visited has what was sent to it since
      ensures forall j, k :: |old(dispatched)| <= j < k < |dispatched| ==> dispatched[j].target <= dispatched[k].target
      ensures |marks| <= |mailboxes|
      ensures forall a :: 0 <= a < |marks| ==>
                |old(sent)| <= marks[a] <= |sent| && mailboxes[a] == For(a, sent[marks[a]..])
      // exactly when it ends which way
      ensures var used := |dispatched| - |old(dispatched)|;
              && (forall k :: 0 <= k < used - 1 ==> !reactions[k].fails)
              && (outcome == Raised <==> used > 0 && reactions[used - 1].fails)
              && (outcome == Unfinished <==>
                    outcome != Raised && used == |reactions| && |marks| < |mailboxes| && mailboxes[|marks|] != [])
              && (outcome == Complete <==> outcome != Raised && |marks| == |mailboxes|)
    {
      hide For, Conserved, Deliverable, SentBy, Population, Visited, InOrder;
      var i, used := 0, 0;
      marks := [];
      ghost var s0, d0, n0 := sent, dispatched, |mailboxes|;
      NoReaction(reactions, n0);
      NothingVisited(s0, mailboxes, d0);
      while i < |mailboxes|
        invariant Conserved() && i <= |mailboxes| && used <= |reactions| && |marks| == i
        invariant d0 <= dispatched && |dispatched| == |d0| + used
        invariant sent == s0 + SentBy(reactions[..used], n0) && |mailboxes| == Population(reactions[..used], n0)
        invariant forall k :: 0 <= k < used ==> !reactions[k].fails
        invariant Visited(marks, |s0|, sent, mailboxes) && InOrder(|d0|, dispatched, i)
        decreases |reactions| - used, |mailboxes| - i
      {
        ghost var usedBefore, live := used, |mailboxes|;
        while mailboxes[i] != []
          invariant usedBefore <= used && (used == usedBefore ==> |mailboxes| == live)
          invariant Conserved() && i < |mailboxes| && used <= |reactions| && |marks| == i
          invariant d0 <= dispatched && |dispatched| == |d0| + used
          invariant sent == s0 + SentBy(reactions[..used], n0) && |mailboxes| == Population(reactions[..used], n0)
          invariant forall k :: 0 <= k < used ==> !reactions[k].fails
          invariant Visited(marks, |s0|, sent, mailboxes) && InOrder(|d0|, dispatched, i)
          decreases |reactions| - used
        {
          if used == |reactions| {
            outcome := Unfinished;
            VisitedMeans(marks, |s0|, sent, mailboxes, |d0|, dispatched, i);
            return;
          }
          var r := reactions[used];
          OneReaction(reactions, used, n0);
          ghost var before, boxes := sent, mailboxes;
          Dispatch(i, r);
          used := used + 1;
          InOrderMore(|d0|, dispatched, i);
          StillVisited(marks, |s0|, before, boxes, Deliverable(r.sends, |mailboxes|), mailboxes);
          if r.fails {
            outcome := Raised;
            VisitedMeans(marks, |s0|, sent, mailboxes, |d0|, dispatched, i);
            return;
          }
        }
        OneVisited(marks, |s0|, sent, mailboxes, |d0|, dispatched);
        marks := marks + [|sent|];
        i := i + 1;
      }
      VisitedMeans(marks, |s0|, sent, mailboxes, |d0|, dispatched, i);
      outcome := Complete;
    }
  }

  /** Every actor visited has what was sent to it since. */
  predicate Visited(marks: seq<nat>, start: nat, sent: seq<Message>, boxes: seq<seq<Value>>) {
    && |marks| <= |boxes|
    && forall a :: 0 <= a < |marks| ==> start <= marks[a] <= |sent| && boxes[a] == For(a, sent[marks[a]..])
  }

  /** Since `start` messages were dispatched actor after actor, up to `last`. */
  predicate InOrder(start: nat, dispatched: seq<Message>, last: nat) {
    && (forall j, k :: start <= j < k < |dispatched| ==> dispatched[j].target <= dispatched[k].target)
    && forall k :: start <= k < |dispatched| ==> dispatched[k].target <= last
  }

  lemma NothingVisited(sent: seq<Message>, boxes: seq<seq<Value>>, dispatched: seq<Message>)
    ensures Visited([], |sent|, sent, boxes) && InOrder(|dispatched|, dispatched, 0)
  {
  }

  lemma VisitedMeans(marks: seq<nat>, start: nat, sent: seq<Message>, boxes: seq<seq<Value>>, first: nat,
                     dispatched: seq<Message>, last: nat)
    requires Visited(marks, start, sent, boxes) && InOrder(first, dispatched, last)
    ensures |marks| <= |boxes|
    ensures forall a :: 0 <= a < |marks| ==> start <= marks[a] <= |sent| && boxes[a] == For(a, sent[marks[a]..])
    ensures forall j, k :: first <= j < k < |dispatched| ==> dispatched[j].target <= dispatched[k].target
  {
    hide For;
  }

  lemma InOrderMore(start: nat, dispatched: seq<Message>, last: nat)
    requires |dispatched| > start && dispatched[|dispatched| - 1].target == last
    requires InOrder(start, dispatched[..|dispatched| - 1], last)
    ensures InOrder(start, dispatched, last)
  {
  }

  lemma OneVisited(marks: seq<nat>, start: nat, sent: seq<Message>, boxes: seq<seq<Value>>, first: nat,
                   dispatched: seq<Message>)
    requires Visited(marks, start, sent, boxes) && |marks| < |boxes| && boxes[|marks|] == [] && start <= |sent|
    requires InOrder(first, dispatched, |marks|)
    ensures Visited(marks + [|sent|], start, sent, boxes) && InOrder(first, dispatched, |marks| + 1)
  {
    assert sent[|sent|..] == [];
  }

  lemma NoReaction(rs: seq<Reaction>, live: nat)
    ensures Population(rs[..0], live) == live && SentBy(rs[..0], live) == []
  {
  }

  /** Every mailbox has got its messages of the log behind what was in it. */
  predicate Delivered(before: seq<seq<Value>>, log: seq<Message>, after: seq<seq<Value>>) {
    |after| == |before| && forall a :: 0 <= a < |after| ==> after[a] == before[a] + For(a, log)
  }

  lemma DeliveredMore(before: seq<seq<Value>>, log: seq<Message>, after: seq<seq<Value>>, m: Message)
    requires Delivered(before, log, after) && m.target < |after|
    ensures Delivered(before, log + [m], after[m.target := after[m.target] + [m.body]])
  {
    OneMore(log, m);
    hide For;
  }

  lemma NothingSent(ms: seq<Message>, boxes: seq<seq<Value>>)
    ensures Deliverable(ms[..0], |boxes|) == [] && Delivered(boxes, [], boxes)
  {
  }

  lemma DeliverableStep(ms: seq<Message>, k: nat, live: nat)
    requires k < |ms|
    ensures Deliverable(ms[..k + 1], live) ==
              if ms[k].target < live then Deliverable(ms[..k], live) + [ms[k]] else Deliverable(ms[..k], live)
  {
    assert ms[..k + 1][..k] == ms[..k];
  }

  /** What is sent later is added to what was sent since each mark. */
  lemma StillVisited(marks: seq<nat>, start: nat, before: seq<Message>, boxes: seq<seq<Value>>, more: seq<Message>,
                     after: seq<seq<Value>>)
    requires Visited(marks, start, before, boxes) && |marks| < |boxes| <= |after|
    requires forall a :: 0 <= a < |marks| ==> after[a] == boxes[a] + For(a, more)
    ensures Visited(marks, start, before + more, after)
  {
    forall a | 0 <= a < |marks|
      ensures For(a, (before + more)[marks[a]..]) == For(a, before[marks[a]..]) + For(a, more)
    {
      assert (before + more)[marks[a]..] == before[marks[a]..] + more;
      ForAppend(a, before[marks[a]..], more);
    }
    hide For;
  }
}
