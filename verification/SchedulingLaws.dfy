/**
 What every tick keeps: no coroutine is lost, doubled or resumed before its
 time, and work that can finish does.
 */
module SchedulingLaws {
  import opened Values
  import opened Scheduling

  // ----- conservation -----

  /** A coroutine's identity and how many awaits it makes in all. */
  datatype Tag = Tag(id: nat, awaits: nat)

  function RunnableTag(r: Runnable): Tag {
    Tag(r.co.id, |Received(r)| + |r.co.script|)
  }

  function WaitingTag(co: Coroutine): Tag {
    Tag(co.id, |co.got| + 1 + |co.script|)
  }

  function FinishedTag(f: Finished): Tag {
    Tag(f.id, |f.got|)
  }

  function ReadyTags(rs: seq<Runnable>): multiset<Tag> {
    if rs == [] then multiset{} else ReadyTags(rs[..|rs| - 1]) + multiset{RunnableTag(rs[|rs| - 1])}
  }

  function ParkedTags(ps: seq<Parked>): multiset<Tag> {
    if ps == [] then multiset{} else ParkedTags(ps[..|ps| - 1]) + multiset{WaitingTag(ps[|ps| - 1].co)}
  }

  function TimerTags(ts: seq<Timer>): multiset<Tag> {
    if ts == [] then multiset{} else TimerTags(ts[..|ts| - 1]) + multiset{WaitingTag(ts[|ts| - 1].co)}
  }

  function ResultTags(fs: seq<Finished>): multiset<Tag> {
    if fs == [] then multiset{} else ResultTags(fs[..|fs| - 1]) + multiset{FinishedTag(fs[|fs| - 1])}
  }

  /** Every coroutine of the scheduler, wherever it is. */
  function Census(s: State): multiset<Tag> {
    ReadyTags(s.ready) + ParkedTags(s.parked) + TimerTags(s.timers) + ResultTags(s.results)
  }

  lemma ReadyAppend(rs: seq<Runnable>, r: Runnable)
    ensures ReadyTags(rs + [r]) == ReadyTags(rs) + multiset{RunnableTag(r)}
  {
    assert (rs + [r])[..|rs|] == rs;
  }

  lemma ParkedAppend(ps: seq<Parked>, p: Parked)
    ensures ParkedTags(ps + [p]) == ParkedTags(ps) + multiset{WaitingTag(p.co)}
  {
    assert (ps + [p])[..|ps|] == ps;
  }

  lemma TimerAppend(ts: seq<Timer>, t: Timer)
    ensures TimerTags(ts + [t]) == TimerTags(ts) + multiset{WaitingTag(t.co)}
  {
    assert (ts + [t])[..|ts|] == ts;
  }

  lemma ResultAppend(fs: seq<Finished>, f: Finished)
    ensures ResultTags(fs + [f]) == ResultTags(fs) + multiset{FinishedTag(f)}
  {
    assert (fs + [f])[..|fs|] == fs;
  }

  lemma {:induction false} TimerWithout(ts: seq<Timer>, i: nat)
    requires i < |ts|
    ensures TimerTags(ts) == TimerTags(Without(ts, i)) + multiset{WaitingTag(ts[i].co)}
  {
    var n := |ts| - 1;
    if i < n {
      TimerWithout(ts[..n], i);
      assert Without(ts, i)[..n - 1] == Without(ts[..n], i);
    } else {
      assert Without(ts, i) == ts[..n];
    }
  }

  /** The first parked coroutine instead of the last. */
  lemma {:induction false} ParkedFirst(ps: seq<Parked>)
    requires ps != []
    ensures ParkedTags(ps) == multiset{WaitingTag(ps[0].co)} + ParkedTags(ps[1..])
  {
    var n := |ps| - 1;
    if n > 0 {
      ParkedFirst(ps[..n]);
      assert ps[..n][1..] == ps[1..][..n - 1];
    }
  }

  lemma CensusParked(s: State, p: Parked)
    ensures Census(s.(parked := s.parked + [p])) == Census(s) + multiset{WaitingTag(p.co)}
  {
    ParkedAppend(s.parked, p);
    hide ParkedTags;
  }

  lemma CensusTimer(s: State, t: Timer)
    ensures Census(s.(timers := s.timers + [t])) == Census(s) + multiset{WaitingTag(t.co)}
  {
    TimerAppend(s.timers, t);
    hide TimerTags;
  }

  lemma CensusResult(s: State, f: Finished)
    ensures Census(s.(results := s.results + [f])) == Census(s) + multiset{FinishedTag(f)}
  {
    ResultAppend(s.results, f);
    hide ResultTags;
  }

  lemma ResumeConserves(s: State, r: Runnable)
    ensures Census(Resume(s, r)) == Census(s) + multiset{RunnableTag(r)}
  {
    hide Census;
    if r.co.script == [] {
      CensusResult(s, Finished(r.co.id, Received(r)));
    } else {
      var task := r.co.script[0];
      var co := Coroutine(r.co.id, r.co.script[1..], Received(r));
      var token := if task in s.tokens then Some(s.tokens[task]) else None;
      match TaskOf(s.tasks, task)
      case Pending(Some(d)) => CensusTimer(s, Timer(d, co, task));
      case _ => CensusParked(s, Parked(co, task, token));
    }
  }

  lemma {:induction false} RunReadyConserves(s: State)
    ensures Census(RunReady(s)) == Census(s)
    decreases |s.ready|
  {
    if s.ready != [] {
      var n := |s.ready| - 1;
      var s1 := s.(ready := s.ready[..n]);
      ResumeConserves(s1, s.ready[n]);
      hide Census, Resume;
      RunReadyConserves(Resume(s1, s.ready[n]));
      CensusReady(s, n);
    }
  }

  lemma CensusReady(s: State, n: nat)
    requires s.ready != [] && n == |s.ready| - 1
    ensures Census(s) == Census(s.(ready := s.ready[..n])) + multiset{RunnableTag(s.ready[n])}
  {
  }

  lemma WakeConserves(s: State, co: Coroutine, task: nat, v: Value)
    ensures Census(Wake(s, co, task, v)) == Census(s) + multiset{WaitingTag(co)}
  {
    ReadyAppend(s.ready, Runnable(co, Some(v)));
  }

  lemma {:induction false} PollParkedConserves(s: State, ps: seq<Parked>, completed: set<nat>, inputs: Inputs)
    ensures Census(PollParked(s, ps, completed, inputs).0) == Census(s) + ParkedTags(ps)
    decreases |ps|
  {
    hide Census, Wake;
    if ps == [] {
      assert ParkedTags(ps) == multiset{};
    } else {
      var p := ps[0];
      ParkedFirst(ps);
      CensusParked(s, p);
      var answer := if ShouldPoll(p, inputs.tokenReady) then Poll(s.tasks, p.task, inputs.polls) else None;
      var more := if p.token.Some? then {p.token.value} else {};
      match answer
      case None =>
        PollParkedConserves(s.(parked := s.parked + [p]), ps[1..], completed, inputs);
      case Some(v) =>
        WakeConserves(s, p.co, p.task, v);
        PollParkedConserves(Wake(s, p.co, p.task, v), ps[1..], completed + more, inputs);
    }
  }

  lemma FireTimerConserves(s: State, i: nat, now: nat, answers: nat -> Option<Value>)
    requires i < |s.timers|
    ensures Census(FireTimer(s, i, now, answers)) == Census(s)
  {
    var t := s.timers[i];
    var s1 := s.(timers := Without(s.timers, i));
    TimerWithout(s.timers, i);
    TimerAppend(s1.timers, Timer(now + 1, t.co, t.task));
    match Poll(s.tasks, t.task, answers)
    case Some(v) => WakeConserves(s1, t.co, t.task, v);
    case None =>
  }

  lemma {:induction false} FireTimersConserve(s: State, now: nat, answers: nat -> Option<Value>)
    ensures Census(FireTimers(s, now, answers)) == Census(s)
    decreases Due(s.timers, now)
  {
    hide Census, FireTimer;
    if s.timers != [] {
      var i := Earliest(s.timers);
      if s.timers[i].deadline <= now {
        FireTimerDue(s, i, now, answers);
        FireTimerConserves(s, i, now, answers);
        FireTimersConserve(FireTimer(s, i, now, answers), now, answers);
      }
    }
  }

  /**
   A tick loses and duplicates nothing: every coroutine is in exactly one
   place before and after, still due to make the same number of awaits in all.
   */
  lemma TickConserves(s: State, inputs: Inputs)
    ensures Census(Tick(s, inputs)) == Census(s)
  {
    var s1 := RunReady(s);
    var s2 := PollParked(s1.(parked := []), s1.parked, {}, inputs).0;
    RunReadyConserves(s);
    PollParkedConserves(s1.(parked := []), s1.parked, {}, inputs);
    FireTimersConserve(s2, inputs.now, inputs.timerPolls);
    hide RunReady, PollParked, FireTimers;
  }

  lemma {:induction false} RunConserves(s: State, inputs: seq<Inputs>)
    ensures Census(Run(s, inputs).0) == Census(s)
    decreases |inputs|
  {
    if inputs != [] {
      TickConserves(s, inputs[0]);
      var s1 := Tick(s, inputs[0]);
      hide Tick, Census;
      RunConserves(s1, inputs[1..]);
    }
  }

  /** A run that completes has exactly one result for every coroutine, with one value for each of its awaits. */
  lemma {:induction false} CompleteRun(s: State, inputs: seq<Inputs>)
    requires Run(s, inputs).1
    ensures Idle(Run(s, inputs).0) && ResultTags(Run(s, inputs).0.results) == Census(s)
  {
    RunConserves(s, inputs);
    CompleteRunIdle(s, inputs);
    hide Run;
  }

  lemma {:induction false} CompleteRunIdle(s: State, inputs: seq<Inputs>)
    requires Run(s, inputs).1
    ensures Idle(Run(s, inputs).0)
    decreases |inputs|
  {
    if inputs != [] && !Idle(Tick(s, inputs[0])) {
      CompleteRunIdle(Tick(s, inputs[0]), inputs[1..]);
    }
    hide Tick;
  }

  // ----- timers -----

  /** After the timers, none is due. */
  lemma {:induction false} NoneDue(s: State, now: nat, answers: nat -> Option<Value>)
    ensures forall t :: t in FireTimers(s, now, answers).timers ==> t.deadline > now
    decreases Due(s.timers, now)
  {
    if s.timers != [] {
      var i := Earliest(s.timers);
      if s.timers[i].deadline <= now {
        FireTimerDue(s, i, now, answers);
        NoneDue(FireTimer(s, i, now, answers), now, answers);
      }
    }
  }

  /** How often a timer occurs. */
  function Occurs(ts: seq<Timer>, t: Timer): nat {
    multiset(ts)[t]
  }

  lemma OccursWithout(ts: seq<Timer>, i: nat, t: Timer)
    requires i < |ts| && ts[i] != t
    ensures Occurs(Without(ts, i), t) == Occurs(ts, t)
  {
    assert ts == ts[..i] + [ts[i]] + ts[i + 1..];
  }

  /** A timer that is not due stays where it is: its coroutine is not resumed before its deadline. */
  lemma {:induction false} NotDueUntouched(s: State, now: nat, answers: nat -> Option<Value>, t: Timer)
    requires t.deadline > now
    ensures Occurs(FireTimers(s, now, answers).timers, t) >= Occurs(s.timers, t)
    decreases Due(s.timers, now)
  {
    if s.timers != [] {
      var i := Earliest(s.timers);
      if s.timers[i].deadline <= now {
        FireTimerDue(s, i, now, answers);
        OccursWithout(s.timers, i, t);
        NotDueUntouched(FireTimer(s, i, now, answers), now, answers, t);
      }
    }
  }

  /** A tick resumes no coroutine from the timer heap before its deadline, and leaves none that is due. */
  lemma TimerSafety(s: State, inputs: Inputs)
    ensures forall t :: t in Tick(s, inputs).timers ==> t.deadline > inputs.now
    ensures forall t: Timer :: t.deadline > inputs.now ==>
              Occurs(Tick(s, inputs).timers, t) >= Occurs(RunReady(s).timers, t) >= Occurs(s.timers, t)
  {
    var s1 := RunReady(s);
    var s2 := PollParked(s1.(parked := []), s1.parked, {}, inputs).0;
    NoneDue(s2, inputs.now, inputs.timerPolls);
    PollParkedTimers(s1.(parked := []), s1.parked, {}, inputs);
    forall t: Timer | t.deadline > inputs.now
      ensures Occurs(Tick(s, inputs).timers, t) >= Occurs(s1.timers, t) >= Occurs(s.timers, t)
    {
      NotDueUntouched(s2, inputs.now, inputs.timerPolls, t);
      RunReadyTimers(s, t);
    }
  }

  lemma {:induction false} PollParkedTimers(s: State, ps: seq<Parked>, completed: set<nat>, inputs: Inputs)
    ensures PollParked(s, ps, completed, inputs).0.timers == s.timers
    decreases |ps|
  {
    if ps != [] {
      var p := ps[0];
      var answer := if ShouldPoll(p, inputs.tokenReady) then Poll(s.tasks, p.task, inputs.polls) else None;
      var more := if p.token.Some? then {p.token.value} else {};
      match answer
      case None => PollParkedTimers(s.(parked := s.parked + [p]), ps[1..], completed, inputs);
      case Some(v) => PollParkedTimers(Wake(s, p.co, p.task, v), ps[1..], completed + more, inputs);
    }
  }

  lemma {:induction false} RunReadyTimers(s: State, t: Timer)
    ensures Occurs(RunReady(s).timers, t) >= Occurs(s.timers, t)
    decreases |s.ready|
  {
    if s.ready != [] {
      var n := |s.ready| - 1;
      RunReadyTimers(Resume(s.(ready := s.ready[..n]), s.ready[n]), t);
    }
  }

  // ----- progress -----

  /** Every token is ready, every poll answers, and every deadline has passed. */
  ghost predicate Generous(inputs: Inputs, tasks: map<nat, TaskState>) {
    && (forall k :: inputs.tokenReady(k))
    && (forall t :: inputs.polls(t).Some? && inputs.timerPolls(t).Some?)
    && forall t :: t in tasks ==> tasks[t].Pending? && tasks[t].deadline.Some? ==> tasks[t].deadline.value <= inputs.now
  }

  /** Nothing is waiting, and no coroutine has `h` or more awaits left. */
  predicate Bounded(s: State, h: nat) {
    && s.parked == [] && s.timers == []
    && forall k :: 0 <= k < |s.ready| ==> |s.ready[k].co.script| < h
  }

  /** Resuming a coroutine with awaits left parks it with one fewer. */
  lemma {:induction false} RunReadyBounded(s: State, h: nat, now: nat)
    requires h > 0
    requires forall k :: 0 <= k < |s.ready| ==> |s.ready[k].co.script| < h
    requires forall k :: 0 <= k < |s.parked| ==> |s.parked[k].co.script| + 1 < h
    requires forall k :: 0 <= k < |s.timers| ==> |s.timers[k].co.script| + 1 < h && s.timers[k].deadline <= now
    requires forall t :: t in s.tasks ==>
               s.tasks[t].Pending? && s.tasks[t].deadline.Some? ==> s.tasks[t].deadline.value <= now
    ensures var r := RunReady(s);
            && r.tasks == s.tasks
            && (forall k :: 0 <= k < |r.parked| ==> |r.parked[k].co.script| + 1 < h)
            && (forall k :: 0 <= k < |r.timers| ==> |r.timers[k].co.script| + 1 < h && r.timers[k].deadline <= now)
    decreases |s.ready|
  {
    if s.ready != [] {
      var n := |s.ready| - 1;
      var s1, r := s.(ready := s.ready[..n]), s.ready[n];
      var s2 := Resume(s1, r);
      RunReadyBounded(s2, h, now);
    }
  }

  lemma {:induction false} PollParkedBounded(s: State, ps: seq<Parked>, completed: set<nat>, inputs: Inputs, h: nat)
    requires Generous(inputs, s.tasks) && s.parked == []
    requires forall k :: 0 <= k < |s.ready| ==> |s.ready[k].co.script| < h
    requires forall k :: 0 <= k < |ps| ==> |ps[k].co.script| < h
    ensures var r := PollParked(s, ps, completed, inputs).0;
            && r.parked == [] && Generous(inputs, r.tasks)
            && forall k :: 0 <= k < |r.ready| ==> |r.ready[k].co.script| < h
    decreases |ps|
  {
    if ps != [] {
      var p := ps[0];
      var answer := Poll(s.tasks, p.task, inputs.polls);
      var more := if p.token.Some? then {p.token.value} else {};
      assert answer.Some? by {
        assert inputs.polls(p.task).Some?;
      }
      assert ShouldPoll(p, inputs.tokenReady) by {
        assert p.token.Some? ==> inputs.tokenReady(p.token.value);
      }
      PollParkedBounded(Wake(s, p.co, p.task, answer.value), ps[1..], completed + more, inputs, h);
    }
  }

  lemma {:induction false} FireTimersBounded(s: State, inputs: Inputs, h: nat)
    requires Generous(inputs, s.tasks) && s.parked == []
    requires forall k :: 0 <= k < |s.ready| ==> |s.ready[k].co.script| < h
    requires forall k :: 0 <= k < |s.timers| ==> |s.timers[k].co.script| < h && s.timers[k].deadline <= inputs.now
    ensures var r := FireTimers(s, inputs.now, inputs.timerPolls);
            && Bounded(r, h) && Generous(inputs, r.tasks)
    decreases Due(s.timers, inputs.now)
  {
    if s.timers != [] {
      var i := Earliest(s.timers);
      var t := s.timers[i];
      FireTimerDue(s, i, inputs.now, inputs.timerPolls);
      assert Poll(s.tasks, t.task, inputs.timerPolls).Some? by {
        assert inputs.timerPolls(t.task).Some?;
      }
      FireTimersBounded(FireTimer(s, i, inputs.now, inputs.timerPolls), inputs, h);
    }
  }

  /** If everything awaited is there at once, a tick brings every coroutine one await further. */
  lemma TickProgress(s: State, inputs: Inputs, h: nat)
    requires h > 0 && Bounded(s, h) && Generous(inputs, s.tasks)
    ensures Bounded(Tick(s, inputs), h - 1)
    ensures forall t :: t in Tick(s, inputs).tasks && Tick(s, inputs).tasks[t].Pending? ==>
              t in s.tasks && Tick(s, inputs).tasks[t] == s.tasks[t]
  {
    RunReadyBounded(s, h, inputs.now);
    var s1 := RunReady(s);
    PollParkedBounded(s1.(parked := []), s1.parked, {}, inputs, h - 1);
    PollParkedTimers(s1.(parked := []), s1.parked, {}, inputs);
    var s2 := PollParked(s1.(parked := []), s1.parked, {}, inputs).0;
    FireTimersBounded(s2, inputs, h - 1);
    PollParkedTasks(s1.(parked := []), s1.parked, {}, inputs);
    FireTimersTasks(s2, inputs.now, inputs.timerPolls);
    hide RunReady, PollParked, FireTimers;
  }

  /** No task becomes pending again. */
  lemma {:induction false} PollParkedTasks(s: State, ps: seq<Parked>, completed: set<nat>, inputs: Inputs)
    ensures var r := PollParked(s, ps, completed, inputs).0;
            forall t :: t in r.tasks && r.tasks[t].Pending? ==> t in s.tasks && r.tasks[t] == s.tasks[t]
    decreases |ps|
  {
    if ps != [] {
      var p := ps[0];
      var answer := if ShouldPoll(p, inputs.tokenReady) then Poll(s.tasks, p.task, inputs.polls) else None;
      var more := if p.token.Some? then {p.token.value} else {};
      match answer
      case None => PollParkedTasks(s.(parked := s.parked + [p]), ps[1..], completed, inputs);
      case Some(v) => PollParkedTasks(Wake(s, p.co, p.task, v), ps[1..], completed + more, inputs);
    }
  }

  lemma {:induction false} FireTimersTasks(s: State, now: nat, answers: nat -> Option<Value>)
    ensures var r := FireTimers(s, now, answers);
            forall t :: t in r.tasks && r.tasks[t].Pending? ==> t in s.tasks && r.tasks[t] == s.tasks[t]
    decreases Due(s.timers, now)
  {
    if s.timers != [] {
      var i := Earliest(s.timers);
      if s.timers[i].deadline <= now {
        FireTimerDue(s, i, now, answers);
        FireTimersTasks(FireTimer(s, i, now, answers), now, answers);
      }
    }
  }

  function AwaitsOfFirst(rs: seq<Runnable>): nat {
    if rs == [] then 0 else |rs[0].co.script|
  }

  lemma NothingLeft(s: State, h: nat)
    requires Bounded(s, h)
    ensures h == 0 ==> Idle(s)
  {
    assert s.ready != [] ==> AwaitsOfFirst(s.ready) < h;
  }

  /**
   If everything awaited is there at once, a run completes within as many ticks
   as the longest list of awaits, and one more; it then has one result for
   every coroutine.
   */
  lemma {:induction false} CompletesInTime(s: State, inputs: seq<Inputs>, h: nat)
    requires 0 < h <= |inputs| && Bounded(s, h)
    requires forall k :: 0 <= k < |inputs| ==> Generous(inputs[k], s.tasks)
    ensures Run(s, inputs).1 && ResultTags(Run(s, inputs).0.results) == Census(s)
  {
    CompletesWithin(s, inputs, h);
    CompleteRun(s, inputs);
    hide Run, Census;
  }

  lemma {:induction false} CompletesWithin(s: State, inputs: seq<Inputs>, h: nat)
    requires 0 < h <= |inputs| && Bounded(s, h)
    requires forall k :: 0 <= k < |inputs| ==> Generous(inputs[k], s.tasks)
    ensures Run(s, inputs).1
    decreases h
  {
    TickProgress(s, inputs[0], h);
    var s1 := Tick(s, inputs[0]);
    hide Tick;
    NothingLeft(s1, h - 1);
    if !Idle(s1) {
      forall k | 0 <= k < |inputs[1..]|
        ensures Generous(inputs[1..][k], s1.tasks)
      {
        assert Generous(inputs[k + 1], s.tasks);
      }
      CompletesWithin(s1, inputs[1..], h - 1);
    }
  }

  // ----- a task's value is handed out once -----

  /** A task that was consumed stays so: who awaits it later gets nil. */
  lemma ConsumedForGood(s: State, inputs: Inputs, t: nat)
    requires TaskOf(s.tasks, t) == Consumed
    ensures TaskOf(Tick(s, inputs).tasks, t) == Consumed
    ensures Poll(Tick(s, inputs).tasks, t, inputs.polls) == Some(Nil)
  {
    var s1 := RunReady(s);
    var s2 := PollParked(s1.(parked := []), s1.parked, {}, inputs).0;
    RunReadyTasks(s);
    PollParkedConsumed(s1.(parked := []), s1.parked, {}, inputs, t);
    FireTimersConsumed(s2, inputs.now, inputs.timerPolls, t);
    hide RunReady, PollParked, FireTimers;
  }

  lemma {:induction false} RunReadyTasks(s: State)
    ensures RunReady(s).tasks == s.tasks
    decreases |s.ready|
  {
    if s.ready != [] {
      var n := |s.ready| - 1;
      RunReadyTasks(Resume(s.(ready := s.ready[..n]), s.ready[n]));
    }
  }

  lemma {:induction false} PollParkedConsumed(s: State, ps: seq<Parked>, completed: set<nat>, inputs: Inputs, t: nat)
    requires TaskOf(s.tasks, t) == Consumed
    ensures TaskOf(PollParked(s, ps, completed, inputs).0.tasks, t) == Consumed
    decreases |ps|
  {
    if ps != [] {
      var p := ps[0];
      var answer := if ShouldPoll(p, inputs.tokenReady) then Poll(s.tasks, p.task, inputs.polls) else None;
      var more := if p.token.Some? then {p.token.value} else {};
      match answer
      case None => PollParkedConsumed(s.(parked := s.parked + [p]), ps[1..], completed, inputs, t);
      case Some(v) => PollParkedConsumed(Wake(s, p.co, p.task, v), ps[1..], completed + more, inputs, t);
    }
  }

  lemma {:induction false} FireTimersConsumed(s: State, now: nat, answers: nat -> Option<Value>, t: nat)
    requires TaskOf(s.tasks, t) == Consumed
    ensures TaskOf(FireTimers(s, now, answers).tasks, t) == Consumed
    decreases Due(s.timers, now)
  {
    if s.timers != [] {
      var i := Earliest(s.timers);
      if s.timers[i].deadline <= now {
        FireTimerDue(s, i, now, answers);
        FireTimersConsumed(FireTimer(s, i, now, answers), now, answers, t);
      }
    }
  }
}
