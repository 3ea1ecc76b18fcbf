/**
 The scheduler object (`Scheduler` in `src/runtime/scheduler.rs`): queues that
 its loops take from and push to, against the functions of `Scheduling`.
 */
module SchedulerLoop {
  import opened Values
  import opened Scheduling
  import opened SchedulingLaws

  class Scheduler {
    var ready: seq<Runnable>
    var parked: seq<Parked>
    var timers: seq<Timer>
    var results: seq<Finished>
    var tasks: map<nat, TaskState>
    var tokens: map<nat, nat>

    ghost function Now(): State
      reads this
    {
      State(ready, parked, timers, results, tasks, tokens)
    }

    constructor (initial: map<nat, TaskState>, registered: map<nat, nat>)
      ensures Now() == State([], [], [], [], initial, registered)
    {
      ready, parked, timers, results, tasks, tokens := [], [], [], [], initial, registered;
    }

    /** A new coroutine, to be started by the next tick. */
    method SpawnHandler(id: nat, script: seq<nat>)
      modifies `ready
      ensures ready == old(ready) + [Runnable(Coroutine(id, script, []), None)]
      ensures Census(Now()) == old(Census(Now())) + multiset{Tag(id, |script|)}
    {
      var r := Runnable(Coroutine(id, script, []), None);
      ReadyAppend(ready, r);
      ready := ready + [r];
    }

    method FindIoToken(task: nat) returns (token: Option<nat>)
      ensures token == if task in tokens then Some(tokens[task]) else None
    {
      token := if task in tokens then Some(tokens[task]) else None;
    }

    /** Run the ready coroutines, the last one first, until each awaits or returns. */
    method RunAllReady()
      modifies this
      ensures Now() == RunReady(old(Now()))
    {
      while ready != []
        invariant RunReady(Now()) == RunReady(old(Now()))
        decreases |ready|
      {
        var r := ready[|ready| - 1];
        ready := ready[..|ready| - 1];
        var got := if r.input.Some? then r.co.got + [r.input.value] else r.co.got;
        if r.co.script == [] {
          results := results + [Finished(r.co.id, got)];
        } else {
          var task, co := r.co.script[0], Coroutine(r.co.id, r.co.script[1..], got);
          var token := FindIoToken(task);
          var state := TaskOf(tasks, task);
          if state.Pending? && state.deadline.Some? {
            timers := timers + [Timer(state.deadline.value, co, task)];
          } else {
            parked := parked + [Parked(co, task, token)];
          }
        }
      }
    }

    /** Poll the parked coroutines whose tokens are ready, and those without one. */
    method PollAllParked(inputs: Inputs) returns (completed: set<nat>)
      modifies this
      ensures (Now(), completed) == PollParked(old(Now()).(parked := []), old(parked), {}, inputs)
    {
      var ps := parked;
      parked := [];
      completed := {};
      var k := 0;
      assert ps[0..] == ps;
      while k < |ps|
        invariant k <= |ps|
        invariant PollParked(Now(), ps[k..], completed, inputs)
               == PollParked(old(Now()).(parked := []), old(parked), {}, inputs)
      {
        var p := ps[k];
        assert ps[k..][0] == p && ps[k..][1..] == ps[k + 1..];
        k := k + 1;
        if !ShouldPoll(p, inputs.tokenReady) {
          parked := parked + [p];
          continue;
        }
        var answer := Poll(tasks, p.task, inputs.polls);
        if answer.Some? {
          tasks := tasks[p.task := Consumed];
          assert completed + {} == completed;
          if p.token.Some? {
            completed := completed + {p.token.value};
          }
          ready := ready + [Runnable(p.co, Some(answer.value))];
        } else {
          parked := parked + [p];
        }
      }
    }

    /** The first of the timers with the earliest deadline. */
    method PeekTimer() returns (i: nat)
      requires timers != []
      ensures i == Earliest(timers)
    {
      var n := |timers|;
      i := n - 1;
      var k := n - 1;
      assert timers[n - 1..] == [timers[n - 1]];
      while k > 0
        invariant 0 <= k <= i < n == |timers|
        invariant timers[k..] != [] && i == k + Earliest(timers[k..])
        decreases k
      {
        k := k - 1;
        assert timers[k..][1..] == timers[k + 1..];
        if timers[k].deadline <= timers[i].deadline {
          i := k;
        }
      }
      assert timers[0..] == timers;
    }

    /** Fire the timers that are due, earliest first; one that is still pending is put back for later. */
    method FireAllTimers(now: nat, answers: nat -> Option<Value>)
      modifies this
      ensures Now() == FireTimers(old(Now()), now, answers)
    {
      while timers != []
        invariant FireTimers(Now(), now, answers) == FireTimers(old(Now()), now, answers)
        decreases Due(timers, now)
      {
        var i := PeekTimer();
        var t := timers[i];
        if t.deadline > now {
          break;
        }
        FireTimerDue(Now(), i, now, answers);
        timers := timers[..i] + timers[i + 1..];
        var answer := Poll(tasks, t.task, answers);
        if answer.Some? {
          tasks := tasks[t.task := Consumed];
          ready := ready + [Runnable(t.co, Some(answer.value))];
        } else {
          timers := timers + [Timer(now + 1, t.co, t.task)];
        }
      }
    }

    /** Run one tick; true means nothing is left to do. */
    method RunTick(inputs: Inputs) returns (done: bool)
      modifies this
      ensures Now() == Tick(old(Now()), inputs)
      ensures done == (ready == [] && parked == [] && timers == [])
      ensures Census(Now()) == old(Census(Now()))
      ensures forall t :: t in timers ==> t.deadline > inputs.now
    {
      TickConserves(Now(), inputs);
      TimerSafety(Now(), inputs);
      hide Census, RunReady, PollParked, FireTimers;
      RunAllReady();
      var completed := PollAllParked(inputs);
      FireAllTimers(inputs.now, inputs.timerPolls);
      tokens := map t | t in tokens && tokens[t] !in completed :: tokens[t];
      done := ready == [] && parked == [] && timers == [];
    }

    /** Tick until nothing is left to do, and take the results. */
    method RunUntilComplete(inputs: seq<Inputs>) returns (taken: seq<Finished>, done: bool)
      modifies this
      ensures done == Run(old(Now()), inputs).1
      ensures done ==> ready == [] && parked == [] && timers == []
      ensures done ==> ResultTags(taken) == old(Census(Now()))
      ensures results == []
    {
      ghost var start := Now();
      done := false;
      var k := 0;
      assert inputs[0..] == inputs;
      hide Tick, Census, ResultTags;
      while k < |inputs| && !done
        invariant k <= |inputs|
        invariant if done then Run(start, inputs) == (Now(), true) && Idle(Now())
                  else Run(start, inputs) == Run(Now(), inputs[k..])
      {
        assert inputs[k..][0] == inputs[k] && inputs[k..][1..] == inputs[k + 1..];
        done := RunTick(inputs[k]);
        k := k + 1;
      }
      if done {
        CompleteRun(start, inputs);
      }
      taken := results;
      results := [];
    }
  }
}
