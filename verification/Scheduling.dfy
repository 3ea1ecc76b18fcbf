/**
 One tick of the coroutine scheduler (`src/runtime/scheduler.rs`) as functions
 on its queues. A coroutine is the list of tasks it still awaits; what a task's
 poll answers, which tokens are ready and what time it is are inputs.
 */
module Scheduling {
  import opened Values

  /** `script` is what is still awaited, `got` the values received so far. */
  datatype Coroutine = Coroutine(id: nat, script: seq<nat>, got: seq<Value>)

  /** A coroutine to resume with `input`, which is `None` at its start. */
  datatype Runnable = Runnable(co: Coroutine, input: Option<Value>)

  datatype TaskState = Pending(deadline: Option<nat>) | Done(v: Value) | Consumed

  /** With a token: polled when the token is ready. Without: polled every tick. */
  datatype Parked = Parked(co: Coroutine, task: nat, token: Option<nat>)

  datatype Timer = Timer(deadline: nat, co: Coroutine, task: nat)

  datatype Finished = Finished(id: nat, got: seq<Value>)

  datatype State = State(
    ready: seq<Runnable>, parked: seq<Parked>, timers: seq<Timer>, results: seq<Finished>,
    tasks: map<nat, TaskState>, tokens: map<nat, nat>)

  /** What one tick finds: the ready tokens, the answers to polls, and the time when timers are checked. */
  datatype Inputs = Inputs(tokenReady: nat -> bool, polls: nat -> Option<Value>, now: nat,
                           timerPolls: nat -> Option<Value>)

  // ----- resuming -----

  function Received(r: Runnable): seq<Value> {
    if r.input.Some? then r.co.got + [r.input.value] else r.co.got
  }

  function TaskOf(tasks: map<nat, TaskState>, t: nat): TaskState {
    if t in tasks then tasks[t] else Pending(None)
  }

  /** Resume a coroutine until it awaits its next task or returns. */
  function Resume(s: State, r: Runnable): State {
    if r.co.script == [] then s.(results := s.results + [Finished(r.co.id, Received(r))])
    else
      var task := r.co.script[0];
      var co := Coroutine(r.co.id, r.co.script[1..], Received(r));
      match TaskOf(s.tasks, task)
      case Pending(Some(d)) => s.(timers := s.timers + [Timer(d, co, task)])
      case _ =>
        var token := if task in s.tokens then Some(s.tokens[task]) else None;
        s.(parked := s.parked + [Parked(co, task, token)])
  }

  /** Resume the ready coroutines, last one first. */
  function RunReady(s: State): (r: State)
    ensures r.ready == []
    decreases |s.ready|
  {
    if s.ready == [] then s
    else
      var n := |s.ready| - 1;
      RunReady(Resume(s.(ready := s.ready[..n]), s.ready[n]))
  }

  // ----- polling -----

  /** A task's value, if it is there. A task already consumed yields nil. */
  function Poll(tasks: map<nat, TaskState>, t: nat, answers: nat -> Option<Value>): Option<Value> {
    match TaskOf(tasks, t)
    case Done(v) => Some(v)
    case Consumed => Some(Nil)
    case Pending(_) => answers(t)
  }

  /** Hand the value of `task` to a coroutine that awaited it. */
  function Wake(s: State, co: Coroutine, task: nat, v: Value): State {
    s.(ready := s.ready + [Runnable(co, Some(v))], tasks := s.tasks[task := Consumed])
  }

  predicate ShouldPoll(p: Parked, tokenReady: nat -> bool) {
    p.token.Some? ==> tokenReady(p.token.value)
  }

  /** Poll the parked coroutines `ps` in order; `completed` are the tokens to deregister. */
  function PollParked(s: State, ps: seq<Parked>, completed: set<nat>, inputs: Inputs): (State, set<nat>)
    decreases |ps|
  {
    if ps == [] then (s, completed)
    else
      var p := ps[0];
      var answer := if ShouldPoll(p, inputs.tokenReady) then Poll(s.tasks, p.task, inputs.polls) else None;
      match answer
      case None => PollParked(s.(parked := s.parked + [p]), ps[1..], completed, inputs)
      case Some(v) =>
        var more := if p.token.Some? then {p.token.value} else {};
        PollParked(Wake(s, p.co, p.task, v), ps[1..], completed + more, inputs)
  }

  /** How many timers are due. */
  function Due(timers: seq<Timer>, now: nat): nat {
    if timers == [] then 0 else (if timers[0].deadline <= now then 1 else 0) + Due(timers[1..], now)
  }

  /** The first of the timers with the earliest deadline. */
  function Earliest(timers: seq<Timer>): (i: nat)
    requires timers != []
    ensures i < |timers|
    ensures forall k :: 0 <= k < |timers| ==> timers[i].deadline <= timers[k].deadline
  {
    if |timers| == 1 then 0
    else
      var i := 1 + Earliest(timers[1..]);
      if timers[0].deadline <= timers[i].deadline then 0 else i
  }

  function Without<T>(s: seq<T>, i: nat): (r: seq<T>)
    requires i < |s|
    ensures |r| == |s| - 1
  {
    s[..i] + s[i + 1..]
  }

  lemma {:induction false} DueWithout(timers: seq<Timer>, i: nat, now: nat)
    requires i < |timers|
    ensures Due(Without(timers, i), now) + (if timers[i].deadline <= now then 1 else 0) == Due(timers, now)
  {
    if i > 0 {
      DueWithout(timers[1..], i - 1, now);
      assert Without(timers, i)[1..] == Without(timers[1..], i - 1);
    } else {
      assert Without(timers, 0) == timers[1..];
    }
  }

  lemma {:induction false} DueAppend(timers: seq<Timer>, t: Timer, now: nat)
    ensures Due(timers + [t], now) == Due(timers, now) + (if t.deadline <= now then 1 else 0)
  {
    if timers != [] {
      DueAppend(timers[1..], t, now);
      assert (timers + [t])[1..] == timers[1..] + [t];
    }
  }

  /** One timer that is due: its coroutine wakes, or waits one more millisecond. */
  function FireTimer(s: State, i: nat, now: nat, answers: nat -> Option<Value>): (r: State)
    requires i < |s.timers|
  {
    var t := s.timers[i];
    var s1 := s.(timers := Without(s.timers, i));
    match Poll(s.tasks, t.task, answers)
    case Some(v) => Wake(s1, t.co, t.task, v)
    case None => s1.(timers := s1.timers + [Timer(now + 1, t.co, t.task)])
  }

  lemma FireTimerDue(s: State, i: nat, now: nat, answers: nat -> Option<Value>)
    requires i < |s.timers| && s.timers[i].deadline <= now
    ensures Due(FireTimer(s, i, now, answers).timers, now) < Due(s.timers, now)
  {
    DueWithout(s.timers, i, now);
    DueAppend(Without(s.timers, i), Timer(now + 1, s.timers[i].co, s.timers[i].task), now);
  }

  /** Fire timers, earliest first, until none is due. A timer put back is due later, so this ends. */
  function FireTimers(s: State, now: nat, answers: nat -> Option<Value>): State
    decreases Due(s.timers, now)
  {
    if s.timers == [] then s
    else
      var i := Earliest(s.timers);
      if s.timers[i].deadline > now then s
      else
        FireTimerDue(s, i, now, answers);
        FireTimers(FireTimer(s, i, now, answers), now, answers)
  }

  // ----- a tick -----

  function Deregister(s: State, tokens: set<nat>): State {
    s.(tokens := map t | t in s.tokens && s.tokens[t] !in tokens :: s.tokens[t])
  }

  predicate Idle(s: State) {
    s.ready == [] && s.parked == [] && s.timers == []
  }

  function Tick(s: State, inputs: Inputs): State {
    var s1 := RunReady(s);
    var (s2, completed) := PollParked(s1.(parked := []), s1.parked, {}, inputs);
    Deregister(FireTimers(s2, inputs.now, inputs.timerPolls), completed)
  }

  /** Tick until nothing is left to do, or no further inputs are given; the flag says which. */
  function Run(s: State, inputs: seq<Inputs>): (State, bool)
    decreases |inputs|
  {
    if inputs == [] then (s, false)
    else
      var s1 := Tick(s, inputs[0]);
      if Idle(s1) then (s1, true) else Run(s1, inputs[1..])
  }
}
