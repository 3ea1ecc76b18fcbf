/**
 What a resumed coroutine is handed: over whole runs, a log of answers that
 explains every value received, and says of each whose it is and where it came
 from.
 */
module SchedulingAnswers {
  import opened Values
  import opened Scheduling

  // ----- coroutines by what they have received and still await -----

  /** `todo` starts with the task awaited now, if there is one. */
  datatype Plan = Plan(id: nat, got: seq<Value>, todo: seq<nat>)

  function RunnablePlan(r: Runnable): Plan {
    Plan(r.co.id, if r.input.Some? then r.co.got + [r.input.value] else r.co.got, r.co.script)
  }

  function WaitingPlan(co: Coroutine, task: nat): Plan {
    Plan(co.id, co.got, [task] + co.script)
  }

  function ReadyPlans(rs: seq<Runnable>): multiset<Plan> {
    if rs == [] then multiset{} else ReadyPlans(rs[..|rs| - 1]) + multiset{RunnablePlan(rs[|rs| - 1])}
  }

  function ParkedPlans(ps: seq<Parked>): multiset<Plan> {
    if ps == [] then multiset{}
    else ParkedPlans(ps[..|ps| - 1]) + multiset{WaitingPlan(ps[|ps| - 1].co, ps[|ps| - 1].task)}
  }

  function TimerPlans(ts: seq<Timer>): multiset<Plan> {
    if ts == [] then multiset{}
    else TimerPlans(ts[..|ts| - 1]) + multiset{WaitingPlan(ts[|ts| - 1].co, ts[|ts| - 1].task)}
  }

  function ResultPlans(fs: seq<Finished>): multiset<Plan> {
    if fs == [] then multiset{} else ResultPlans(fs[..|fs| - 1]) + multiset{Plan(fs[|fs| - 1].id, fs[|fs| - 1].got, [])}
  }

  /** Every coroutine of the scheduler, wherever it is. */
  function Roll(s: State): multiset<Plan> {
    ReadyPlans(s.ready) + ParkedPlans(s.parked) + TimerPlans(s.timers) + ResultPlans(s.results)
  }

  // ----- the log -----

  /** A coroutine is handed a value for the task it awaits. */
  datatype Answer = Answer(to: Plan, value: Value)

  function Task(a: Answer): nat
    requires a.to.todo != []
  {
    a.to.todo[0]
  }

  function After(a: Answer): Plan
    requires a.to.todo != []
  {
    Plan(a.to.id, a.to.got + [a.value], a.to.todo[1..])
  }

  /** The log accounts for all coroutines: each answer is to one of them, and they change in no other way. */
  predicate Accounts(before: multiset<Plan>, log: seq<Answer>, after: multiset<Plan>)
    decreases |log|
  {
    if log == [] then after == before
    else log[0].to.todo != [] && log[0].to in before && Accounts(Changed(before, log[0]), log[1..], after)
  }

  /** The roll after one answer. */
  function Changed(roll: multiset<Plan>, a: Answer): multiset<Plan>
    requires a.to.todo != []
  {
    roll - multiset{a.to} + multiset{After(a)}
  }

  lemma AccountsFirst(before: multiset<Plan>, log: seq<Answer>, after: multiset<Plan>)
    ensures Accounts(before, log, after) <==>
              if log == [] then after == before
              else log[0].to.todo != [] && log[0].to in before && Accounts(Changed(before, log[0]), log[1..], after)
  {
  }

  lemma {:induction false} AccountsJoin(a: multiset<Plan>, x: seq<Answer>, b: multiset<Plan>, y: seq<Answer>,
                                        c: multiset<Plan>)
    requires Accounts(a, x, b) && Accounts(b, y, c)
    ensures Accounts(a, x + y, c)
    decreases |x|
  {
    hide *;
    AccountsFirst(a, x, b);
    AccountsFirst(a, x + y, c);
    if x == [] {
      assert x + y == y;
    } else {
      AccountsJoin(Changed(a, x[0]), x[1..], b, y, c);
      assert (x + y)[1..] == x[1..] + y;
    }
  }

  lemma AccountsOne(rest: multiset<Plan>, a: Answer)
    requires a.to.todo != []
    ensures Accounts(rest + multiset{a.to}, [a], rest + multiset{After(a)})
  {
    var before := rest + multiset{a.to};
    AccountsFirst(before, [a], rest + multiset{After(a)});
    assert [a][1..] == [];
    AccountsFirst(rest + multiset{After(a)}, [], rest + multiset{After(a)});
    assert Changed(before, a) == rest + multiset{After(a)};
    hide Accounts;
  }

  // ----- where values come from -----

  /** Some answer of the log was for the task. */
  predicate Taken(log: seq<Answer>, task: nat) {
    exists k :: 0 <= k < |log| && log[k].to.todo != [] && log[k].to.todo[0] == task
  }

  /**
   What the next answer for `task` may be, after the answers in `log`: the
   first to be answered gets the task's value, or if it was pending what its
   poll answers, by then due if it has a deadline; later ones get nil.
   */
  predicate Fair(tasks: map<nat, TaskState>, log: seq<Answer>, task: nat, value: Value, inputs: Inputs) {
    if Taken(log, task) then value == Nil
    else if task !in tasks then inputs.polls(task) == Some(value)
    else
      match tasks[task]
      case Done(v) => value == v
      case Consumed => value == Nil
      case Pending(None) => inputs.polls(task) == Some(value)
      case Pending(Some(deadline)) => deadline <= inputs.now && inputs.timerPolls(task) == Some(value)
  }

  /** Every answer of `log` is fair, given those in `before`. */
  predicate AllFair(tasks: map<nat, TaskState>, before: seq<Answer>, log: seq<Answer>, inputs: Inputs) {
    forall k :: 0 <= k < |log| ==>
      log[k].to.todo != [] && Fair(tasks, before + log[..k], log[k].to.todo[0], log[k].value, inputs)
  }

  lemma AllFairJoin(tasks: map<nat, TaskState>, before: seq<Answer>, x: seq<Answer>, y: seq<Answer>, inputs: Inputs)
    requires AllFair(tasks, before, x, inputs) && AllFair(tasks, before + x, y, inputs)
    ensures AllFair(tasks, before, x + y, inputs)
  {
    forall k | 0 <= k < |x + y|
      ensures (x + y)[k].to.todo != []
      ensures Fair(tasks, before + (x + y)[..k], (x + y)[k].to.todo[0], (x + y)[k].value, inputs)
    {
      if k < |x| {
        assert (x + y)[..k] == x[..k];
      } else {
        assert before + (x + y)[..k] == before + x + y[..k - |x|];
      }
    }
  }

  // ----- how the tasks stand -----

  /** After `log` the tasks stand as they did at first, but for those answered, which are consumed. */
  ghost predicate Stands(first: map<nat, TaskState>, log: seq<Answer>, now: map<nat, TaskState>) {
    forall t: nat :: TaskOf(now, t) == if Taken(log, t) then Consumed else TaskOf(first, t)
  }

  /** Tasks with a deadline are awaited by timers, not before that deadline, and all others among the parked. */
  predicate Routed(s: State) {
    && (forall p :: p in s.parked ==> !HasDeadline(TaskOf(s.tasks, p.task)))
    && (forall t :: t in s.timers ==>
          match TaskOf(s.tasks, t.task)
          case Pending(None) => false
          case Pending(Some(d)) => d <= t.deadline
          case _ => true)
  }

  predicate HasDeadline(t: TaskState) {
    t.Pending? && t.deadline.Some?
  }

  // ----- resuming -----

  lemma ReadyAppend(rs: seq<Runnable>, r: Runnable)
    ensures ReadyPlans(rs + [r]) == ReadyPlans(rs) + multiset{RunnablePlan(r)}
  {
    assert (rs + [r])[..|rs|] == rs;
  }

  lemma ParkedAppend(ps: seq<Parked>, p: Parked)
    ensures ParkedPlans(ps + [p]) == ParkedPlans(ps) + multiset{WaitingPlan(p.co, p.task)}
  {
    assert (ps + [p])[..|ps|] == ps;
  }

  lemma TimerAppend(ts: seq<Timer>, t: Timer)
    ensures TimerPlans(ts + [t]) == TimerPlans(ts) + multiset{WaitingPlan(t.co, t.task)}
  {
    assert (ts + [t])[..|ts|] == ts;
  }

  lemma ResultAppend(fs: seq<Finished>, f: Finished)
    ensures ResultPlans(fs + [f]) == ResultPlans(fs) + multiset{Plan(f.id, f.got, [])}
  {
    assert (fs + [f])[..|fs|] == fs;
  }

  lemma {:induction false} TimerWithout(ts: seq<Timer>, i: nat)
    requires i < |ts|
    ensures TimerPlans(ts) == TimerPlans(Without(ts, i)) + multiset{WaitingPlan(ts[i].co, ts[i].task)}
  {
    hide WaitingPlan;
    var n := |ts| - 1;
    if i < n {
      TimerWithout(ts[..n], i);
      assert Without(ts, i)[..n - 1] == Without(ts[..n], i);
    } else {
      assert Without(ts, i) == ts[..n];
    }
  }

  lemma {:induction false} ParkedFirst(ps: seq<Parked>)
    requires ps != []
    ensures ParkedPlans(ps) == multiset{WaitingPlan(ps[0].co, ps[0].task)} + ParkedPlans(ps[1..])
  {
    var n := |ps| - 1;
    if n > 0 {
      ParkedFirst(ps[..n]);
      assert ps[..n][1..] == ps[1..][..n - 1];
    }
  }

  lemma RollReady(s: State, r: Runnable)
    ensures Roll(s.(ready := s.ready + [r])) == Roll(s) + multiset{RunnablePlan(r)}
  {
    ReadyAppend(s.ready, r);
    hide ReadyPlans, ParkedPlans, TimerPlans, ResultPlans, RunnablePlan;
  }

  lemma RollParked(s: State, p: Parked)
    ensures Roll(s.(parked := s.parked + [p])) == Roll(s) + multiset{WaitingPlan(p.co, p.task)}
  {
    ParkedAppend(s.parked, p);
    hide ReadyPlans, ParkedPlans, TimerPlans, ResultPlans, WaitingPlan;
  }

  lemma RollTimer(s: State, t: Timer)
    ensures Roll(s.(timers := s.timers + [t])) == Roll(s) + multiset{WaitingPlan(t.co, t.task)}
  {
    TimerAppend(s.timers, t);
    hide ReadyPlans, ParkedPlans, TimerPlans, ResultPlans, WaitingPlan;
  }

  lemma RollResult(s: State, f: Finished)
    ensures Roll(s.(results := s.results + [f])) == Roll(s) + multiset{Plan(f.id, f.got, [])}
  {
    ResultAppend(s.results, f);
    hide ReadyPlans, ParkedPlans, TimerPlans, ResultPlans;
  }

  /** Resuming hands nothing out: the coroutine waits for the next task of its script, or has finished. */
  lemma ResumeKeeps(s: State, r: Runnable)
    ensures Roll(Resume(s, r)) == Roll(s) + multiset{RunnablePlan(r)}
  {
    hide Roll;
    var got := Received(r);
    if r.co.script == [] {
      RollResult(s, Finished(r.co.id, got));
    } else {
      var task := r.co.script[0];
      var co := Coroutine(r.co.id, r.co.script[1..], got);
      assert [task] + r.co.script[1..] == r.co.script;
      var token := if task in s.tokens then Some(s.tokens[task]) else None;
      match TaskOf(s.tasks, task)
      case Pending(Some(d)) => RollTimer(s, Timer(d, co, task));
      case _ => RollParked(s, Parked(co, task, token));
    }
  }

  lemma ResumeRoutes(s: State, r: Runnable)
    requires Routed(s)
    ensures Routed(Resume(s, r)) && Resume(s, r).tasks == s.tasks && Resume(s, r).ready == s.ready
  {
    hide TaskOf, Received;
  }

  lemma {:induction false} RunReadyKeeps(s: State)
    requires Routed(s)
    ensures var r := RunReady(s); Roll(r) == Roll(s) && Routed(r) && r.tasks == s.tasks
    decreases |s.ready|
  {
    if s.ready != [] {
      var n := |s.ready| - 1;
      var s1 := s.(ready := s.ready[..n]);
      ReadyLast(s, n);
      ResumeKeeps(s1, s.ready[n]);
      ResumeRoutes(s1, s.ready[n]);
      hide Roll, Resume, Routed;
      RunReadyKeeps(Resume(s1, s.ready[n]));
    }
  }

  lemma ReadyLast(s: State, n: nat)
    requires s.ready != [] && n == |s.ready| - 1
    ensures Roll(s) == Roll(s.(ready := s.ready[..n])) + multiset{RunnablePlan(s.ready[n])}
    ensures Routed(s.(ready := s.ready[..n])) == Routed(s)
  {
    hide ParkedPlans, TimerPlans, ResultPlans;
  }

  // ----- answering -----

  /** What an answer puts on the ready stack. */
  function Resumption(a: Answer): Runnable
    requires a.to.todo != []
  {
    Runnable(Coroutine(a.to.id, a.to.todo[1..], a.to.got), Some(a.value))
  }

  /** The ready stack holds the answers of the log, in order. */
  predicate Stacked(before: seq<Runnable>, log: seq<Answer>, after: seq<Runnable>) {
    && |after| == |before| + |log| && after[..|before|] == before
    && forall k :: 0 <= k < |log| ==> log[k].to.todo != [] && after[|before| + k] == Resumption(log[k])
  }

  /** Waking a coroutine is one answer. */
  lemma WakeAnswers(s: State, co: Coroutine, task: nat, v: Value, rest: multiset<Plan>)
    ensures var a := Answer(WaitingPlan(co, task), v);
            && Accounts(Roll(s) + multiset{WaitingPlan(co, task)} + rest, [a], Roll(Wake(s, co, task, v)) + rest)
            && Stacked(s.ready, [a], Wake(s, co, task, v).ready)
  {
    hide *;
    var a := Answer(WaitingPlan(co, task), v);
    AnswerIs(co, task, v);
    WakeRoll(s, co, task, v);
    AccountsOne(Roll(s) + rest, a);
    Swap(Roll(s), multiset{a.to}, rest);
    Swap(Roll(s), multiset{After(a)}, rest);
    StackedOne(s.ready, a);
  }

  lemma Swap(a: multiset<Plan>, b: multiset<Plan>, c: multiset<Plan>)
    ensures a + b + c == a + c + b
  {
  }

  lemma AnswerIs(co: Coroutine, task: nat, v: Value)
    ensures var a := Answer(WaitingPlan(co, task), v);
            a.to.todo != [] && After(a) == RunnablePlan(Runnable(co, Some(v))) && Resumption(a) == Runnable(co, Some(v))
  {
    assert ([task] + co.script)[1..] == co.script;
  }

  lemma StackedOne(before: seq<Runnable>, a: Answer)
    requires a.to.todo != []
    ensures Stacked(before, [a], before + [Resumption(a)])
  {
  }

  lemma WakeRoll(s: State, co: Coroutine, task: nat, v: Value)
    ensures Roll(Wake(s, co, task, v)) == Roll(s) + multiset{RunnablePlan(Runnable(co, Some(v)))}
    ensures Wake(s, co, task, v).ready == s.ready + [Runnable(co, Some(v))]
  {
    RollReady(s, Runnable(co, Some(v)));
    hide ReadyPlans, ParkedPlans, TimerPlans, ResultPlans;
  }

  lemma WakeStands(first: map<nat, TaskState>, log: seq<Answer>, s: State, co: Coroutine, task: nat, v: Value)
    requires Stands(first, log, s.tasks)
    ensures Stands(first, log + [Answer(WaitingPlan(co, task), v)], Wake(s, co, task, v).tasks)
  {
    var a := Answer(WaitingPlan(co, task), v);
    var log1 := log + [a];
    forall t: nat
      ensures Taken(log1, t) <==> t == task || Taken(log, t)
    {
      assert log1[|log|] == a;
      if Taken(log, t) {
        var k :| 0 <= k < |log| && log[k].to.todo != [] && log[k].to.todo[0] == t;
        assert log1[k] == log[k];
      }
    }
  }

  lemma OneFair(first: map<nat, TaskState>, log: seq<Answer>, a: Answer, inputs: Inputs)
    requires a.to.todo != [] && Fair(first, log, a.to.todo[0], a.value, inputs)
    ensures AllFair(first, log, [a], inputs)
  {
    assert log + [a][..0] == log;
    hide Fair;
  }

  lemma StackedJoin(a: seq<Runnable>, x: seq<Answer>, b: seq<Runnable>, y: seq<Answer>, c: seq<Runnable>)
    requires Stacked(a, x, b) && Stacked(b, y, c)
    ensures Stacked(a, x + y, c)
  {
    hide Resumption;
    assert c[..|a|] == c[..|b|][..|a|];
    forall k | 0 <= k < |x + y|
      ensures (x + y)[k].to.todo != [] && c[|a| + k] == Resumption((x + y)[k])
    {
      if k < |x| {
        assert c[|a| + k] == c[..|b|][|a| + k];
      } else {
        assert (x + y)[k] == y[k - |x|];
      }
    }
  }

  /** What a part of a tick does, as a log of answers behind those in `log`. */
  ghost predicate Answers(first: map<nat, TaskState>, log: seq<Answer>, inputs: Inputs, s: State, rest: multiset<Plan>,
                          more: seq<Answer>, r: State) {
    && Accounts(Roll(s) + rest, more, Roll(r)) && AllFair(first, log, more, inputs)
    && Stands(first, log + more, r.tasks) && Stacked(s.ready, more, r.ready)
  }

  lemma AnswersNone(first: map<nat, TaskState>, log: seq<Answer>, inputs: Inputs, s: State, rest: multiset<Plan>,
                    r: State)
    requires Stands(first, log, r.tasks) && r.ready == s.ready && Roll(r) == Roll(s) + rest
    ensures Answers(first, log, inputs, s, rest, [], r)
  {
    hide Roll, Fair, Resumption;
    assert log + [] == log;
  }

  lemma AnswersOne(first: map<nat, TaskState>, log: seq<Answer>, inputs: Inputs, s: State, co: Coroutine, task: nat,
                   v: Value, rest: multiset<Plan>)
    returns (a: Answer)
    requires Stands(first, log, s.tasks) && Fair(first, log, task, v, inputs)
    ensures a == Answer(WaitingPlan(co, task), v) && a.to.todo != [] && a.to.todo[0] == task
    ensures Accounts(Roll(s) + multiset{WaitingPlan(co, task)} + rest, [a], Roll(Wake(s, co, task, v)) + rest)
    ensures AllFair(first, log, [a], inputs) && Stands(first, log + [a], Wake(s, co, task, v).tasks)
    ensures Stacked(s.ready, [a], Wake(s, co, task, v).ready)
  {
    a := Answer(WaitingPlan(co, task), v);
    hide Roll, Fair, Stands, Accounts, AllFair, Stacked, Wake;
    WakeAnswers(s, co, task, v, rest);
    WakeStands(first, log, s, co, task, v);
    OneFair(first, log, a, inputs);
  }

  /** One answer, and then those of the rest. */
  lemma AnswersThen(first: map<nat, TaskState>, log: seq<Answer>, inputs: Inputs, s: State, before: multiset<Plan>,
                    a: Answer, s1: State, rest: multiset<Plan>, more: seq<Answer>, r: State)
    requires Accounts(Roll(s) + before, [a], Roll(s1) + rest) && AllFair(first, log, [a], inputs)
    requires Stacked(s.ready, [a], s1.ready) && Answers(first, log + [a], inputs, s1, rest, more, r)
    ensures Answers(first, log, inputs, s, before, [a] + more, r)
  {
    hide Roll, Fair, Stands, Accounts, AllFair, Stacked;
    AccountsJoin(Roll(s) + before, [a], Roll(s1) + rest, more, Roll(r));
    AllFairJoin(first, log, [a], more, inputs);
    StackedJoin(s.ready, [a], s1.ready, more, r.ready);
    assert log + ([a] + more) == log + [a] + more;
  }

  /** The poll of a task that others may have taken before. */
  lemma PollIsFair(first: map<nat, TaskState>, log: seq<Answer>, tasks: map<nat, TaskState>, task: nat, inputs: Inputs,
                   timer: bool)
    requires Stands(first, log, tasks)
    requires !timer ==> !HasDeadline(TaskOf(tasks, task))
    requires timer ==>
               match TaskOf(tasks, task)
               case Pending(None) => false
               case Pending(Some(d)) => d <= inputs.now
               case _ => true
    ensures var v := Poll(tasks, task, if timer then inputs.timerPolls else inputs.polls);
            v.Some? ==> Fair(first, log, task, v.value, inputs)
  {
    hide Taken;
  }

  lemma ParkedRouted(s: State, ps: seq<Parked>)
    requires ps != [] && Routed(s.(parked := s.parked + ps))
    ensures !HasDeadline(TaskOf(s.tasks, ps[0].task))
    ensures Routed(s.(parked := s.parked + [ps[0]] + ps[1..]))
    ensures forall v: Value :: Routed(Wake(s, ps[0].co, ps[0].task, v).(parked := s.parked + ps[1..]))
  {
    assert ps[0] in s.parked + ps;
    assert s.parked + [ps[0]] + ps[1..] == s.parked + ps;
  }

  /** Polling the parked: a log of fair answers, in the order in which they were parked. */
  lemma {:induction false} PollAnswers(s: State, ps: seq<Parked>, completed: set<nat>, inputs: Inputs,
                                       first: map<nat, TaskState>, log: seq<Answer>)
    returns (more: seq<Answer>)
    requires Stands(first, log, s.tasks) && Routed(s.(parked := s.parked + ps))
    ensures var r := PollParked(s, ps, completed, inputs).0;
            Answers(first, log, inputs, s, ParkedPlans(ps), more, r) && Routed(r)
    decreases |ps|
  {
    hide Stands, Answers, Accounts, AllFair, Stacked, Routed, Roll, WaitingPlan, Wake, TaskOf;
    if ps == [] {
      more := [];
      assert s.parked + ps == s.parked;
      NoPlans();
      AnswersNone(first, log, inputs, s, multiset{}, s);
    } else {
      var p := ps[0];
      ParkedFirst(ps);
      ParkedRouted(s, ps);
      hide ParkedPlans;
      var answer := if ShouldPoll(p, inputs.tokenReady) then Poll(s.tasks, p.task, inputs.polls) else None;
      PollIsFair(first, log, s.tasks, p.task, inputs, false);
      match answer
      case None =>
        var s1 := s.(parked := s.parked + [p]);
        RollParked(s, p);
        more := PollAnswers(s1, ps[1..], completed, inputs, first, log);
        AnswersMoved(first, log, inputs, s, ps, s1, more, PollParked(s1, ps[1..], completed, inputs).0);
      case Some(v) =>
        var a := AnswersOne(first, log, inputs, s, p.co, p.task, v, ParkedPlans(ps[1..]));
        var s1 := Wake(s, p.co, p.task, v);
        WakeKeeps(s, p.co, p.task, v);
        var after := if p.token.Some? then {p.token.value} else {};
        var tail := PollAnswers(s1, ps[1..], completed + after, inputs, first, log + [a]);
        more := [a] + tail;
        assert Roll(s) + ParkedPlans(ps) == Roll(s) + multiset{WaitingPlan(p.co, p.task)} + ParkedPlans(ps[1..]);
        AnswersThen(first, log, inputs, s, ParkedPlans(ps), a, s1, ParkedPlans(ps[1..]), tail,
                    PollParked(s1, ps[1..], completed + after, inputs).0);
    }
  }

  lemma NoPlans()
    ensures ParkedPlans([]) == multiset{}
  {
  }

  lemma WakeKeeps(s: State, co: Coroutine, task: nat, v: Value)
    ensures Wake(s, co, task, v).parked == s.parked && Wake(s, co, task, v).timers == s.timers
  {
  }

  /** A coroutine that stays parked has moved from the list to be polled to those polled. */
  lemma AnswersMoved(first: map<nat, TaskState>, log: seq<Answer>, inputs: Inputs, s: State, ps: seq<Parked>, s1: State,
                     more: seq<Answer>, r: State)
    requires ps != [] && ParkedPlans(ps) == multiset{WaitingPlan(ps[0].co, ps[0].task)} + ParkedPlans(ps[1..])
    requires s1.ready == s.ready && Roll(s1) == Roll(s) + multiset{WaitingPlan(ps[0].co, ps[0].task)}
    requires Answers(first, log, inputs, s1, ParkedPlans(ps[1..]), more, r)
    ensures Answers(first, log, inputs, s, ParkedPlans(ps), more, r)
  {
    hide Roll, Stands, Accounts, AllFair, Stacked, ParkedPlans, WaitingPlan;
    assert Roll(s) + ParkedPlans(ps) == Roll(s1) + ParkedPlans(ps[1..]);
  }

  // ----- timers -----

  lemma RollWithout(s: State, i: nat)
    requires i < |s.timers|
    ensures Roll(s) ==
              Roll(s.(timers := Without(s.timers, i))) + multiset{WaitingPlan(s.timers[i].co, s.timers[i].task)}
  {
    TimerWithout(s.timers, i);
    hide ReadyPlans, ParkedPlans, TimerPlans, ResultPlans, WaitingPlan;
  }

  /** A due timer may be polled; one that is still pending is put back with a deadline not before the task's. */
  lemma TimerRouted(s: State, i: nat, now: nat)
    requires i < |s.timers| && Routed(s) && s.timers[i].deadline <= now
    ensures match TaskOf(s.tasks, s.timers[i].task)
            case Pending(None) => false
            case Pending(Some(d)) => d <= now
            case _ => true
    ensures var t, s1 := s.timers[i], s.(timers := Without(s.timers, i));
            && Routed(s1.(timers := s1.timers + [Timer(now + 1, t.co, t.task)]))
            && forall v: Value :: Routed(Wake(s1, t.co, t.task, v))
  {
    assert forall t :: t in Without(s.timers, i) ==> t in s.timers;
    assert s.timers[i] in s.timers;
  }

  /** Firing timers: likewise, in the order of their deadlines. */
  lemma {:induction false} FireAnswers(s: State, inputs: Inputs, first: map<nat, TaskState>, log: seq<Answer>)
    returns (more: seq<Answer>)
    requires Stands(first, log, s.tasks) && Routed(s)
    ensures var r := FireTimers(s, inputs.now, inputs.timerPolls);
            Answers(first, log, inputs, s, multiset{}, more, r) && Routed(r)
    decreases Due(s.timers, inputs.now)
  {
    hide Stands, Answers, Accounts, AllFair, Stacked, Routed, Roll, WaitingPlan, Wake, TaskOf, Due;
    if s.timers == [] || s.timers[Earliest(s.timers)].deadline > inputs.now {
      more := [];
      AnswersNone(first, log, inputs, s, multiset{}, s);
    } else {
      var i := Earliest(s.timers);
      var t, s1 := s.timers[i], s.(timers := Without(s.timers, i));
      FireTimerDue(s, i, inputs.now, inputs.timerPolls);
      RollWithout(s, i);
      TimerRouted(s, i, inputs.now);
      PollIsFair(first, log, s.tasks, t.task, inputs, true);
      var s2 := FireTimer(s, i, inputs.now, inputs.timerPolls);
      match Poll(s.tasks, t.task, inputs.timerPolls)
      case Some(v) =>
        var a := AnswersOne(first, log, inputs, s1, t.co, t.task, v, multiset{});
        var tail := FireAnswers(s2, inputs, first, log + [a]);
        more := [a] + tail;
        assert Roll(s1) + multiset{WaitingPlan(t.co, t.task)} + multiset{} == Roll(s) + multiset{};
        AnswersThen(first, log, inputs, s, multiset{}, a, s2, multiset{}, tail,
                    FireTimers(s2, inputs.now, inputs.timerPolls));
      case None =>
        RollTimer(s1, Timer(inputs.now + 1, t.co, t.task));
        more := FireAnswers(s2, inputs, first, log);
        AnswersHere(first, log, inputs, s, s2, more, FireTimers(s2, inputs.now, inputs.timerPolls));
    }
  }

  lemma AnswersHere(first: map<nat, TaskState>, log: seq<Answer>, inputs: Inputs, s: State, s1: State,
                    more: seq<Answer>, r: State)
    requires s1.ready == s.ready && Roll(s1) == Roll(s) && Answers(first, log, inputs, s1, multiset{}, more, r)
    ensures Answers(first, log, inputs, s, multiset{}, more, r)
  {
    hide Roll, Stands, Accounts, AllFair, Stacked;
  }

  // ----- a tick, and a run -----

  /**
   A tick: its log accounts for all coroutines, every answer in it is fair, and
   it is what lies on the ready stack afterwards, in order.
   */
  lemma TickAnswers(s: State, inputs: Inputs, first: map<nat, TaskState>, log: seq<Answer>) returns (more: seq<Answer>)
    requires Stands(first, log, s.tasks) && Routed(s)
    ensures var r := Tick(s, inputs);
            && Accounts(Roll(s), more, Roll(r)) && AllFair(first, log, more, inputs)
            && Stands(first, log + more, r.tasks) && Routed(r) && Stacked([], more, r.ready)
  {
    hide *;
    var s1 := RunReady(s);
    RunReadyKeeps(s);
    Unparked(s1);
    var s2 := PollParked(s1.(parked := []), s1.parked, {}, inputs).0;
    var a := PollAnswers(s1.(parked := []), s1.parked, {}, inputs, first, log);
    AnswersMean(first, log, inputs, s1.(parked := []), ParkedPlans(s1.parked), a, s2);
    var b := FireAnswers(s2, inputs, first, log + a);
    var s3 := FireTimers(s2, inputs.now, inputs.timerPolls);
    AnswersMean(first, log + a, inputs, s2, multiset{}, b, s3);
    more := a + b;
    assert Roll(s2) + multiset{} == Roll(s2) && Roll(s3) + multiset{} == Roll(s3);
    AccountsJoin(Roll(s), a, Roll(s2), b, Roll(s3));
    AllFairJoin(first, log, a, b, inputs);
    StackedJoin([], a, s2.ready, b, s3.ready);
    assert log + (a + b) == log + a + b;
    TickIs(s, inputs);
  }

  lemma AnswersMean(first: map<nat, TaskState>, log: seq<Answer>, inputs: Inputs, s: State, rest: multiset<Plan>,
                    more: seq<Answer>, r: State)
    requires Answers(first, log, inputs, s, rest, more, r)
    ensures Accounts(Roll(s) + rest, more, Roll(r)) && AllFair(first, log, more, inputs)
    ensures Stands(first, log + more, r.tasks) && Stacked(s.ready, more, r.ready)
  {
  }

  lemma Unparked(s: State)
    ensures Roll(s.(parked := [])) + ParkedPlans(s.parked) == Roll(s)
    ensures Routed(s) ==> Routed(s.(parked := []).(parked := s.(parked := []).parked + s.parked))
    ensures s.(parked := []).tasks == s.tasks && s.(parked := []).ready == s.ready
  {
    hide ReadyPlans, ParkedPlans, TimerPlans, ResultPlans, TaskOf;
    NoPlans();
    assert [] + s.parked == s.parked;
  }

  lemma TickIs(s: State, inputs: Inputs)
    ensures var s1 := RunReady(s);
            var s3 := FireTimers(PollParked(s1.(parked := []), s1.parked, {}, inputs).0, inputs.now, inputs.timerPolls);
            && Roll(Tick(s, inputs)) == Roll(s3) && Tick(s, inputs).tasks == s3.tasks
            && Tick(s, inputs).ready == s3.ready && (Routed(s3) ==> Routed(Tick(s, inputs)))
  {
    hide RunReady, PollParked, FireTimers, ReadyPlans, ParkedPlans, TimerPlans, ResultPlans;
  }

  /** The logs of successive ticks, one for each of the first inputs. */
  predicate FairRun(first: map<nat, TaskState>, before: seq<Answer>, logs: seq<seq<Answer>>, inputs: seq<Inputs>)
    decreases |logs|
  {
    logs != [] ==>
      && inputs != [] && AllFair(first, before, logs[0], inputs[0])
      && FairRun(first, before + logs[0], logs[1..], inputs[1..])
  }

  function Flat(logs: seq<seq<Answer>>): seq<Answer> {
    if logs == [] then [] else logs[0] + Flat(logs[1..])
  }

  /**
   Over whole runs: one log of answers for each tick accounts for everything
   the coroutines have received, and each answer is the task's value for the
   first to be answered and nil for all others, over all ticks together.
   */
  lemma {:induction false} RunAnswers(s: State, inputs: seq<Inputs>, first: map<nat, TaskState>, log: seq<Answer>)
    returns (logs: seq<seq<Answer>>)
    requires Stands(first, log, s.tasks) && Routed(s)
    ensures Accounts(Roll(s), Flat(logs), Roll(Run(s, inputs).0)) && FairRun(first, log, logs, inputs)
    decreases |inputs|
  {
    hide Stands, Accounts, AllFair, Stacked, Routed, Roll, Tick;
    if inputs == [] {
      logs := [];
      AccountsFirst(Roll(s), [], Roll(s));
    } else {
      var more := TickAnswers(s, inputs[0], first, log);
      var s1 := Tick(s, inputs[0]);
      if Idle(s1) {
        logs := [more];
        assert logs[1..] == [] && more + [] == more;
      } else {
        var tail := RunAnswers(s1, inputs[1..], first, log + more);
        logs := [more] + tail;
        assert logs[1..] == tail;
        AccountsJoin(Roll(s), more, Roll(s1), Flat(tail), Roll(Run(s, inputs).0));
      }
    }
  }

  // ----- one coroutine -----

  /** `from` became `to` by the answers of the log, one for each value `to` has received since, in order. */
  predicate Grown(from: Plan, to: Plan, log: seq<Answer>) {
    var n := |from.got|;
    && to.id == from.id && n <= |to.got| && to.got[..n] == from.got
    && |to.got| - n + |to.todo| == |from.todo| && to.todo == from.todo[|to.got| - n..]
    && forall k :: n <= k < |to.got| ==> Handed(from, to, log, k)
  }

  /** The log has the `k`-th value, with the task it was received for. */
  predicate Handed(from: Plan, to: Plan, log: seq<Answer>, k: nat)
    requires |from.got| <= k < |to.got| && k - |from.got| <= |from.todo|
  {
    Answer(Plan(to.id, to.got[..k], from.todo[k - |from.got|..]), to.got[k]) in log
  }

  lemma {:induction false} ComesFrom(before: multiset<Plan>, log: seq<Answer>, after: multiset<Plan>, to: Plan)
    returns (from: Plan)
    requires Accounts(before, log, after) && to in after
    ensures from in before && Grown(from, to, log)
    decreases |log|
  {
    if log == [] {
      from := to;
    } else {
      var a := log[0];
      var mid := ComesFrom(Changed(before, a), log[1..], after, to);
      if mid in before {
        from := mid;
        EarlierAnswer(from, to, log);
      } else {
        assert mid == After(a);
        from := a.to;
        OneMore(a, to, log);
      }
    }
  }

  lemma EarlierAnswer(from: Plan, to: Plan, log: seq<Answer>)
    requires log != [] && Grown(from, to, log[1..])
    ensures Grown(from, to, log)
  {
    forall k | |from.got| <= k < |to.got|
      ensures Handed(from, to, log, k)
    {
      assert Handed(from, to, log[1..], k);
    }
  }

  lemma OneMore(a: Answer, to: Plan, log: seq<Answer>)
    requires log != [] && log[0] == a && a.to.todo != [] && Grown(After(a), to, log[1..])
    ensures Grown(a.to, to, log)
  {
    var n := |a.to.got|;
    assert to.got[..n + 1] == a.to.got + [a.value];
    assert to.got[..n] == a.to.got && to.got[n] == a.value;
    assert a.to.todo[1..][|to.got| - n - 1..] == a.to.todo[|to.got| - n..];
    hide Handed;
    forall k | n <= k < |to.got|
      ensures Handed(a.to, to, log, k)
    {
      if k == n {
        HandedFirst(a, to, log);
      } else {
        assert Handed(After(a), to, log[1..], k);
        HandedLater(a, to, log, k);
      }
    }
  }

  lemma HandedFirst(a: Answer, to: Plan, log: seq<Answer>)
    requires log != [] && log[0] == a && |a.to.got| < |to.got|
    requires to.id == a.to.id && to.got[..|a.to.got|] == a.to.got && to.got[|a.to.got|] == a.value
    ensures Handed(a.to, to, log, |a.to.got|)
  {
    assert a.to.todo[0..] == a.to.todo;
  }

  lemma HandedLater(a: Answer, to: Plan, log: seq<Answer>, k: nat)
    requires log != [] && a.to.todo != [] && |a.to.got| < k < |to.got| && k - |a.to.got| <= |a.to.todo|
    requires Handed(After(a), to, log[1..], k)
    ensures Handed(a.to, to, log, k)
  {
    assert a.to.todo[1..][k - |a.to.got| - 1..] == a.to.todo[k - |a.to.got|..];
  }

  /**
   A run: whatever has finished in its course was some coroutine at its start,
   and has received, for each task of its script in order, the value that the
   log of fair answers has for it.
   */
  lemma FinishedReceived(s: State, inputs: seq<Inputs>, f: Finished)
    returns (from: Plan, logs: seq<seq<Answer>>)
    requires Routed(s) && f in Run(s, inputs).0.results
    ensures from in Roll(s) && from.id == f.id && |f.got| == |from.got| + |from.todo|
    ensures Grown(from, Plan(f.id, f.got, []), Flat(logs)) && FairRun(s.tasks, [], logs, inputs)
  {
    hide Accounts, FairRun, Routed, Roll, Flat, Run;
    NothingTaken(s.tasks);
    logs := RunAnswers(s, inputs, s.tasks, []);
    ResultInRoll(Run(s, inputs).0, f);
    from := ComesFrom(Roll(s), Flat(logs), Roll(Run(s, inputs).0), Plan(f.id, f.got, []));
  }

  lemma NothingTaken(tasks: map<nat, TaskState>)
    ensures Stands(tasks, [], tasks)
  {
  }

  lemma ResultInRoll(s: State, f: Finished)
    requires f in s.results
    ensures Plan(f.id, f.got, []) in Roll(s)
  {
    ResultInPlans(s.results, f);
    hide ReadyPlans, ParkedPlans, TimerPlans, ResultPlans;
  }

  lemma {:induction false} ResultInPlans(fs: seq<Finished>, f: Finished)
    requires f in fs
    ensures Plan(f.id, f.got, []) in ResultPlans(fs)
  {
    var n := |fs| - 1;
    if fs[n] != f {
      assert f in fs[..n];
      ResultInPlans(fs[..n], f);
    }
  }

  // ----- nobody is overlooked -----

  /** Still parked after polling: its token was not ready, or the task is pending and its poll had no answer. */
  predicate Unanswered(p: Parked, tasks: map<nat, TaskState>, inputs: Inputs) {
    !ShouldPoll(p, inputs.tokenReady) || (TaskOf(tasks, p.task).Pending? && inputs.polls(p.task).None?)
  }

  lemma {:induction false} PolledAll(s: State, ps: seq<Parked>, completed: set<nat>, inputs: Inputs,
                                     first: map<nat, TaskState>)
    requires forall t: nat :: TaskOf(s.tasks, t).Pending? ==> TaskOf(first, t).Pending?
    ensures var r := PollParked(s, ps, completed, inputs).0;
            && (forall p :: p in r.parked ==> p in s.parked || Unanswered(p, first, inputs))
            && (forall t: nat :: TaskOf(r.tasks, t).Pending? ==> TaskOf(first, t).Pending?)
            && r.timers == s.timers
    decreases |ps|
  {
    if ps != [] {
      var p := ps[0];
      var answer := if ShouldPoll(p, inputs.tokenReady) then Poll(s.tasks, p.task, inputs.polls) else None;
      var more := if p.token.Some? then {p.token.value} else {};
      match answer
      case None => PolledAll(s.(parked := s.parked + [p]), ps[1..], completed, inputs, first);
      case Some(v) => PolledAll(Wake(s, p.co, p.task, v), ps[1..], completed + more, inputs, first);
    }
  }

  /** Still waiting for time after timers were fired: not due before, or due again because its task is still pending. */
  predicate Early(t: Timer, before: seq<Timer>, tasks: map<nat, TaskState>, inputs: Inputs) {
    || (t in before && t.deadline > inputs.now)
    || (t.deadline == inputs.now + 1 && TaskOf(tasks, t.task).Pending? && inputs.timerPolls(t.task).None?)
  }

  lemma {:induction false} FiredAll(s: State, inputs: Inputs, before: seq<Timer>, first: map<nat, TaskState>)
    requires forall t: nat :: TaskOf(s.tasks, t).Pending? ==> TaskOf(first, t).Pending?
    requires forall t :: t in s.timers ==> t in before || Early(t, before, first, inputs)
    ensures var r := FireTimers(s, inputs.now, inputs.timerPolls);
            && r.parked == s.parked
            && forall t :: t in r.timers ==> Early(t, before, first, inputs)
    decreases Due(s.timers, inputs.now)
  {
    if s.timers != [] {
      var i := Earliest(s.timers);
      if s.timers[i].deadline <= inputs.now {
        FireTimerDue(s, i, inputs.now, inputs.timerPolls);
        assert forall t :: t in Without(s.timers, i) ==> t in s.timers;
        FiredAll(FireTimer(s, i, inputs.now, inputs.timerPolls), inputs, before, first);
      }
    }
  }

  /**
   Nobody is overlooked: who still waits after a tick waits for a token that
   was not ready, for a task whose poll had no answer, or for a later time.
   */
  lemma NobodyOverlooked(s: State, inputs: Inputs)
    requires Routed(s)
    ensures forall p :: p in Tick(s, inputs).parked ==> Unanswered(p, s.tasks, inputs)
    ensures forall t :: t in Tick(s, inputs).timers ==> Early(t, RunReady(s).timers, s.tasks, inputs)
  {
    hide Routed, Roll, TaskOf, Unanswered, Early;
    RunReadyKeeps(s);
    var s1 := RunReady(s);
    var s2 := PollParked(s1.(parked := []), s1.parked, {}, inputs).0;
    PolledAll(s1.(parked := []), s1.parked, {}, inputs, s.tasks);
    FiredAll(s2, inputs, s1.timers, s.tasks);
  }

  // ----- order -----

  /** Those whose script is done. */
  function FinishedOf(rs: seq<Runnable>): seq<Finished> {
    if rs == [] then []
    else (if rs[0].co.script == [] then [Finished(rs[0].co.id, Received(rs[0]))] else []) + FinishedOf(rs[1..])
  }

  function Reversed(rs: seq<Runnable>): seq<Runnable> {
    if rs == [] then [] else [rs[|rs| - 1]] + Reversed(rs[..|rs| - 1])
  }

  /** The ready coroutines are resumed from the last to the first, and finish in that order. */
  lemma {:induction false} LastReadyFirst(s: State)
    ensures RunReady(s).results == s.results + FinishedOf(Reversed(s.ready))
    decreases |s.ready|
  {
    hide Resume, Received;
    if s.ready != [] {
      var n := |s.ready| - 1;
      var s1 := s.(ready := s.ready[..n]);
      ResumeFinishes(s1, s.ready[n]);
      LastReadyFirst(Resume(s1, s.ready[n]));
      assert Reversed(s.ready)[1..] == Reversed(s.ready[..n]);
    }
  }

  lemma ResumeFinishes(s: State, r: Runnable)
    ensures Resume(s, r).ready == s.ready
    ensures Resume(s, r).results ==
              s.results + if r.co.script == [] then [Finished(r.co.id, Received(r))] else []
  {
    hide Received;
  }

  // ----- tokens -----

  lemma {:induction false} PolledTokens(s: State, ps: seq<Parked>, completed: set<nat>, inputs: Inputs)
    ensures var (r, done) := PollParked(s, ps, completed, inputs);
            && r.tokens == s.tokens && completed <= done
            && (forall p :: p in s.parked ==> p in r.parked)
            && (forall p :: p in ps && p.token.Some? ==> p in r.parked || p.token.value in done)
            && (forall k :: k in done ==>
                  k in completed || exists p :: p in ps && p.token == Some(k) && inputs.tokenReady(k))
    decreases |ps|
  {
    hide Wake, Poll;
    if ps != [] {
      var p := ps[0];
      var answer := if ShouldPoll(p, inputs.tokenReady) then Poll(s.tasks, p.task, inputs.polls) else None;
      var more := if p.token.Some? then {p.token.value} else {};
      match answer
      case None => PolledTokens(s.(parked := s.parked + [p]), ps[1..], completed, inputs);
      case Some(v) =>
        WakeTokens(s, p.co, p.task, v);
        PolledTokens(Wake(s, p.co, p.task, v), ps[1..], completed + more, inputs);
    }
  }

  lemma WakeTokens(s: State, co: Coroutine, task: nat, v: Value)
    ensures Wake(s, co, task, v).tokens == s.tokens && Wake(s, co, task, v).parked == s.parked
  {
  }

  lemma {:induction false} FiredTokens(s: State, now: nat, answers: nat -> Option<Value>)
    ensures FireTimers(s, now, answers).tokens == s.tokens && FireTimers(s, now, answers).parked == s.parked
    decreases Due(s.timers, now)
  {
    if s.timers != [] {
      var i := Earliest(s.timers);
      if s.timers[i].deadline <= now {
        FireTimerDue(s, i, now, answers);
        FiredTokens(FireTimer(s, i, now, answers), now, answers);
      }
    }
  }

  lemma {:induction false} ReadyTokens(s: State)
    ensures RunReady(s).tokens == s.tokens
    decreases |s.ready|
  {
    if s.ready != [] {
      var n := |s.ready| - 1;
      ReadyTokens(Resume(s.(ready := s.ready[..n]), s.ready[n]));
    }
  }

  /** A tick deregisters the tokens of the parked coroutines it answers, and only tokens that were ready. */
  lemma TokensGo(s: State, inputs: Inputs)
    ensures forall t :: t in Tick(s, inputs).tokens ==> t in s.tokens && Tick(s, inputs).tokens[t] == s.tokens[t]
    ensures forall p, t :: p in RunReady(s).parked && p !in Tick(s, inputs).parked && t in Tick(s, inputs).tokens ==>
              p.token != Some(s.tokens[t])
    ensures forall t :: t in s.tokens && t !in Tick(s, inputs).tokens ==>
              inputs.tokenReady(s.tokens[t]) && exists p :: p in RunReady(s).parked && p.token == Some(s.tokens[t])
  {
    hide RunReady, PollParked, FireTimers;
    var s1 := RunReady(s);
    ReadyTokens(s);
    PolledTokens(s1.(parked := []), s1.parked, {}, inputs);
    FiredTokens(PollParked(s1.(parked := []), s1.parked, {}, inputs).0, inputs.now, inputs.timerPolls);
  }
}
