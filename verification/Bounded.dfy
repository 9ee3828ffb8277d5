/** Runs in which a worker never has more than so many live tasks. */
module Bounded {
  import opened Schema
  import opened Protocol
  import opened Coverage
  import opened Reach

  /** The bound that a worker's loop keeps at every moment. */
  ghost predicate AtMost(states: seq<State>, w: WorkerId, c: nat) {
    forall k | 0 <= k < |states| :: |LiveTasks(states[k], w)| <= c
  }

  /** Some run gets to this state within the bound. */
  ghost predicate Within(s: State, w: WorkerId, c: nat) {
    exists states :: Run(states) && states[|states| - 1] == s && AtMost(states, w, c)
  }

  lemma WithinStart(w: WorkerId, c: nat)
    ensures Within(INIT, w, c)
  {
    assert LiveTasks(INIT, w) == {};
    assert Run([INIT]) && [INIT][|[INIT]| - 1] == INIT && AtMost([INIT], w, c);
  }

  lemma WithinNext(s: State, s': State, w: WorkerId, c: nat, step: Step)
    requires Within(s, w, c) && NextStep(s, s', step) && |LiveTasks(s', w)| <= c
    ensures Within(s', w, c)
  {
    var states :| Run(states) && states[|states| - 1] == s && AtMost(states, w, c);
    var longer := states + [s'];
    assert Next(s, s');
    PathJoins(states, [s, s']);
    assert [s, s'][1..] == [s'];
    assert Run(longer) && longer[|longer| - 1] == s' && AtMost(longer, w, c);
  }

  lemma WithinBound(s: State, w: WorkerId, c: nat)
    requires Within(s, w, c)
    ensures |LiveTasks(s, w)| <= c
  {
  }

  lemma FewerLive(a: set<TaskId>, b: set<TaskId>)
    requires a <= b
    ensures |a| <= |b|
  {
    assert a + (b - a) == b;
  }

  /** A step that brings no new live task stays within the bound. */
  lemma WithinOn(s: State, s': State, w: WorkerId, c: nat, step: Step)
    requires Within(s, w, c) && NextStep(s, s', step) && LiveTasks(s', w) <= LiveTasks(s, w)
    ensures Within(s', w, c)
  {
    WithinBound(s, w, c);
    FewerLive(LiveTasks(s', w), LiveTasks(s, w));
    WithinNext(s, s', w, c, step);
  }

  lemma SameTasksSameLive(s: State, s': State, w: WorkerId)
    requires s'.tasks == s.tasks
    ensures LiveTasks(s', w) == LiveTasks(s, w)
  {
  }

  /** A step that leaves the tasks alone. */
  lemma WithinSameTasks(s: State, s': State, w: WorkerId, c: nat, step: Step)
    requires Within(s, w, c) && NextStep(s, s', step) && s'.tasks == s.tasks
    ensures Within(s', w, c)
  {
    SameTasksSameLive(s, s', w);
    WithinOn(s, s', w, c, step);
  }

  lemma StageKeepsLive(tasks: map<TaskId, Task>, s: State, s': State, t: TaskId, stage: Stage, w: WorkerId)
    requires s.tasks == tasks && t in tasks && Live(tasks[t]) && s'.tasks == tasks[t := tasks[t].(stage := stage)]
    ensures LiveTasks(s', w) <= LiveTasks(s, w)
  {
  }

  /** A step that moves a live task on. */
  lemma WithinStage(s: State, s': State, w: WorkerId, c: nat, t: TaskId, stage: Stage, step: Step)
    requires Within(s, w, c) && NextStep(s, s', step) && t in s.tasks && Live(s.tasks[t])
    requires s'.tasks == s.tasks[t := s.tasks[t].(stage := stage)]
    ensures Within(s', w, c)
  {
    StageKeepsLive(s.tasks, s, s', t, stage, w);
    WithinOn(s, s', w, c, step);
  }

  lemma WithinIsRun(s: State, w: WorkerId, c: nat) returns (states: seq<State>)
    requires Within(s, w, c)
    ensures Run(states) && states[|states| - 1] == s && AtMost(states, w, c)
  {
    states :| Run(states) && states[|states| - 1] == s && AtMost(states, w, c);
  }
}
