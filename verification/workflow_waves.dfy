/** One wave of the executor as an interleaving of its step tasks, and what
    every interleaving keeps. */
module WorkflowWaves {
  import opened Digraph
  import opened Wrappers
  import opened WorkflowGraphs
  import opened WorkflowModel

  datatype State = State(outputs: Outputs, completed: set<Id>, records: seq<StepExecution>, approvals: seq<Request>)

  datatype EngineError = StepFailed(stepId: Id, message: string) | OutputConflict(stepId: Id)

  datatype TaskResult = Recorded(record: StepExecution) | Suspended(request: Request) | Raised(error: EngineError)

  /** Where a task stands between two of its awaits. */
  datatype Task = Waiting | Attempting(k: nat) | Awaiting(k: nat, result: AttemptResult) | Done(outcome: TaskResult)

  datatype Wave = Wave(st: State, tasks: map<Id, Task>)

  /** The event loop gives step id its turn at time now. */
  datatype Tick = Tick(id: Id, now: int, uuid: string)

  function RecordIds(records: seq<StepExecution>): (ids: seq<Id>)
    ensures |ids| == |records|
  {
    seq(|records|, i requires 0 <= i < |records| => records[i].stepId)
  }

  /** The write-once store refuses a second output of the same step. */
  function Commit(st: State, r: StepExecution, put: bool): State {
    State(if put then st.outputs[r.stepId := r.output] else st.outputs,
          st.completed + {r.stepId}, st.records + [r], st.approvals)
  }

  function Fail(step: Step, st: State, k: nat, message: string): (State, Task) {
    if k < Retries(step) then (st, Attempting(k + 1))
    else
      match step.errorPolicy
      case Skip =>
        var r := StepExecution(step.id, Skipped, Null, Some(message), Retries(step));
        (Commit(st, r, false), Done(Recorded(r)))
      case Ignore =>
        var r := StepExecution(step.id, Succeeded, Null, Some(message), Retries(step));
        if step.id in st.outputs then (st, Done(Raised(OutputConflict(step.id))))
        else (Commit(st, r, true), Done(Recorded(r)))
      case _ => (st, Done(Raised(StepFailed(step.id, message))))
  }

  /** One await-free section of the task of step. */
  function Advance(step: Step, st: State, task: Task, tick: Tick): (State, Task) {
    match task
    case Waiting =>
      if step.id in st.completed then
        var last := if st.records == [] then SucceededRecord(step.id, Null, 0) else st.records[|st.records| - 1];
        (st, Done(Recorded(last)))
      else if ShouldRun(step, st.outputs) then (st, Attempting(0))
      else (Commit(st, GatedRecord(step.id), false), Done(Recorded(GatedRecord(step.id))))
    case Attempting(k) =>
      (st, Awaiting(k, RunAttempt(step, st.outputs, st.approvals, k, tick.now, tick.uuid)))
    case Awaiting(k, Returned(v)) =>
      if step.id in st.outputs then Fail(step, st, k, "output conflict")
      else (Commit(st, SucceededRecord(step.id, v, k), true), Done(Recorded(SucceededRecord(step.id, v, k))))
    case Awaiting(k, Paused(request)) => (st, Done(Suspended(request)))
    case Awaiting(k, Failed(message)) => Fail(step, st, k, message)
    case Done(_) => (st, task)
  }

  predicate HoldsSlot(t: Task) {
    t.Attempting? || t.Awaiting?
  }

  function InFlight(tasks: map<Id, Task>): set<Id> {
    set id | id in tasks && HoldsSlot(tasks[id])
  }

  /** The semaphore admits a new task only below max_concurrency. */
  predicate Enabled(d: Definition, w: Wave, id: Id) {
    id in w.tasks && !w.tasks[id].Done? && (w.tasks[id].Waiting? ==> |InFlight(w.tasks)| < d.maxConcurrency)
  }

  function Turn(d: Definition, w: Wave, tick: Tick): (r: Wave)
    requires w.tasks.Keys <= Graph(d).Keys
    ensures r.tasks.Keys == w.tasks.Keys
  {
    if Enabled(d, w, tick.id) then
      var (st, t) := Advance(StepOf(d, tick.id), w.st, w.tasks[tick.id], tick);
      Wave(st, w.tasks[tick.id := t])
    else w
  }

  function Interleave(d: Definition, w: Wave, ticks: seq<Tick>): (r: Wave)
    requires w.tasks.Keys <= Graph(d).Keys
    ensures r.tasks.Keys == w.tasks.Keys
    decreases |ticks|
  {
    if ticks == [] then w else Interleave(d, Turn(d, w, ticks[0]), ticks[1..])
  }

  function Launch(st: State, ready: seq<Id>): Wave {
    Wave(st, map id | id in ready :: Waiting)
  }

  /** The semaphore: no turn takes the tasks that hold a slot above
      max_concurrency. */
  lemma TurnWithinCap(d: Definition, w: Wave, tick: Tick)
    requires w.tasks.Keys <= Graph(d).Keys && |InFlight(w.tasks)| <= d.maxConcurrency
    ensures |InFlight(Turn(d, w, tick).tasks)| <= d.maxConcurrency
  {
    if Enabled(d, w, tick.id) {
      OneTaskMoves(w.tasks, tick.id, Turn(d, w, tick).tasks[tick.id]);
      hide Graph, StepOf, Advance, InFlight;
    }
  }

  /** One task more holds a slot, and only if it held none. */
  lemma OneTaskMoves(tasks: map<Id, Task>, id: Id, t: Task)
    requires id in tasks
    ensures |InFlight(tasks[id := t])| <= |InFlight(tasks)| + if HoldsSlot(tasks[id]) then 0 else 1
  {
    var before, after := InFlight(tasks), InFlight(tasks[id := t]);
    assert after <= before + {id};
    SubsetSize(after, before + {id});
    if HoldsSlot(tasks[id]) {
      assert before + {id} == before;
    }
  }

  lemma {:induction false} InterleaveWithinCap(d: Definition, w: Wave, ticks: seq<Tick>)
    requires w.tasks.Keys <= Graph(d).Keys && |InFlight(w.tasks)| <= d.maxConcurrency
    ensures |InFlight(Interleave(d, w, ticks).tasks)| <= d.maxConcurrency
    decreases |ticks|
  {
    hide Turn, InFlight;
    if ticks != [] {
      TurnWithinCap(d, w, ticks[0]);
      InterleaveWithinCap(d, Turn(d, w, ticks[0]), ticks[1..]);
    }
  }

  /** At most max_concurrency steps of a wave run at any time. */
  lemma WaveWithinCap(d: Definition, st: State, ready: seq<Id>, ticks: seq<Tick>)
    requires forall id :: id in ready ==> id in Graph(d)
    ensures |InFlight(Interleave(d, Launch(st, ready), ticks).tasks)| <= d.maxConcurrency
  {
    assert InFlight(Launch(st, ready).tasks) == {};
    hide Interleave, InFlight, Graph;
    InterleaveWithinCap(d, Launch(st, ready), ticks);
  }

  predicate AllDone(w: Wave) {
    forall id :: id in w.tasks ==> w.tasks[id].Done?
  }

  /** What holds of the engine's state between any two sections of any run:
      completed steps are dependency-closed and recorded exactly once, after
      their dependencies; only completed steps have outputs. */
  ghost predicate Safe(g: Deps, st: State) {
    && DependencyFirst(g, RecordIds(st.records))
    && Elems(RecordIds(st.records)) == st.completed
    && st.outputs.Keys <= st.completed
    && (forall i :: 0 <= i < |st.records| ==> RecordStored(st.outputs, st.records[i]))
  }

  ghost predicate RecordStored(o: Outputs, r: StepExecution) {
    Get(o, r.stepId) == r.output && (r.status == Skipped ==> r.stepId !in o && r.output == Null)
  }

  ghost predicate ReadyToRun(g: Deps, st: State, id: Id) {
    id in g && id !in st.completed && DepsWithin(g, id, st.completed)
  }

  ghost predicate TaskSafe(g: Deps, st: State, id: Id, t: Task) {
    match t
    case Done(Recorded(r)) => id in st.completed && r in st.records && r.stepId == id
    case Done(Raised(OutputConflict(_))) => false
    case Awaiting(_, Paused(q)) => ReadyToRun(g, st, id) && q.stepId == id && q.status == Pending
    case Done(Suspended(q)) => ReadyToRun(g, st, id) && q.stepId == id && q.status == Pending
    case _ => ReadyToRun(g, st, id)
  }

  ghost predicate WaveSafe(g: Deps, w: Wave) {
    && Safe(g, w.st)
    && w.tasks.Keys <= g.Keys
    && forall id :: id in w.tasks ==> TaskSafe(g, w.st, id, w.tasks[id])
  }

  /** later is st plus the records of some further steps, each success among
      them written to the store. */
  ghost predicate Grows(st: State, later: State) {
    && st.completed <= later.completed
    && st.records <= later.records
    && st.approvals == later.approvals
    && AgreeOn(st.outputs, later.outputs, st.completed)
    && st.outputs.Keys <= later.outputs.Keys
    && (forall i :: |st.records| <= i < |later.records| && later.records[i].status == Succeeded ==>
          later.records[i].stepId in later.outputs)
  }

  lemma CommitSafe(g: Deps, st: State, r: StepExecution, put: bool)
    requires Safe(g, st) && ReadyToRun(g, st, r.stepId)
    requires put <==> r.status == Succeeded
    requires !put ==> r.output == Null
    ensures Safe(g, Commit(st, r, put)) && Grows(st, Commit(st, r, put))
  {
    hide DependencyFirst;
    var next := Commit(st, r, put);
    assert RecordIds(next.records) == RecordIds(st.records) + [r.stepId];
    assert r.stepId !in Elems(RecordIds(st.records));
    OrderExtends(g, RecordIds(st.records), r.stepId);
    forall i | 0 <= i < |next.records| ensures RecordStored(next.outputs, next.records[i]) {
      if i < |st.records| {
        assert RecordIds(st.records)[i] in Elems(RecordIds(st.records));
        assert RecordStored(st.outputs, st.records[i]);
      }
    }
  }

  lemma FailSafe(g: Deps, step: Step, st: State, k: nat, message: string)
    requires Safe(g, st) && ReadyToRun(g, st, step.id)
    ensures var (next, t) := Fail(step, st, k, message);
            Safe(g, next) && Grows(st, next) && TaskSafe(g, next, step.id, t) &&
                next.completed <= st.completed + {step.id}
  {
    hide DependencyFirst;
    if k >= Retries(step) {
      if step.errorPolicy == Skip {
        CommitSafe(g, st, StepExecution(step.id, Skipped, Null, Some(message), Retries(step)), false);
      }
      if step.errorPolicy == Ignore {
        CommitSafe(g, st, StepExecution(step.id, Succeeded, Null, Some(message), Retries(step)), true);
      }
    }
  }

  lemma AdvanceSafe(g: Deps, step: Step, st: State, t: Task, tick: Tick)
    requires Safe(g, st) && TaskSafe(g, st, step.id, t)
    ensures var (next, u) := Advance(step, st, t, tick);
            Safe(g, next) && Grows(st, next) && TaskSafe(g, next, step.id, u) &&
                next.completed <= st.completed + {step.id}
  {
    assert t.Awaiting? ==> step.id !in st.outputs;
    hide DependencyFirst, Safe, Fail;
    match t
    case Waiting =>
      if !ShouldRun(step, st.outputs) {
        CommitSafe(g, st, GatedRecord(step.id), false);
      }
    case Awaiting(k, Returned(v)) =>
      CommitSafe(g, st, SucceededRecord(step.id, v, k), true);
    case Awaiting(k, Failed(m)) => FailSafe(g, step, st, k, m);
    case _ =>
  }

  /** Other steps' commits never disturb a task. */
  lemma TaskUndisturbed(g: Deps, st: State, later: State, id: Id, t: Task, mover: Id)
    requires Grows(st, later) && later.completed <= st.completed + {mover}
    requires id != mover && TaskSafe(g, st, id, t)
    ensures TaskSafe(g, later, id, t)
  {
  }

  lemma TurnSafe(d: Definition, w: Wave, tick: Tick)
    requires WaveSafe(Graph(d), w)
    ensures WaveSafe(Graph(d), Turn(d, w, tick)) && Grows(w.st, Turn(d, w, tick).st)
  {
    hide Safe, Advance, TaskSafe;
    var g, next := Graph(d), Turn(d, w, tick);
    if Enabled(d, w, tick.id) {
      var step := StepOf(d, tick.id);
      AdvanceSafe(g, step, w.st, w.tasks[tick.id], tick);
      forall id | id in next.tasks ensures TaskSafe(g, next.st, id, next.tasks[id]) {
        if id != tick.id {
          TaskUndisturbed(g, w.st, next.st, id, w.tasks[id], tick.id);
        }
      }
    }
  }

  lemma GrowsTransitive(a: State, b: State, c: State)
    requires Grows(a, b) && Grows(b, c)
    ensures Grows(a, c)
  {
  }

  /** Safety of a whole wave, whatever the interleaving. */
  lemma {:induction false} InterleaveSafe(d: Definition, w: Wave, ticks: seq<Tick>)
    requires WaveSafe(Graph(d), w)
    ensures WaveSafe(Graph(d), Interleave(d, w, ticks)) && Grows(w.st, Interleave(d, w, ticks).st)
    decreases |ticks|
  {
    assert w.tasks.Keys <= Graph(d).Keys;
    hide WaveSafe, Turn, Grows;
    if ticks != [] {
      var next := Turn(d, w, ticks[0]);
      TurnSafe(d, w, ticks[0]);
      InterleaveSafe(d, next, ticks[1..]);
      GrowsTransitive(w.st, next.st, Interleave(d, next, ticks[1..]).st);
    } else {
      GrowsReflexive(w.st);
    }
  }

  lemma GrowsReflexive(st: State)
    ensures Grows(st, st)
  {
  }

  lemma LaunchSafe(d: Definition, st: State)
    requires Safe(Graph(d), st)
    ensures WaveSafe(Graph(d), Launch(st, Ready(Nodes(d), Graph(d), st.completed)))
  {
    ReadyMembers(Nodes(d), Graph(d), st.completed);
  }

  lemma {:induction false} InterleaveConcat(d: Definition, w: Wave, a: seq<Tick>, b: seq<Tick>)
    requires w.tasks.Keys <= Graph(d).Keys
    ensures Interleave(d, w, a + b) == Interleave(d, Interleave(d, w, a), b)
    decreases |a|
  {
    hide Turn;
    if a == [] {
      assert a + b == b;
    } else {
      assert (a + b)[1..] == a[1..] + b;
      InterleaveConcat(d, Turn(d, w, a[0]), a[1..], b);
    }
  }

  ghost function Distance(step: Step, t: Task): nat {
    match t
    case Waiting => 2 * Retries(step) + 3
    case Attempting(k) => (if k < Retries(step) then 2 * (Retries(step) - k) else 0) + 2
    case Awaiting(k, _) => (if k < Retries(step) then 2 * (Retries(step) - k) else 0) + 1
    case Done(_) => 0
  }

  lemma AdvanceProgresses(step: Step, st: State, t: Task, tick: Tick)
    requires !t.Done?
    ensures Distance(step, Advance(step, st, t, tick).1) < Distance(step, t)
    ensures !Advance(step, st, t, tick).1.Waiting?
  {
  }

  /** A task that may move can be driven to its end without touching others. */
  lemma {:induction false} FinishTask(d: Definition, w: Wave, id: Id) returns (ticks: seq<Tick>)
    requires w.tasks.Keys <= Graph(d).Keys && Enabled(d, w, id)
    ensures var r := Interleave(d, w, ticks);
            r.tasks[id].Done? && forall other :: other in w.tasks && other != id ==> r.tasks[other] == w.tasks[other]
    decreases Distance(StepOf(d, id), w.tasks[id])
  {
    var tick := Tick(id, 0, "");
    AdvanceProgresses(StepOf(d, id), w.st, w.tasks[id], tick);
    hide Advance, InFlight;
    var next := Turn(d, w, tick);
    ticks := [tick];
    assert Interleave(d, w, ticks) == Interleave(d, next, []) == next;
    if !next.tasks[id].Done? {
      var rest := FinishTask(d, next, id);
      InterleaveConcat(d, w, [tick], rest);
      ticks := [tick] + rest;
    }
  }

  ghost function Unfinished(w: Wave): set<Id> {
    set id | id in w.tasks && !w.tasks[id].Done?
  }

  /** No semaphore bound deadlocks a wave: some schedule finishes it. */
  lemma {:induction false} WaveCanFinish(d: Definition, w: Wave) returns (ticks: seq<Tick>)
    requires w.tasks.Keys <= Graph(d).Keys && d.maxConcurrency >= 1
    ensures AllDone(Interleave(d, w, ticks))
    decreases Unfinished(w)
  {
    ticks := [];
    if !AllDone(w) {
      var mover := AnyEnabled(d, w);
      var first := FinishTask(d, w, mover);
      var next := Interleave(d, w, first);
      assert mover in Unfinished(w) && mover !in Unfinished(next);
      hide Interleave;
      var rest := WaveCanFinish(d, next);
      InterleaveConcat(d, w, first, rest);
      ticks := first + rest;
    }
  }

  lemma AnyEnabled(d: Definition, w: Wave) returns (id: Id)
    requires d.maxConcurrency >= 1 && !AllDone(w)
    ensures Enabled(d, w, id)
  {
    id :| id in w.tasks && !w.tasks[id].Done?;
    if busy :| busy in InFlight(w.tasks) {
      id := busy;
    } else {
      assert InFlight(w.tasks) == {};
    }
  }

  // ---- fair schedules

  ghost function WorkOf(d: Definition, tasks: map<Id, Task>, n: Id): nat
    requires n in Graph(d)
  {
    if n in tasks then Distance(StepOf(d, n), tasks[n]) else 0
  }

  /** An upper bound on the turns that can still move the tasks of ids. */
  ghost function Work(d: Definition, tasks: map<Id, Task>, ids: seq<Id>): nat
    requires forall n :: n in ids ==> n in Graph(d)
  {
    if ids == [] then 0 else WorkOf(d, tasks, ids[0]) + Work(d, tasks, ids[1..])
  }

  lemma {:induction false} LessWork(d: Definition, before: map<Id, Task>, after: map<Id, Task>, ids: seq<Id>, mover: Id)
    requires forall n :: n in ids ==> n in Graph(d) && WorkOf(d, after, n) <= WorkOf(d, before, n)
    ensures Work(d, after, ids) <= Work(d, before, ids)
    ensures mover in ids && WorkOf(d, after, mover) < WorkOf(d, before, mover) ==>
              Work(d, after, ids) < Work(d, before, ids)
  {
    hide WorkOf;
    if ids != [] {
      LessWork(d, before, after, ids[1..], mover);
    }
  }

  lemma TurnWorks(d: Definition, w: Wave, tick: Tick, ids: seq<Id>)
    requires w.tasks.Keys <= Graph(d).Keys && forall n :: n in ids ==> n in Graph(d)
    requires forall n :: n in w.tasks ==> n in ids
    ensures Enabled(d, w, tick.id) ==> Work(d, Turn(d, w, tick).tasks, ids) < Work(d, w.tasks, ids)
    ensures !Enabled(d, w, tick.id) ==> Turn(d, w, tick) == w
  {
    if Enabled(d, w, tick.id) {
      AdvanceProgresses(StepOf(d, tick.id), w.st, w.tasks[tick.id], tick);
      hide Advance, Distance, InFlight, Graph, StepOf;
      LessWork(d, w.tasks, Turn(d, w, tick).tasks, ids, tick.id);
    }
  }

  /** Turns that move a task. */
  ghost function Effective(d: Definition, w: Wave, ticks: seq<Tick>): nat
    requires w.tasks.Keys <= Graph(d).Keys
    decreases |ticks|
  {
    if ticks == [] then 0
    else (if Enabled(d, w, ticks[0].id) then 1 else 0) + Effective(d, Turn(d, w, ticks[0]), ticks[1..])
  }

  /** No schedule has more effective turns than the work there was, and one
      with as many ends the wave. */
  lemma {:induction false} EffectiveTurnsEnd(d: Definition, w: Wave, ticks: seq<Tick>, ids: seq<Id>)
    requires w.tasks.Keys <= Graph(d).Keys && forall n :: n in ids ==> n in Graph(d)
    requires forall n :: n in w.tasks ==> n in ids
    ensures Effective(d, w, ticks) + Work(d, Interleave(d, w, ticks).tasks, ids) <= Work(d, w.tasks, ids)
    ensures Effective(d, w, ticks) >= Work(d, w.tasks, ids) ==> AllDone(Interleave(d, w, ticks))
    decreases |ticks|
  {
    hide Enabled, Turn, Graph;
    if ticks != [] {
      TurnWorks(d, w, ticks[0], ids);
      EffectiveTurnsEnd(d, Turn(d, w, ticks[0]), ticks[1..], ids);
    }
    NoWorkIsDone(d, Interleave(d, w, ticks), ids);
  }

  lemma {:induction false} WorkCounts(d: Definition, tasks: map<Id, Task>, ids: seq<Id>, n: Id)
    requires (forall m :: m in ids ==> m in Graph(d)) && n in ids
    ensures WorkOf(d, tasks, n) <= Work(d, tasks, ids)
  {
    hide WorkOf;
    if ids[0] != n {
      WorkCounts(d, tasks, ids[1..], n);
    }
  }

  lemma NoWorkIsDone(d: Definition, w: Wave, ids: seq<Id>)
    requires (forall n :: n in ids ==> n in Graph(d)) && forall n :: n in w.tasks ==> n in ids
    ensures Work(d, w.tasks, ids) == 0 ==> AllDone(w)
  {
    hide Work, Graph, StepOf;
    forall n | n in w.tasks && Work(d, w.tasks, ids) == 0 ensures w.tasks[n].Done? {
      WorkCounts(d, w.tasks, ids, n);
    }
  }

  /** Every task gets a turn. */
  ghost predicate Covers(d: Definition, ticks: seq<Tick>) {
    forall n :: n in Graph(d) ==> exists i :: 0 <= i < |ticks| && ticks[i].id == n
  }

  /** The schedule starts with n rounds in which every task gets a turn. */
  ghost predicate Fair(d: Definition, ticks: seq<Tick>, n: nat) {
    n == 0 || exists k :: 0 <= k <= |ticks| && RoundAt(d, ticks, k) && Fair(d, ticks[k..], n - 1)
  }

  ghost predicate RoundAt(d: Definition, ticks: seq<Tick>, k: nat)
    requires k <= |ticks|
  {
    Covers(d, ticks[..k])
  }

  lemma {:induction false} NoneEffective(d: Definition, w: Wave, ticks: seq<Tick>)
    requires w.tasks.Keys <= Graph(d).Keys && Effective(d, w, ticks) == 0
    ensures Interleave(d, w, ticks) == w
    ensures forall i :: 0 <= i < |ticks| ==> !Enabled(d, w, ticks[i].id)
    decreases |ticks|
  {
    hide Graph, Enabled;
    if ticks != [] {
      assert Turn(d, w, ticks[0]) == w;
      NoneEffective(d, w, ticks[1..]);
    }
  }

  /** A round moves some task, unless all are done. */
  lemma RoundIsEffective(d: Definition, w: Wave, round: seq<Tick>)
    requires w.tasks.Keys <= Graph(d).Keys && d.maxConcurrency >= 1 && Covers(d, round) && !AllDone(w)
    ensures Effective(d, w, round) >= 1
  {
    var mover := AnyEnabled(d, w);
    assert mover in w.tasks;
    hide Graph, Effective;
    if Effective(d, w, round) == 0 {
      NoneEffective(d, w, round);
    }
  }

  lemma {:induction false} DoneStays(d: Definition, w: Wave, ticks: seq<Tick>)
    requires w.tasks.Keys <= Graph(d).Keys && AllDone(w)
    ensures Interleave(d, w, ticks) == w
    decreases |ticks|
  {
    hide Graph;
    if ticks != [] {
      assert Turn(d, w, ticks[0]) == w;
      DoneStays(d, w, ticks[1..]);
    }
  }

  lemma FirstRound(d: Definition, ticks: seq<Tick>, n: nat) returns (round: seq<Tick>, rest: seq<Tick>)
    requires Fair(d, ticks, n) && n > 0
    ensures ticks == round + rest && Covers(d, round) && Fair(d, rest, n - 1)
  {
    hide Covers;
    var k :| 0 <= k <= |ticks| && RoundAt(d, ticks, k) && Fair(d, ticks[k..], n - 1);
    hide Fair;
    round, rest := ticks[..k], ticks[k..];
  }

  lemma RoundLessWork(d: Definition, w: Wave, round: seq<Tick>, ids: seq<Id>)
    requires w.tasks.Keys <= Graph(d).Keys && d.maxConcurrency >= 1 && forall m :: m in ids ==> m in Graph(d)
    requires (forall m :: m in w.tasks ==> m in ids) && Covers(d, round) && !AllDone(w)
    ensures Work(d, Interleave(d, w, round).tasks, ids) < Work(d, w.tasks, ids)
  {
    hide Covers, Interleave, Effective, Work, AllDone, Graph;
    RoundIsEffective(d, w, round);
    EffectiveTurnsEnd(d, w, round, ids);
  }

  /** Every schedule with as many rounds as there is work ends the wave. */
  lemma {:induction false} FairWaveEnds(d: Definition, w: Wave, ticks: seq<Tick>, ids: seq<Id>, n: nat)
    requires w.tasks.Keys <= Graph(d).Keys && d.maxConcurrency >= 1 && forall m :: m in ids ==> m in Graph(d)
    requires (forall m :: m in w.tasks ==> m in ids) && Fair(d, ticks, n) && n >= Work(d, w.tasks, ids)
    ensures AllDone(Interleave(d, w, ticks))
    decreases n
  {
    hide *;
    if AllDone(w) {
      DoneStays(d, w, ticks);
    } else if n == 0 {
      NoWorkIsDone(d, w, ids);
    } else {
      var round, rest := FirstRound(d, ticks, n);
      RoundLessWork(d, w, round, ids);
      FairWaveEnds(d, Interleave(d, w, round), rest, ids, n - 1);
      InterleaveConcat(d, w, round, rest);
    }
  }

  /** The work of a wave in which every step would have to run. */
  ghost function FullWork(d: Definition): nat {
    assert forall n :: n in Nodes(d) ==> n in Elems(Nodes(d));
    Work(d, map n | n in Graph(d) :: Waiting, Nodes(d))
  }

  lemma LaunchWork(d: Definition, st: State, ready: seq<Id>)
    requires forall n :: n in ready ==> n in Graph(d)
    ensures forall n :: n in Nodes(d) ==> n in Graph(d)
    ensures Work(d, Launch(st, ready).tasks, Nodes(d)) <= FullWork(d)
  {
    assert forall n :: n in Nodes(d) ==> n in Elems(Nodes(d));
    hide Distance;
    LessWork(d, map n | n in Graph(d) :: Waiting, Launch(st, ready).tasks, Nodes(d), "");
  }
}
