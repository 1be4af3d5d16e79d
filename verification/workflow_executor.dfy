/** The executor as a program: shared mutable state, the wave loop and the
    event loop that serves the tasks, proved to be the runs reasoned about. */
module WorkflowExecution {
  import opened Digraph
  import opened Wrappers
  import opened WorkflowGraphs
  import opened WorkflowModel
  import opened WorkflowWaves
  import opened WorkflowRuns

  class OutputStore {
    var outputs: Outputs

    constructor ()
      ensures outputs == map[]
    {
      outputs := map[];
    }

    /** Refuses a second output of the same step. */
    method Put(id: Id, output: Value) returns (stored: bool)
      modifies this
      ensures stored <==> id !in old(outputs)
      ensures outputs == if stored then old(outputs)[id := output] else old(outputs)
    {
      stored := id !in outputs;
      if stored {
        outputs := outputs[id := output];
      }
    }
  }

  class EngineState {
    const store: OutputStore
    var completed: set<Id>
    var stepExecutions: seq<StepExecution>
    var approvals: seq<Request>

    ghost function Abs(): State
      reads this, store
    {
      State(store.outputs, completed, stepExecutions, approvals)
    }

    constructor (requests: seq<Request>)
      ensures fresh(store) && Abs() == State(map[], {}, [], requests)
    {
      store := new OutputStore();
      completed, stepExecutions, approvals := {}, [], requests;
    }

    method Record(r: StepExecution)
      modifies this
      ensures store.outputs == old(store.outputs) && approvals == old(approvals)
      ensures completed == old(completed) + {r.stepId} && stepExecutions == old(stepExecutions) + [r]
    {
      completed := completed + {r.stepId};
      stepExecutions := stepExecutions + [r];
    }

    /** Restores completed steps from the persisted records; yields the step
        whose output would be stored twice, if there is one. */
    method Restored(records: seq<StepExecution>) returns (conflict: Option<Id>)
      requires Abs() == State(map[], {}, [], approvals)
      modifies this, store
      ensures match Restore(records, old(approvals))
              case Ok(st) => conflict.None? && Abs() == st
              case Err(id) => conflict.Some?
    {
      ghost var start := approvals;
      for i := 0 to |records|
        invariant Restore(records[..i], start) == Ok(Abs())
      {
        var r := records[i];
        assert records[..i + 1][..i] == records[..i];
        if r.status == Succeeded && r.output != Null {
          var stored := store.Put(r.stepId, r.output);
          if !stored {
            RestoreErrs(records, start, i + 1);
            return Some(r.stepId);
          }
        }
        Record(r);
      }
      assert records[..|records|] == records;
      return None;
    }

    method Failure(step: Step, k: nat, message: string) returns (t: Task)
      modifies this, store
      ensures (Abs(), t) == Fail(step, old(Abs()), k, message)
    {
      if k < Retries(step) {
        return Attempting(k + 1);
      }
      match step.errorPolicy
      case Skip =>
        var r := StepExecution(step.id, Skipped, Null, Some(message), Retries(step));
        Record(r);
        return Done(Recorded(r));
      case Ignore =>
        var r := StepExecution(step.id, Succeeded, Null, Some(message), Retries(step));
        var stored := store.Put(step.id, Null);
        if !stored {
          return Done(Raised(OutputConflict(step.id)));
        }
        Record(r);
        return Done(Recorded(r));
      case _ =>
        return Done(Raised(StepFailed(step.id, message)));
    }

    /** Runs the task of step up to its next await. */
    method ExecuteSection(step: Step, task: Task, tick: Tick) returns (t: Task)
      modifies this, store
      ensures (Abs(), t) == Advance(step, old(Abs()), task, tick)
    {
      match task
      case Waiting =>
        if step.id in completed {
          return Done(Recorded(if stepExecutions == [] then SucceededRecord(step.id, Null, 0)
                               else stepExecutions[|stepExecutions| - 1]));
        }
        if !ShouldRun(step, store.outputs) {
          Record(GatedRecord(step.id));
          return Done(Recorded(GatedRecord(step.id)));
        }
        return Attempting(0);
      case Attempting(k) =>
        return Awaiting(k, RunAttempt(step, store.outputs, approvals, k, tick.now, tick.uuid));
      case Awaiting(k, Returned(v)) =>
        var stored := store.Put(step.id, v);
        if stored {
          Record(SucceededRecord(step.id, v, k));
          return Done(Recorded(SucceededRecord(step.id, v, k)));
        }
        t := Failure(step, k, "output conflict");
      case Awaiting(k, Paused(request)) =>
        return Done(Suspended(request));
      case Awaiting(k, Failed(message)) =>
        t := Failure(step, k, message);
      case Done(_) =>
        return task;
    }
  }

  lemma {:induction false} RestoreErrs(records: seq<StepExecution>, approvals: seq<Request>, i: nat)
    requires i <= |records| && Restore(records[..i], approvals).Err?
    ensures Restore(records, approvals).Err?
    decreases |records| - i
  {
    if i == |records| {
      assert records[..i] == records;
    } else {
      assert records[..i + 1][..i] == records[..i];
      RestoreErrs(records, approvals, i + 1);
    }
  }

  /** One wave: the event loop serves the tasks of ready in the given order. */
  method RunWave(d: Definition, state: EngineState, ready: seq<Id>, ticks: seq<Tick>) returns (tasks: map<Id, Task>)
    requires forall id :: id in ready ==> id in Graph(d)
    modifies state, state.store
    ensures Wave(state.Abs(), tasks) == Interleave(d, Launch(old(state.Abs()), ready), ticks)
  {
    tasks := map id | id in ready :: Waiting;
    ghost var launched := Launch(state.Abs(), ready);
    assert ticks[0..] == ticks;
    for j := 0 to |ticks|
      invariant tasks.Keys <= Graph(d).Keys && launched.tasks.Keys <= Graph(d).Keys
      invariant Interleave(d, launched, ticks) == Interleave(d, Wave(state.Abs(), tasks), ticks[j..])
    {
      var tick := ticks[j];
      assert ticks[j..][1..] == ticks[j + 1..];
      if tick.id in tasks && !tasks[tick.id].Done? &&
         (tasks[tick.id].Waiting? ==> |InFlight(tasks)| < d.maxConcurrency) {
        var t := state.ExecuteSection(StepOf(d, tick.id), tasks[tick.id], tick);
        tasks := tasks[tick.id := t];
      }
    }
  }

  /** The loop over the gathered results: the first error wins over every
      pause, and among pauses the last. */
  method Gather(results: seq<TaskResult>) returns (r: ScanResult)
    ensures r == Scan(results, None)
    ensures match r
            case RaiseFirst(e) =>
              exists i :: 0 <= i < |results| && results[i] == Raised(e) && forall k :: 0 <= k < i ==>
                  !results[k].Raised?
            case PauseOn(q) =>
              && (forall k :: 0 <= k < |results| ==> !results[k].Raised?)
              && exists i :: 0 <= i < |results| && LastPause(results, i) && results[i].request == q
            case AllRecorded => forall k :: 0 <= k < |results| ==> results[k].Recorded?
  {
    var paused: Option<Request> := None;
    ghost var last := 0;
    assert results[0..] == results;
    for i := 0 to |results|
      invariant Scan(results, None) == Scan(results[i..], paused)
      invariant forall k :: 0 <= k < i ==> !results[k].Raised?
      invariant paused.None? ==> forall k :: 0 <= k < i ==> results[k].Recorded?
      invariant paused.Some? ==> last < i && results[last] == Suspended(paused.value) &&
                                 forall k :: last < k < i ==> results[k].Recorded?
    {
      assert results[i..][1..] == results[i + 1..];
      match results[i]
      case Suspended(q) => paused, last := Some(q), i;
      case Raised(e) => return RaiseFirst(e);
      case Recorded(_) =>
    }
    assert paused.Some? ==> LastPause(results, last);
    return if paused.Some? then PauseOn(paused.value) else AllRecorded;
  }

  /** No later task paused. */
  ghost predicate LastPause(results: seq<TaskResult>, i: nat)
    requires i < |results|
  {
    results[i].Suspended? && forall k :: i < k < |results| ==> !results[k].Suspended?
  }

  lemma {:induction false} GraphIsDeclared(steps: seq<Step>)
    ensures DepsOf(Decls(steps)) == map id | id in Lookup(steps) :: Lookup(steps)[id].dependsOn
  {
    if steps != [] {
      var k := |steps| - 1;
      assert Decls(steps)[..k] == Decls(steps[..k]);
      GraphIsDeclared(steps[..k]);
    }
  }

  method BuildGraph(d: Definition) returns (graph: WorkflowGraph)
    ensures fresh(graph) && graph.Valid() && graph.nodes == Nodes(d) && graph.dependencies == Graph(d)
  {
    graph := new WorkflowGraph(Decls(d.steps));
    GraphIsDeclared(d.steps);
  }

  method RunOne(d: Definition, state: EngineState, ready: seq<Id>, ticks: seq<Tick>)
      returns (outcome: Option<ScanResult>)
    requires forall id :: id in ready ==> id in Graph(d)
    modifies state, state.store
    ensures var w := Interleave(d, Launch(old(state.Abs()), ready), ticks);
            && state.Abs() == w.st
            && outcome == if AllDone(w) then Some(Scan(Results(w, ready), None)) else None
  {
    var tasks := RunWave(d, state, ready, ticks);
    if !(forall id :: id in tasks ==> tasks[id].Done?) {
      return None;
    }
    var scanned := Gather(seq(|ready|, k requires 0 <= k < |ready| => tasks[ready[k]].outcome));
    return Some(scanned);
  }

  /** The wave loop. */
  method RunToEnd(d: Definition, graph: WorkflowGraph, state: EngineState, waves: seq<seq<Tick>>) returns (r: RunEnd)
    requires graph.Valid() && graph.nodes == Nodes(d) && graph.dependencies == Graph(d)
    modifies state, state.store
    ensures r == RunWaves(d, old(state.Abs()), waves)
    ensures !r.OutOfSchedule? ==>
              r.st == State(state.store.outputs, state.completed, state.stepExecutions, state.approvals)
  {
    hide Interleave, Scan, Ready, Launch, AddRequest, AllDone, Results, WorkflowGraph.Valid;
    var i := 0;
    assert waves[0..] == waves;
    while true
      invariant i <= |waves|
      invariant RunWaves(d, old(state.Abs()), waves) == RunWaves(d, state.Abs(), waves[i..])
      decreases |waves| - i
    {
      var ready := graph.ReadySteps(state.completed);
      ReadyMembers(Nodes(d), Graph(d), state.completed);
      if ready == [] {
        return Completed(State(state.store.outputs, state.completed, state.stepExecutions, state.approvals));
      }
      if i == |waves| {
        return OutOfSchedule;
      }
      assert waves[i..][0] == waves[i] && waves[i..][1..] == waves[i + 1..];
      var outcome := RunOne(d, state, ready, waves[i]);
      match outcome
      case None => return OutOfSchedule;
      case Some(RaiseFirst(e)) =>
        return Aborted(State(state.store.outputs, state.completed, state.stepExecutions, state.approvals), e);
      case Some(PauseOn(q)) =>
        state.approvals := AddRequest(state.approvals, q);
        return Parked(State(state.store.outputs, state.completed, state.stepExecutions, state.approvals));
      case Some(AllRecorded) =>
        i := i + 1;
    }
  }

  /** WorkflowExecutor.run under the given schedule is the run of the model. A
      success holds, for each declared name, what its last declaration reads
      off the outputs of the returned records. */
  method Run(d: Definition, run: WorkflowRun, waves: seq<seq<Tick>>) returns (r: Option<WorkflowRun>)
    ensures r == RunFrom(d, run, waves) && Resolves(d, run, r)
  {
    RunResolves(d, run, waves);
    hide Restore, RunWaves, DeclaredOutputs, Graph, Nodes, WorkflowGraph.Valid, Resolves;
    var graph := BuildGraph(d);
    var state := new EngineState(run.approvals);
    var conflict := state.Restored(run.stepExecutions);
    if conflict.Some? {
      return None;
    }
    var end := RunToEnd(d, graph, state, waves);
    match end
    case OutOfSchedule => return None;
    case Completed(st) => return Some(Finalize(run, RunSucceeded, st, DeclaredOutputs(d.outputs, st.outputs)));
    case Aborted(st, _) => return Some(Finalize(run, RunFailed, st, run.outputs));
    case Parked(st) => return Some(Finalize(run, WaitingApproval, st, run.outputs));
  }
}
