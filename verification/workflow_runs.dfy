/** Whole runs: wave after wave, restored from and finalised into the
    persisted run. */
module WorkflowRuns {
  import opened Digraph
  import opened Wrappers
  import opened WorkflowGraphs
  import opened WorkflowModel
  import opened WorkflowWaves

  datatype ScanResult = AllRecorded | PauseOn(request: Request) | RaiseFirst(error: EngineError)

  /** The gathered results: the first error wins, else the last pause. */
  function Scan(results: seq<TaskResult>, paused: Option<Request>): ScanResult {
    if results == [] then
      if paused.Some? then PauseOn(paused.value) else AllRecorded
    else
      match results[0]
      case Suspended(q) => Scan(results[1..], Some(q))
      case Raised(e) => RaiseFirst(e)
      case Recorded(_) => Scan(results[1..], paused)
  }

  function Results(w: Wave, ready: seq<Id>): seq<TaskResult>
    requires AllDone(w) && forall id :: id in ready ==> id in w.tasks
  {
    seq(|ready|, i requires 0 <= i < |ready| => w.tasks[ready[i]].outcome)
  }

  datatype RunEnd = Completed(st: State) | Aborted(st: State, error: EngineError) | Parked(st: State) | OutOfSchedule

  function AddRequest(approvals: seq<Request>, q: Request): seq<Request> {
    if forall i :: 0 <= i < |approvals| ==> approvals[i].requestId != q.requestId then approvals + [q] else approvals
  }

  /** The wave loop. waves[i] is the order in which the event loop serves the
      tasks of the i-th wave; a schedule too short to end the run is no run. */
  ghost function RunWaves(d: Definition, st: State, waves: seq<seq<Tick>>): RunEnd
    decreases |waves|
  {
    var ready := Ready(Nodes(d), Graph(d), st.completed);
    ReadyMembers(Nodes(d), Graph(d), st.completed);
    if ready == [] then Completed(st)
    else if waves == [] then OutOfSchedule
    else
      var w := Interleave(d, Launch(st, ready), waves[0]);
      if !AllDone(w) then OutOfSchedule
      else
        match Scan(Results(w, ready), None)
        case RaiseFirst(e) => Aborted(w.st, e)
        case PauseOn(q) => Parked(w.st.(approvals := AddRequest(w.st.approvals, q)))
        case AllRecorded => RunWaves(d, w.st, waves[1..])
  }

  datatype RunStatus = Created | WaitingApproval | RunSucceeded | RunFailed | Cancelled

  datatype WorkflowRun = WorkflowRun(status: RunStatus, stepExecutions: seq<StepExecution>, approvals: seq<Request>,
                                     outputs: map<string, Value>)

  const FRESH_RUN := WorkflowRun(Created, [], [], map[])

  /** Outputs and completed steps come back from the records; null outputs are
      not stored again. */
  function Restore(records: seq<StepExecution>, approvals: seq<Request>): Result<State, Id> {
    if records == [] then Ok(State(map[], {}, [], approvals))
    else
      var r := records[|records| - 1];
      match Restore(records[..|records| - 1], approvals)
      case Err(id) => Err(id)
      case Ok(st) =>
        if r.status == Succeeded && r.output != Null && r.stepId in st.outputs then Err(r.stepId)
        else Ok(Commit(st, r, r.status == Succeeded && r.output != Null))
  }

  function DeclaredOutputs(decls: seq<OutputDecl>, o: Outputs): map<string, Value> {
    if decls == [] then map[]
    else
      var last := decls[|decls| - 1];
      DeclaredOutputs(decls[..|decls| - 1], o)[last.name := last.source(o)]
  }

  function Finalize(run: WorkflowRun, status: RunStatus, st: State, outputs: map<string, Value>): WorkflowRun {
    WorkflowRun(status, st.records, st.approvals, outputs)
  }

  /** WorkflowExecutor.run; None when the schedule does not end the run or the
      records cannot be restored. */
  ghost function RunFrom(d: Definition, run: WorkflowRun, waves: seq<seq<Tick>>): Option<WorkflowRun> {
    match Restore(run.stepExecutions, run.approvals)
    case Err(_) => None
    case Ok(st) =>
      match RunWaves(d, st, waves)
      case OutOfSchedule => None
      case Completed(end) => Some(Finalize(run, RunSucceeded, end, DeclaredOutputs(d.outputs, end.outputs)))
      case Aborted(end, _) => Some(Finalize(run, RunFailed, end, run.outputs))
      case Parked(end) => Some(Finalize(run, WaitingApproval, end, run.outputs))
  }

  /** A persisted run holds one record per completed step, after those of its
      dependencies; skipped steps have no output. */
  ghost predicate RecordsSafe(g: Deps, records: seq<StepExecution>) {
    && DependencyFirst(g, RecordIds(records))
    && forall i :: 0 <= i < |records| ==> (records[i].status == Skipped ==> records[i].output == Null)
  }

  lemma EmptyIsSafe(g: Deps, approvals: seq<Request>)
    ensures Safe(g, State(map[], {}, [], approvals))
  {
    assert Elems(RecordIds([])) == {};
  }

  /** The last record restores on top of the others: it is next in line. */
  lemma RestoreLast(g: Deps, records: seq<StepExecution>, st: State)
    requires records != [] && RecordsSafe(g, records)
    requires Safe(g, st) && st.records == records[..|records| - 1]
    ensures var r := records[|records| - 1];
            r.stepId !in st.outputs && Safe(g, Commit(st, r, r.status == Succeeded && r.output != Null))
  {
    var ids, r, k := RecordIds(records), records[|records| - 1], |records| - 1;
    assert RecordIds(st.records) == ids[..k];
    ListedNext(g, ids, k);
    hide DependencyFirst;
    var next, full := Commit(st, r, r.status == Succeeded && r.output != Null), Commit(st, r, r.status == Succeeded);
    CommitSafe(g, st, r, r.status == Succeeded);
    forall i | 0 <= i < |next.records| ensures RecordStored(next.outputs, next.records[i]) {
      assert RecordStored(full.outputs, full.records[i]);
    }
  }

  lemma InitRecordsSafe(g: Deps, records: seq<StepExecution>)
    requires records != [] && RecordsSafe(g, records)
    ensures RecordsSafe(g, records[..|records| - 1])
  {
    var k := |records| - 1;
    assert RecordIds(records[..k]) == RecordIds(records)[..k];
    PrefixDependencyFirst(g, RecordIds(records), k);
  }

  /** Finalising and restoring gives back completed steps, records and the
      view of outputs, and never conflicts. */
  lemma {:induction false} RestoreSafe(g: Deps, records: seq<StepExecution>, approvals: seq<Request>)
    requires RecordsSafe(g, records)
    ensures var r := Restore(records, approvals);
            r.Ok? && Safe(g, r.value) && r.value.records == records && r.value.approvals == approvals
  {
    hide Safe, RecordsSafe;
    if records == [] {
      EmptyIsSafe(g, approvals);
    } else {
      InitRecordsSafe(g, records);
      RestoreSafe(g, records[..|records| - 1], approvals);
      RestoreLast(g, records, Restore(records[..|records| - 1], approvals).value);
      assert records[..|records| - 1] + [records[|records| - 1]] == records;
    }
  }

  lemma FinalizeSafe(g: Deps, st: State)
    requires Safe(g, st)
    ensures RecordsSafe(g, st.records) && Elems(RecordIds(st.records)) == st.completed
  {
    forall i | 0 <= i < |st.records| ensures st.records[i].status == Skipped ==> st.records[i].output == Null {
      assert RecordStored(st.outputs, st.records[i]);
    }
  }

  /** Any end of any run, under any schedule, leaves the engine safe, keeps
      all earlier records, and never meets an output conflict; a completed run
      has run all that can run. */
  ghost predicate EndSafe(d: Definition, st: State, end: RunEnd) {
    match end
    case OutOfSchedule => true
    case Completed(s) => Safe(Graph(d), s) && Grows(st, s) && LeastSaturated(Graph(d), s.completed)
    case Aborted(s, e) => Safe(Graph(d), s) && Grows(st, s) && e.StepFailed?
    case Parked(s) => Safe(Graph(d), s) && st.records <= s.records
  }

  lemma {:induction false} ScanFindsNoConflict(results: seq<TaskResult>, paused: Option<Request>)
    requires forall i :: 0 <= i < |results| && results[i].Raised? ==> results[i].error.StepFailed?
    ensures Scan(results, paused).RaiseFirst? ==> Scan(results, paused).error.StepFailed?
  {
    if results != [] {
      ScanFindsNoConflict(results[1..], if results[0].Suspended? then Some(results[0].request) else paused);
    }
  }

  lemma WaveResultsSafe(g: Deps, w: Wave, ready: seq<Id>)
    requires WaveSafe(g, w) && AllDone(w) && forall id :: id in ready ==> id in w.tasks
    ensures Scan(Results(w, ready), None).RaiseFirst? ==> Scan(Results(w, ready), None).error.StepFailed?
  {
    hide Safe;
    var results := Results(w, ready);
    forall i | 0 <= i < |results| && results[i].Raised? ensures results[i].error.StepFailed? {
      assert TaskSafe(g, w.st, ready[i], w.tasks[ready[i]]);
    }
    ScanFindsNoConflict(results, None);
  }

  lemma {:induction false} ScanPausesOnResult(results: seq<TaskResult>, paused: Option<Request>)
    ensures Scan(results, paused).PauseOn? ==>
              paused == Some(Scan(results, paused).request) || Suspended(Scan(results, paused).request) in results
  {
    if results != [] {
      ScanPausesOnResult(results[1..], if results[0].Suspended? then Some(results[0].request) else paused);
    }
  }

  lemma SuspendedIsOpen(g: Deps, st: State, id: Id, q: Request)
    requires TaskSafe(g, st, id, Done(Suspended(q)))
    ensures q.stepId !in st.completed && q.status == Pending
  {
  }

  /** The request a wave parks on belongs to a step that has not completed. */
  lemma ParkedRequest(d: Definition, w: Wave, ready: seq<Id>)
    requires WaveSafe(Graph(d), w) && AllDone(w) && forall id :: id in ready ==> id in w.tasks
    requires Scan(Results(w, ready), None).PauseOn?
    ensures Scan(Results(w, ready), None).request.stepId !in w.st.completed
    ensures Scan(Results(w, ready), None).request.status == Pending
  {
    hide Safe, Scan, ReadyToRun, Graph;
    var results := Results(w, ready);
    ScanPausesOnResult(results, None);
    var q := Scan(results, None).request;
    var i :| 0 <= i < |results| && results[i] == Suspended(q);
    SuspendedIsOpen(Graph(d), w.st, ready[i], q);
  }

  lemma NothingReadyIsLeast(d: Definition, st: State)
    requires Safe(Graph(d), st) && Ready(Nodes(d), Graph(d), st.completed) == []
    ensures LeastSaturated(Graph(d), st.completed)
  {
    var g, completed := Graph(d), st.completed;
    ReadyMembers(Nodes(d), g, completed);
    forall n {:trigger DepsWithin(g, n, completed)} | n in g && DepsWithin(g, n, completed) ensures n in completed {
      assert n in Elems(Nodes(d));
    }
    ListedAndSaturatedIsLeast(g, RecordIds(st.records));
  }

  lemma OneWaveSafe(d: Definition, st: State, ticks: seq<Tick>)
    requires Safe(Graph(d), st)
    ensures var ready := Ready(Nodes(d), Graph(d), st.completed);
            (forall id :: id in ready ==> id in Graph(d)) &&
            var w := Interleave(d, Launch(st, ready), ticks);
            && WaveSafe(Graph(d), w) && Grows(st, w.st)
            && (AllDone(w) && Scan(Results(w, ready), None).RaiseFirst? ==>
                Scan(Results(w, ready), None).error.StepFailed?)
  {
    hide Safe, Grows;
    var ready := Ready(Nodes(d), Graph(d), st.completed);
    ReadyMembers(Nodes(d), Graph(d), st.completed);
    LaunchSafe(d, st);
    InterleaveSafe(d, Launch(st, ready), ticks);
    var w := Interleave(d, Launch(st, ready), ticks);
    if AllDone(w) {
      WaveResultsSafe(Graph(d), w, ready);
    }
  }

  lemma {:induction false} RunWavesSafe(d: Definition, st: State, waves: seq<seq<Tick>>)
    requires Safe(Graph(d), st)
    ensures EndSafe(d, st, RunWaves(d, st, waves))
    decreases |waves|
  {
    hide Safe, LeastSaturated, Grows, Ready, Scan, AllDone, Interleave;
    var ready := Ready(Nodes(d), Graph(d), st.completed);
    if ready == [] {
      NothingReadyIsLeast(d, st);
      GrowsReflexive(st);
    } else if waves != [] {
      OneWaveSafe(d, st, waves[0]);
      var w := Interleave(d, Launch(st, ready), waves[0]);
      GrowsKeepsRecords(st, w.st);
      ApprovalsDoNotMatter(Graph(d), w.st);
      if AllDone(w) && Scan(Results(w, ready), None).AllRecorded? {
        RunWavesSafe(d, w.st, waves[1..]);
        EndSafeFurther(d, st, w.st, RunWaves(d, w.st, waves[1..]));
      }
    }
  }

  lemma GrowsKeepsRecords(st: State, later: State)
    requires Grows(st, later)
    ensures st.records <= later.records && st.approvals == later.approvals
  {
  }

  lemma EndSafeFurther(d: Definition, st: State, mid: State, end: RunEnd)
    requires Grows(st, mid) && EndSafe(d, mid, end)
    ensures EndSafe(d, st, end)
  {
    hide Safe, LeastSaturated;
    match end
    case Completed(s) => GrowsTransitive(st, mid, s);
    case Aborted(s, _) => GrowsTransitive(st, mid, s);
    case _ =>
  }

  lemma ApprovalsDoNotMatter(g: Deps, st: State)
    requires Safe(g, st)
    ensures forall a :: Safe(g, st.(approvals := a))
  {
  }

  /** Sources read outputs only through OutputStore.get. */
  ghost predicate SourcesReadThroughGet(d: Definition) {
    forall i, o, p :: 0 <= i < |d.outputs| && (forall id :: Get(o, id) == Get(p, id)) ==>
      d.outputs[i].source(o) == d.outputs[i].source(p)
  }

  /** The persisted run at any time: safe records, and a success means that
      all that can run has run. */
  ghost predicate RunSafe(d: Definition, run: WorkflowRun) {
    && RecordsSafe(Graph(d), run.stepExecutions)
    && (run.status == RunSucceeded ==> LeastSaturated(Graph(d), Elems(RecordIds(run.stepExecutions))))
  }

  lemma RunFromSafe(d: Definition, run: WorkflowRun, waves: seq<seq<Tick>>)
    requires RunSafe(d, run) && RunFrom(d, run, waves).Some?
    ensures RunSafe(d, RunFrom(d, run, waves).value)
    ensures run.stepExecutions <= RunFrom(d, run, waves).value.stepExecutions
  {
    RestoreSafe(Graph(d), run.stepExecutions, run.approvals);
    var st := Restore(run.stepExecutions, run.approvals).value;
    RunWavesSafe(d, st, waves);
    hide Safe, LeastSaturated, RecordsSafe, RunWaves;
    match RunWaves(d, st, waves)
    case Completed(s) =>
      FinalizeSafe(Graph(d), s);
    case Aborted(s, _) => FinalizeSafe(Graph(d), s);
    case Parked(s) => FinalizeSafe(Graph(d), s);
  }

  // ---- statuses

  /** after is before with q at the end, unless a request with its id is there. */
  ghost predicate PutOnRecord(before: seq<Request>, after: seq<Request>, q: Request) {
    || after == before + [q]
    || (after == before && exists i :: 0 <= i < |before| && before[i].requestId == q.requestId)
  }

  /** What the end of a run says: parked, on an open request of a step that has no
      record; otherwise with the requests it was handed. */
  ghost predicate EndAsked(st: State, end: RunEnd) {
    match end
    case Parked(s) =>
      exists q: Request :: q.status == Pending && q.stepId !in RecordIds(s.records) &&
                           PutOnRecord(st.approvals, s.approvals, q)
    case Completed(s) => s.approvals == st.approvals
    case Aborted(s, _) => s.approvals == st.approvals
    case OutOfSchedule => true
  }

  lemma NotRecorded(g: Deps, st: State, id: Id)
    requires Safe(g, st) && id !in st.completed
    ensures id !in RecordIds(st.records)
  {
    assert id in RecordIds(st.records) ==> id in Elems(RecordIds(st.records));
  }

  lemma AddPuts(approvals: seq<Request>, q: Request)
    ensures PutOnRecord(approvals, AddRequest(approvals, q), q)
  {
  }

  lemma {:induction false} RunWavesAsk(d: Definition, st: State, waves: seq<seq<Tick>>)
    requires Safe(Graph(d), st)
    ensures EndAsked(st, RunWaves(d, st, waves))
    decreases |waves|
  {
    hide Safe, Grows, Ready, Scan, AllDone, Interleave, AddRequest, PutOnRecord, RecordIds;
    var ready := Ready(Nodes(d), Graph(d), st.completed);
    if ready != [] && waves != [] {
      OneWaveSafe(d, st, waves[0]);
      var w := Interleave(d, Launch(st, ready), waves[0]);
      GrowsKeepsRecords(st, w.st);
      ApprovalsDoNotMatter(Graph(d), w.st);
      if AllDone(w) {
        match Scan(Results(w, ready), None)
        case AllRecorded => RunWavesAsk(d, w.st, waves[1..]);
        case PauseOn(q) =>
          ParkedRequest(d, w, ready);
          NotRecorded(Graph(d), w.st, q.stepId);
          AddPuts(w.st.approvals, q);
        case RaiseFirst(_) =>
      }
    }
  }

  /** A call ends succeeded, failed or waiting for approval: waiting with a request
      that was put on record for a step without a record, succeeded and failed
      with the requests it was handed. */
  lemma StatusSays(d: Definition, run: WorkflowRun, waves: seq<seq<Tick>>)
    requires RecordsSafe(Graph(d), run.stepExecutions) && RunFrom(d, run, waves).Some?
    ensures var result := RunFrom(d, run, waves).value;
            match result.status
            case WaitingApproval =>
              exists q: Request :: q.status == Pending && q.stepId !in RecordIds(result.stepExecutions) &&
                                   PutOnRecord(run.approvals, result.approvals, q)
            case RunSucceeded =>
              && result.approvals == run.approvals
              && LeastSaturated(Graph(d), Elems(RecordIds(result.stepExecutions)))
            case RunFailed => result.approvals == run.approvals
            case _ => false
  {
    RestoreSafe(Graph(d), run.stepExecutions, run.approvals);
    var st := Restore(run.stepExecutions, run.approvals).value;
    RunWavesSafe(d, st, waves);
    RunWavesAsk(d, st, waves);
    hide LeastSaturated, RecordsSafe, RunWaves, Restore, RecordIds, PutOnRecord, DependencyFirst;
  }

  // ---- declared outputs

  /** o shows each recorded step with the output of its record, and no other step. */
  ghost predicate ShowsRecords(o: Outputs, records: seq<StepExecution>) {
    && (forall i :: 0 <= i < |records| ==> Get(o, records[i].stepId) == records[i].output)
    && (forall id :: id in o ==> id in RecordIds(records))
  }

  /** One value for each declared name: what the last declaration of the name
      reads. */
  ghost predicate HoldsDeclared(decls: seq<OutputDecl>, o: Outputs, outputs: map<string, Value>) {
    && (forall name :: name in outputs <==> exists i :: 0 <= i < |decls| && decls[i].name == name)
    && (forall i :: 0 <= i < |decls| && LastOfName(decls, i) ==>
          decls[i].name in outputs && outputs[decls[i].name] == decls[i].source(o))
  }

  ghost predicate LastOfName(decls: seq<OutputDecl>, i: nat)
    requires i < |decls|
  {
    forall k :: i < k < |decls| ==> decls[k].name != decls[i].name
  }

  lemma {:induction false} DeclaredNames(decls: seq<OutputDecl>, o: Outputs, name: string)
    ensures name in DeclaredOutputs(decls, o) <==> exists i :: 0 <= i < |decls| && decls[i].name == name
  {
    if decls != [] {
      var k := |decls| - 1;
      DeclaredNames(decls[..k], o, name);
      assert decls[k].name == name || forall i :: 0 <= i < |decls| && decls[i].name == name ==>
          decls[..k][i].name == name;
    }
  }

  lemma {:induction false} DeclaredValue(decls: seq<OutputDecl>, o: Outputs, i: nat)
    requires i < |decls| && LastOfName(decls, i)
    ensures decls[i].name in DeclaredOutputs(decls, o)
    ensures DeclaredOutputs(decls, o)[decls[i].name] == decls[i].source(o)
  {
    var k := |decls| - 1;
    if i < k {
      assert decls[k].name != decls[i].name;
      DeclaredValue(decls[..k], o, i);
    }
  }

  lemma DeclaredHold(decls: seq<OutputDecl>, o: Outputs)
    ensures HoldsDeclared(decls, o, DeclaredOutputs(decls, o))
  {
    hide DeclaredOutputs, LastOfName;
    forall name ensures name in DeclaredOutputs(decls, o) <==> exists i :: 0 <= i < |decls| && decls[i].name == name {
      DeclaredNames(decls, o, name);
    }
    forall i | 0 <= i < |decls| && LastOfName(decls, i)
      ensures decls[i].name in DeclaredOutputs(decls, o) &&
              DeclaredOutputs(decls, o)[decls[i].name] == decls[i].source(o)
    {
      DeclaredValue(decls, o, i);
    }
  }

  /** The persisted outputs are what the declarations read off the outputs of
      the persisted records. */
  ghost predicate OutputsResolved(d: Definition, run: WorkflowRun) {
    exists o :: ShowsRecords(o, run.stepExecutions) && HoldsDeclared(d.outputs, o, run.outputs)
  }

  lemma SafeShowsRecords(g: Deps, st: State)
    requires Safe(g, st)
    ensures ShowsRecords(st.outputs, st.records)
  {
    forall i | 0 <= i < |st.records| ensures Get(st.outputs, st.records[i].stepId) == st.records[i].output {
      assert RecordStored(st.outputs, st.records[i]);
    }
  }

  /** A success resolves the declared outputs from the records it returns; any
      other end keeps the outputs there were. */
  ghost predicate Resolves(d: Definition, run: WorkflowRun, r: Option<WorkflowRun>) {
    r.Some? && RecordsSafe(Graph(d), run.stepExecutions) ==>
      if r.value.status == RunSucceeded then OutputsResolved(d, r.value) else r.value.outputs == run.outputs
  }

  lemma RunResolves(d: Definition, run: WorkflowRun, waves: seq<seq<Tick>>)
    ensures Resolves(d, run, RunFrom(d, run, waves))
  {
    if RecordsSafe(Graph(d), run.stepExecutions) && RunFrom(d, run, waves).Some? {
      RestoreSafe(Graph(d), run.stepExecutions, run.approvals);
      var st := Restore(run.stepExecutions, run.approvals).value;
      RunWavesSafe(d, st, waves);
      hide Safe, LeastSaturated, RecordsSafe, RunWaves, Restore, ShowsRecords, HoldsDeclared;
      match RunWaves(d, st, waves)
      case Completed(end) =>
        SafeShowsRecords(Graph(d), end);
        DeclaredHold(d.outputs, end.outputs);
      case _ =>
    }
  }

  /** Some schedule ends the run: no wave deadlocks and every wave that records
      all its steps brings the run closer to its end. */
  lemma {:induction false} RunCanEnd(d: Definition, st: State) returns (waves: seq<seq<Tick>>)
    requires Safe(Graph(d), st) && d.maxConcurrency >= 1
    ensures !RunWaves(d, st, waves).OutOfSchedule?
    decreases Graph(d).Keys - st.completed
  {
    hide Safe, Interleave, Scan, Ready, Graph, Nodes;
    waves := [];
    if Ready(Nodes(d), Graph(d), st.completed) != [] {
      var ticks := SomeWave(d, st);
      waves := [ticks];
      var w := Interleave(d, Launch(st, Ready(Nodes(d), Graph(d), st.completed)), ticks);
      if Scan(Results(w, Ready(Nodes(d), Graph(d), st.completed)), None).AllRecorded? {
        var rest := RunCanEnd(d, w.st);
        waves := [ticks] + rest;
        assert waves[1..] == rest;
      }
    }
  }

  /** Some schedule finishes the next wave; if it neither pauses nor aborts it
      completes more steps. */
  lemma SomeWave(d: Definition, st: State) returns (ticks: seq<Tick>)
    requires Safe(Graph(d), st) && d.maxConcurrency >= 1
    requires Ready(Nodes(d), Graph(d), st.completed) != []
    ensures var ready := Ready(Nodes(d), Graph(d), st.completed);
            (forall id :: id in ready ==> id in Graph(d)) &&
            var w := Interleave(d, Launch(st, ready), ticks);
            && AllDone(w)
            && (Scan(Results(w, ready), None).AllRecorded? ==>
                  Safe(Graph(d), w.st) && Graph(d).Keys - w.st.completed < Graph(d).Keys - st.completed)
  {
    hide Safe, Grows, WaveSafe, Interleave, Scan, Graph, Nodes;
    var ready := Ready(Nodes(d), Graph(d), st.completed);
    ReadyMembers(Nodes(d), Graph(d), st.completed);
    hide Ready;
    ticks := WaveCanFinish(d, Launch(st, ready));
    OneWaveSafe(d, st, ticks);
    var w := Interleave(d, Launch(st, ready), ticks);
    if Scan(Results(w, ready), None).AllRecorded? {
      AllRecordedCompletes(d, w, ready);
      GrowsCompletes(st, w.st);
      assert ready[0] in Graph(d).Keys - st.completed && ready[0] !in Graph(d).Keys - w.st.completed;
    }
  }

  /** As many waves as there are steps left, each scheduled fairly for as long
      as a full wave could need. */
  ghost predicate FairRun(d: Definition, st: State, waves: seq<seq<Tick>>) {
    && |waves| >= |Graph(d).Keys - st.completed|
    && forall i :: 0 <= i < |waves| ==> Fair(d, waves[i], FullWork(d))
  }

  lemma FairWaveDone(d: Definition, st: State, ready: seq<Id>, ticks: seq<Tick>)
    requires d.maxConcurrency >= 1 && Fair(d, ticks, FullWork(d)) && forall id :: id in ready ==> id in Graph(d)
    ensures AllDone(Interleave(d, Launch(st, ready), ticks))
  {
    LaunchWork(d, st, ready);
    assert forall id :: id in Graph(d) ==> id in Elems(Nodes(d));
    hide Fair, Interleave, AllDone, Work, FullWork;
    FairWaveEnds(d, Launch(st, ready), ticks, Nodes(d), FullWork(d));
  }

  /** A fair wave ends, and if it neither pauses nor aborts it leaves fewer
      steps. */
  lemma FairWaveLeaves(d: Definition, st: State, ticks: seq<Tick>)
    requires Safe(Graph(d), st) && d.maxConcurrency >= 1 && Fair(d, ticks, FullWork(d))
    requires Ready(Nodes(d), Graph(d), st.completed) != []
    ensures var ready := Ready(Nodes(d), Graph(d), st.completed);
            (forall id :: id in ready ==> id in Graph(d)) &&
            var w := Interleave(d, Launch(st, ready), ticks);
            && AllDone(w)
            && (Scan(Results(w, ready), None).AllRecorded? ==>
                  Safe(Graph(d), w.st) && |Graph(d).Keys - w.st.completed| < |Graph(d).Keys - st.completed|)
  {
    hide Safe, Grows, WaveSafe, Interleave, Scan, Graph, Nodes, Fair, FullWork, AllDone;
    var ready := Ready(Nodes(d), Graph(d), st.completed);
    ReadyMembers(Nodes(d), Graph(d), st.completed);
    hide Ready;
    OneWaveSafe(d, st, ticks);
    FairWaveDone(d, st, ready, ticks);
    var w := Interleave(d, Launch(st, ready), ticks);
    if Scan(Results(w, ready), None).AllRecorded? {
      AllRecordedCompletes(d, w, ready);
      GrowsCompletes(st, w.st);
      assert ready[0] in ready;
      FewerLeft(Graph(d).Keys, st.completed, w.st.completed, ready[0]);
    }
  }

  /** Every fair schedule ends the run. */
  lemma {:induction false} FairRunEnds(d: Definition, st: State, waves: seq<seq<Tick>>)
    requires Safe(Graph(d), st) && d.maxConcurrency >= 1 && FairRun(d, st, waves)
    ensures !RunWaves(d, st, waves).OutOfSchedule?
    decreases |waves|
  {
    hide Safe, Interleave, Scan, Graph, Nodes, Ready, RunWaves, Fair, FullWork, FairRun, Results;
    var ready := Ready(Nodes(d), Graph(d), st.completed);
    if ready == [] {
      NothingToRun(d, st, waves);
    } else {
      SomeLeft(d, st);
      FairRunParts(d, st, waves);
      FairWaveLeaves(d, st, waves[0]);
      var w := Interleave(d, Launch(st, ready), waves[0]);
      RunsOn(d, st, waves, ready, w);
      if Scan(Results(w, ready), None).AllRecorded? {
        FairRunFurther(d, st, waves, w.st);
        FairRunEnds(d, w.st, waves[1..]);
      }
    }
  }

  lemma NothingToRun(d: Definition, st: State, waves: seq<seq<Tick>>)
    requires Ready(Nodes(d), Graph(d), st.completed) == []
    ensures RunWaves(d, st, waves) == Completed(st)
  {
  }

  lemma RunsOn(d: Definition, st: State, waves: seq<seq<Tick>>, ready: seq<Id>, w: Wave)
    requires ready == Ready(Nodes(d), Graph(d), st.completed) != [] && waves != []
    requires (forall id :: id in ready ==> id in Graph(d)) && w == Interleave(d, Launch(st, ready), waves[0])
    requires AllDone(w)
    ensures RunWaves(d, st, waves).OutOfSchedule? <==>
              Scan(Results(w, ready), None).AllRecorded? && RunWaves(d, w.st, waves[1..]).OutOfSchedule?
  {
    hide Interleave, Scan, Graph, Nodes, Ready;
  }

  lemma FairRunParts(d: Definition, st: State, waves: seq<seq<Tick>>)
    requires FairRun(d, st, waves) && |Graph(d).Keys - st.completed| > 0
    ensures waves != [] && Fair(d, waves[0], FullWork(d))
  {
    hide Fair, FullWork, Graph;
  }

  lemma FairRunFurther(d: Definition, st: State, waves: seq<seq<Tick>>, later: State)
    requires FairRun(d, st, waves) && waves != []
    requires |Graph(d).Keys - later.completed| < |Graph(d).Keys - st.completed|
    ensures FairRun(d, later, waves[1..])
  {
    hide Fair, FullWork, Graph;
  }

  lemma SomeLeft(d: Definition, st: State)
    requires Ready(Nodes(d), Graph(d), st.completed) != []
    ensures |Graph(d).Keys - st.completed| > 0
  {
    var ready := Ready(Nodes(d), Graph(d), st.completed);
    ReadyMembers(Nodes(d), Graph(d), st.completed);
    hide Ready, Graph, Nodes;
    assert ready[0] in ready;
    assert ready[0] in Graph(d).Keys - st.completed;
  }

  lemma FewerLeft(keys: set<Id>, before: set<Id>, after: set<Id>, x: Id)
    requires before <= after && x in keys && x !in before && x in after
    ensures |keys - after| < |keys - before|
  {
    SubsetSize(keys - after, keys - before - {x});
  }

  lemma GrowsCompletes(st: State, later: State)
    requires Grows(st, later)
    ensures st.completed <= later.completed
  {
  }

  lemma {:induction false} ScanSawAll(results: seq<TaskResult>, paused: Option<Request>)
    requires Scan(results, paused) == AllRecorded
    ensures paused.None? && forall i :: 0 <= i < |results| ==> results[i].Recorded?
  {
    if results != [] {
      assert forall i :: 1 <= i < |results| ==> results[i] == results[1..][i - 1];
      ScanSawAll(results[1..], if results[0].Suspended? then Some(results[0].request) else paused);
    }
  }

  lemma AllRecordedCompletes(d: Definition, w: Wave, ready: seq<Id>)
    requires WaveSafe(Graph(d), w) && AllDone(w) && forall id :: id in ready ==> id in w.tasks
    requires Scan(Results(w, ready), None) == AllRecorded
    ensures Safe(Graph(d), w.st) && forall id :: id in ready ==> id in w.st.completed
  {
    hide Safe, Scan;
    ScanSawAll(Results(w, ready), None);
    forall i | 0 <= i < |ready| ensures ready[i] in w.st.completed {
      assert Results(w, ready)[i].Recorded?;
      assert TaskSafe(Graph(d), w.st, ready[i], w.tasks[ready[i]]);
    }
  }
}
