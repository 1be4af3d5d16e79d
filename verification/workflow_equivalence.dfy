/** Determinism of the engine: when steps read only what their ancestors
    wrote, every schedule writes the same records and outputs. */
module WorkflowEquivalence {
  import opened Digraph
  import opened Wrappers
  import opened WorkflowGraphs
  import opened WorkflowModel
  import opened WorkflowWaves
  import opened WorkflowRuns

  /** The record is what the step comes to on these outputs, at any time. */
  ghost predicate RecordFaithful(d: Definition, o: Outputs, approvals: seq<Request>, r: StepExecution) {
    r.stepId in Graph(d) && forall now :: Judge(StepOf(d, r.stepId), o, approvals, now) == Commits(r)
  }

  ghost predicate Faithful(d: Definition, st: State) {
    && Safe(Graph(d), st)
    && forall i :: 0 <= i < |st.records| ==> RecordFaithful(d, st.outputs, st.approvals, st.records[i])
  }

  /** What is left of the step's attempts is what its verdict still depends on. */
  ghost predicate TaskFaithful(step: Step, o: Outputs, approvals: seq<Request>, t: Task) {
    var verdict := Judge(step, o, approvals, 0);
    match t
    case Waiting => true
    case Attempting(k) => k <= Retries(step) && verdict == JudgeFrom(step, o, approvals, 0, k)
    case Awaiting(k, r) =>
      && k <= Retries(step) && verdict == JudgeFrom(step, o, approvals, 0, k)
      && SameAttempt(r, RunAttempt(step, o, approvals, k, 0, ""))
    case Done(Recorded(_)) => true
    case Done(Suspended(_)) => verdict == Pauses
    case Done(Raised(_)) => verdict.Aborts?
  }

  ghost predicate WaveFaithful(d: Definition, w: Wave) {
    && WaveSafe(Graph(d), w)
    && Faithful(d, w.st)
    && forall id :: id in w.tasks ==> TaskFaithful(StepOf(d, id), w.st.outputs, w.st.approvals, w.tasks[id])
  }

  lemma SameJudge(step: Step, o: Outputs, p: Outputs, approvals: seq<Request>)
    requires SameBehaviour(step, o, p)
    ensures forall now :: Judge(step, o, approvals, now) == Judge(step, p, approvals, now)
    ensures forall now, k: nat :: k <= Retries(step) ==>
              JudgeFrom(step, o, approvals, now, k) == JudgeFrom(step, p, approvals, now, k)
    ensures forall k, now, uuid :: RunAttempt(step, o, approvals, k, now, uuid) ==
              RunAttempt(step, p, approvals, k, now, uuid)
  {
    forall now, k: nat | k <= Retries(step)
      ensures JudgeFrom(step, o, approvals, now, k) == JudgeFrom(step, p, approvals, now, k)
    {
      SameJudgeFrom(step, o, p, approvals, now, k);
    }
  }

  lemma CompletedIsDownClosed(g: Deps, st: State)
    requires Safe(g, st)
    ensures DownClosed(g, st.completed)
    ensures forall i :: 0 <= i < |st.records| ==>
              st.records[i].stepId in g && DepsWithin(g, st.records[i].stepId, st.completed)
  {
    var ids := RecordIds(st.records);
    forall i | 0 <= i < |st.records|
      ensures st.records[i].stepId in g && DepsWithin(g, st.records[i].stepId, st.completed) {
      assert ids[i] in Elems(ids);
    }
  }

  /** Outputs written by others never change what a completed or ready step sees. */
  lemma Unchanged(d: Definition, st: State, later: State, n: Id)
    requires ReadsAncestorsOnly(d) && Safe(Graph(d), st) && Grows(st, later)
    requires n in Graph(d) && DepsWithin(Graph(d), n, st.completed)
    ensures SameBehaviour(StepOf(d, n), st.outputs, later.outputs)
  {
    CompletedIsDownClosed(Graph(d), st);
    hide Safe;
    SameWithin(d, n, st.completed, st.outputs, later.outputs);
  }

  lemma TaskStaysFaithful(step: Step, o: Outputs, p: Outputs, approvals: seq<Request>, t: Task)
    requires SameBehaviour(step, o, p) && TaskFaithful(step, o, approvals, t)
    ensures TaskFaithful(step, p, approvals, t)
  {
    SameJudge(step, o, p, approvals);
    hide JudgeFrom, RunAttempt, SameBehaviour, Judge;
  }

  lemma RecordsStayFaithful(d: Definition, st: State, later: State)
    requires ReadsAncestorsOnly(d) && Faithful(d, st) && Grows(st, later)
    ensures forall i :: 0 <= i < |st.records| ==> RecordFaithful(d, later.outputs, st.approvals, st.records[i])
  {
    CompletedIsDownClosed(Graph(d), st);
    forall i | 0 <= i < |st.records| ensures RecordFaithful(d, later.outputs, st.approvals, st.records[i]) {
      var n := st.records[i].stepId;
      Unchanged(d, st, later, n);
      SameJudge(StepOf(d, n), st.outputs, later.outputs, st.approvals);
      assert RecordFaithful(d, st.outputs, st.approvals, st.records[i]);
    }
  }

  lemma FailFaithful(step: Step, st: State, k: nat, m: string, verdict: Verdict)
    requires k <= Retries(step) && step.id !in st.outputs
    requires verdict == if k < Retries(step) then JudgeFrom(step, st.outputs, st.approvals, 0, k + 1)
              else Exhausted(step, m)
    requires verdict == Judge(step, st.outputs, st.approvals, 0)
    ensures var (next, t) := Fail(step, st, k, m);
            && (t.Done? && t.outcome.Recorded? ==>
                verdict == Commits(t.outcome.record) && next.records == st.records + [t.outcome.record])
            && (!(t.Done? && t.outcome.Recorded?) ==> next == st && TaskFaithful(step, st.outputs, st.approvals, t))
  {
  }

  /** A section either commits the record its verdict names, or leaves the
      state alone and stays true to its verdict. */
  lemma AdvanceFaithful(step: Step, st: State, t: Task, tick: Tick)
    requires AllDecided(st.approvals) && TaskFaithful(step, st.outputs, st.approvals, t)
    requires !t.Done? && step.id !in st.completed && step.id !in st.outputs
    ensures var (next, u) := Advance(step, st, t, tick); var verdict := Judge(step, st.outputs, st.approvals, 0);
            && (u.Done? && u.outcome.Recorded? ==>
                verdict == Commits(u.outcome.record) && next.records == st.records + [u.outcome.record])
            && (!(u.Done? && u.outcome.Recorded?) ==> next == st && TaskFaithful(step, st.outputs, st.approvals, u))
  {
    match t
    case Attempting(k) => DecidedIsTimeless(step, st.outputs, st.approvals, k, tick.now, 0, tick.uuid, "");
    case Awaiting(k, Failed(m)) => FailFaithful(step, st, k, m, Judge(step, st.outputs, st.approvals, 0));
    case _ =>
  }

  lemma JudgeIsTimeless(step: Step, o: Outputs, approvals: seq<Request>)
    requires AllDecided(approvals)
    ensures forall now :: Judge(step, o, approvals, now) == Judge(step, o, approvals, 0)
  {
    forall now ensures Judge(step, o, approvals, now) == Judge(step, o, approvals, 0) {
      JudgeFromIsTimeless(step, o, approvals, now, 0, 0);
    }
  }

  /** Appending the record a ready step comes to keeps every record faithful. */
  lemma AppendFaithful(d: Definition, st: State, later: State, r: StepExecution)
    requires ReadsAncestorsOnly(d) && Faithful(d, st) && AllDecided(st.approvals)
    requires Safe(Graph(d), later) && Grows(st, later) && later.records == st.records + [r]
    requires ReadyToRun(Graph(d), st, r.stepId) && Judge(StepOf(d, r.stepId), st.outputs, st.approvals, 0) == Commits(r)
    ensures Faithful(d, later)
  {
    RecordsStayFaithful(d, st, later);
    Unchanged(d, st, later, r.stepId);
    SameJudge(StepOf(d, r.stepId), st.outputs, later.outputs, st.approvals);
    JudgeIsTimeless(StepOf(d, r.stepId), later.outputs, later.approvals);
    assert RecordFaithful(d, later.outputs, later.approvals, r);
    hide Safe, RecordFaithful, Judge;
  }

  lemma OthersStayFaithful(d: Definition, w: Wave, later: State, mover: Id)
    requires ReadsAncestorsOnly(d) && WaveFaithful(d, w) && Grows(w.st, later)
    ensures forall id :: id in w.tasks && id != mover && !(w.tasks[id].Done? && w.tasks[id].outcome.Recorded?) ==>
              TaskFaithful(StepOf(d, id), later.outputs, later.approvals, w.tasks[id])
  {
    hide TaskFaithful, Safe;
    forall id | id in w.tasks && id != mover && !(w.tasks[id].Done? && w.tasks[id].outcome.Recorded?)
      ensures TaskFaithful(StepOf(d, id), later.outputs, later.approvals, w.tasks[id])
    {
      assert TaskSafe(Graph(d), w.st, id, w.tasks[id]);
      Unchanged(d, w.st, later, id);
      TaskStaysFaithful(StepOf(d, id), w.st.outputs, later.outputs, w.st.approvals, w.tasks[id]);
    }
  }

  lemma MovedFaithful(d: Definition, w: Wave, tick: Tick)
    requires ReadsAncestorsOnly(d) && WaveFaithful(d, w) && AllDecided(w.st.approvals) && Enabled(d, w, tick.id)
    ensures var (next, u) := Advance(StepOf(d, tick.id), w.st, w.tasks[tick.id], tick);
            Faithful(d, next) && TaskFaithful(StepOf(d, tick.id), next.outputs, next.approvals, u)
  {
    var step := StepOf(d, tick.id);
    assert TaskSafe(Graph(d), w.st, tick.id, w.tasks[tick.id]);
    assert tick.id !in w.st.outputs && ReadyToRun(Graph(d), w.st, tick.id);
    AdvanceFaithful(step, w.st, w.tasks[tick.id], tick);
    AdvanceSafe(Graph(d), step, w.st, w.tasks[tick.id], tick);
    var (next, u) := Advance(step, w.st, w.tasks[tick.id], tick);
    hide Advance, Safe, Judge, RecordFaithful;
    if u.Done? && u.outcome.Recorded? {
      assert u.outcome.record.stepId == tick.id;
      AppendFaithful(d, w.st, next, u.outcome.record);
    }
  }

  lemma TurnFaithful(d: Definition, w: Wave, tick: Tick)
    requires ReadsAncestorsOnly(d) && WaveFaithful(d, w) && AllDecided(w.st.approvals)
    ensures WaveFaithful(d, Turn(d, w, tick))
  {
    TurnSafe(d, w, tick);
    if Enabled(d, w, tick.id) {
      MovedFaithful(d, w, tick);
      var next := Turn(d, w, tick);
      OthersStayFaithful(d, w, next.st, tick.id);
      hide Advance, Faithful, WaveSafe, Enabled;
      forall id | id in next.tasks
        ensures TaskFaithful(StepOf(d, id), next.st.outputs, next.st.approvals, next.tasks[id])
      {
        assert id != tick.id ==> next.tasks[id] == w.tasks[id];
      }
    }
  }

  lemma {:induction false} InterleaveFaithful(d: Definition, w: Wave, ticks: seq<Tick>)
    requires ReadsAncestorsOnly(d) && WaveFaithful(d, w) && AllDecided(w.st.approvals)
    ensures WaveFaithful(d, Interleave(d, w, ticks))
    decreases |ticks|
  {
    assert WaveSafe(Graph(d), w) && w.tasks.Keys <= Graph(d).Keys;
    if ticks != [] {
      TurnSafe(d, w, ticks[0]);
      TurnFaithful(d, w, ticks[0]);
      hide WaveFaithful, Turn, Safe;
      InterleaveFaithful(d, Turn(d, w, ticks[0]), ticks[1..]);
    }
  }

  lemma LaunchFaithful(d: Definition, st: State)
    requires Faithful(d, st)
    ensures WaveFaithful(d, Launch(st, Ready(Nodes(d), Graph(d), st.completed)))
  {
    LaunchSafe(d, st);
    hide Safe, RecordFaithful, Judge;
  }

  /** Everything that can run has run, and came to what its verdict says. */
  ghost predicate Solution(d: Definition, sol: State) {
    Faithful(d, sol) && Saturated(Graph(d), sol.completed)
  }

  ghost predicate SameRecords(a: seq<StepExecution>, b: seq<StepExecution>) {
    forall r :: r in a <==> r in b
  }

  lemma WithinSaturated(g: Deps, st: State, s: set<Id>)
    requires Safe(g, st) && Saturated(g, s)
    ensures st.completed <= s
  {
    var ids := RecordIds(st.records);
    for k := 0 to |ids|
      invariant forall i :: 0 <= i < k ==> ids[i] in s
    {
      assert DepsWithin(g, ids[k], s);
    }
  }

  lemma RecordOf(g: Deps, st: State, id: Id) returns (r: StepExecution)
    requires Safe(g, st) && id in st.completed
    ensures r in st.records && r.stepId == id && RecordStored(st.outputs, r)
  {
    var ids := RecordIds(st.records);
    assert id in Elems(ids);
    var i :| 0 <= i < |ids| && ids[i] == id;
    r := st.records[i];
  }

  /** Up to any point of its record list, a faithful state agrees with a
      solution for the same decisions. */
  lemma {:induction false} PrefixAgrees(d: Definition, st: State, sol: State, k: nat)
    requires ReadsAncestorsOnly(d) && Faithful(d, st) && Solution(d, sol) && st.approvals == sol.approvals
    requires k <= |st.records|
    ensures forall i :: 0 <= i < k ==> st.records[i] in sol.records
    ensures AgreeOn(st.outputs, sol.outputs, Elems(RecordIds(st.records)[..k]))
  {
    hide Faithful, Solution, ReadsAncestorsOnly;
    if k > 0 {
      PrefixAgrees(d, st, sol, k - 1);
      NextAgrees(d, st, sol, k - 1);
      var ids := RecordIds(st.records);
      assert Elems(ids[..k]) == Elems(ids[..k - 1]) + {ids[k - 1]};
    }
  }

  lemma NextAgrees(d: Definition, st: State, sol: State, k: nat)
    requires ReadsAncestorsOnly(d) && Faithful(d, st) && Solution(d, sol) && st.approvals == sol.approvals
    requires k < |st.records| && AgreeOn(st.outputs, sol.outputs, Elems(RecordIds(st.records)[..k]))
    ensures st.records[k] in sol.records
    ensures Get(st.outputs, st.records[k].stepId) == Get(sol.outputs, st.records[k].stepId)
  {
    var g, ids, mine := Graph(d), RecordIds(st.records), st.records[k];
    WithinSaturated(g, st, sol.completed);
    PrefixDependencyFirst(g, ids, k);
    ListedNext(g, ids, k);
    assert ids[k] in Elems(ids);
    var theirs := RecordOf(g, sol, ids[k]);
    assert RecordStored(st.outputs, mine);
    SameWithin(d, ids[k], Elems(ids[..k]), st.outputs, sol.outputs);
    SameJudge(StepOf(d, ids[k]), st.outputs, sol.outputs, st.approvals);
    FaithfulRecord(d, st, mine);
    FaithfulRecord(d, sol, theirs);
  }

  lemma FaithfulRecord(d: Definition, st: State, r: StepExecution)
    requires Faithful(d, st) && r in st.records
    ensures r.stepId in Graph(d) && Judge(StepOf(d, r.stepId), st.outputs, st.approvals, 0) == Commits(r)
  {
    var i :| 0 <= i < |st.records| && st.records[i] == r;
    assert RecordFaithful(d, st.outputs, st.approvals, st.records[i]);
  }

  /** A step that is ready in any faithful state comes to what the solution
      recorded for it; in particular it neither pauses nor aborts. */
  lemma ReadyCommits(d: Definition, st: State, sol: State, id: Id)
    requires ReadsAncestorsOnly(d) && Faithful(d, st) && Solution(d, sol) && st.approvals == sol.approvals
    requires ReadyToRun(Graph(d), st, id)
    ensures Judge(StepOf(d, id), st.outputs, st.approvals, 0).Commits?
    ensures Judge(StepOf(d, id), st.outputs, st.approvals, 0).record in sol.records
  {
    var g := Graph(d);
    WithinSaturated(g, st, sol.completed);
    assert DepsWithin(g, id, sol.completed);
    assert RecordIds(st.records)[..|st.records|] == RecordIds(st.records);
    PrefixAgrees(d, st, sol, |st.records|);
    CompletedIsDownClosed(g, st);
    var theirs := RecordOf(g, sol, id);
    SameWithin(d, id, st.completed, st.outputs, sol.outputs);
    SameJudge(StepOf(d, id), st.outputs, sol.outputs, st.approvals);
    FaithfulRecord(d, sol, theirs);
  }

  /** Two solutions for the same decisions have the same completed steps, the
      same records and the same view of outputs. */
  lemma SolutionsCoincide(d: Definition, a: State, b: State)
    requires ReadsAncestorsOnly(d) && Solution(d, a) && Solution(d, b) && a.approvals == b.approvals
    ensures a.completed == b.completed && SameRecords(a.records, b.records)
    ensures forall id :: Get(a.outputs, id) == Get(b.outputs, id)
  {
    assert RecordIds(a.records)[..|a.records|] == RecordIds(a.records);
    assert RecordIds(b.records)[..|b.records|] == RecordIds(b.records);
    PrefixAgrees(d, a, b, |a.records|);
    PrefixAgrees(d, b, a, |b.records|);
    WithinSaturated(Graph(d), a, b.completed);
    WithinSaturated(Graph(d), b, a.completed);
    hide RecordFaithful, DependencyFirst, Saturated;
  }

  lemma {:induction false} ScanAllRecorded(results: seq<TaskResult>)
    requires forall i :: 0 <= i < |results| ==> results[i].Recorded?
    ensures Scan(results, None) == AllRecorded
  {
    if results != [] {
      ScanAllRecorded(results[1..]);
    }
  }

  /** Where a solution exists, no task pauses or aborts. */
  lemma DoneIsRecorded(d: Definition, w: Wave, id: Id, sol: State)
    requires ReadsAncestorsOnly(d) && WaveFaithful(d, w) && id in w.tasks && w.tasks[id].Done?
    requires Solution(d, sol) && w.st.approvals == sol.approvals
    ensures w.tasks[id].outcome.Recorded?
  {
    assert TaskSafe(Graph(d), w.st, id, w.tasks[id]) &&
        TaskFaithful(StepOf(d, id), w.st.outputs, w.st.approvals, w.tasks[id]);
    hide Safe, RecordFaithful, Judge, Solution, ReadsAncestorsOnly, DepsWithin;
    if !w.tasks[id].outcome.Recorded? {
      ReadyCommits(d, w.st, sol, id);
    }
  }

  lemma WaveAllRecorded(d: Definition, w: Wave, ready: seq<Id>, sol: State)
    requires ReadsAncestorsOnly(d) && WaveFaithful(d, w) && AllDone(w)
    requires Solution(d, sol) && w.st.approvals == sol.approvals
    requires forall id :: id in ready ==> id in w.tasks
    ensures Scan(Results(w, ready), None) == AllRecorded
  {
    hide ReadsAncestorsOnly, WaveFaithful, Solution, Scan;
    var results := Results(w, ready);
    forall i | 0 <= i < |results| ensures results[i].Recorded? {
      DoneIsRecorded(d, w, ready[i], sol);
    }
    ScanAllRecorded(results);
  }

  lemma OneWaveFaithful(d: Definition, st: State, ticks: seq<Tick>)
    requires ReadsAncestorsOnly(d) && Faithful(d, st) && AllDecided(st.approvals)
    ensures var ready := Ready(Nodes(d), Graph(d), st.completed);
            (forall id :: id in ready ==> id in Graph(d)) &&
            var w := Interleave(d, Launch(st, ready), ticks);
            WaveFaithful(d, w) && Grows(st, w.st)
  {
    var ready := Ready(Nodes(d), Graph(d), st.completed);
    ReadyMembers(Nodes(d), Graph(d), st.completed);
    LaunchFaithful(d, st);
    LaunchSafe(d, st);
    hide WaveFaithful, WaveSafe, Faithful;
    InterleaveFaithful(d, Launch(st, ready), ticks);
    InterleaveSafe(d, Launch(st, ready), ticks);
  }

  /** Every end of a run is faithful; a completed run is a solution; and where
      a solution exists, every run that ends at all completes. */
  lemma {:induction false} RunWavesFaithful(d: Definition, st: State, waves: seq<seq<Tick>>)
    requires ReadsAncestorsOnly(d) && Faithful(d, st) && AllDecided(st.approvals)
    ensures var end := RunWaves(d, st, waves);
            && (end.Completed? ==> Solution(d, end.st) && end.st.approvals == st.approvals && Grows(st, end.st))
            && (end.Aborted? ==> Faithful(d, end.st) && end.st.approvals == st.approvals)
    ensures (exists sol :: Solution(d, sol) && sol.approvals == st.approvals) ==>
              RunWaves(d, st, waves).Completed? || RunWaves(d, st, waves).OutOfSchedule?
    decreases |waves|
  {
    hide Faithful, Grows, Ready, Scan, AllDone, Interleave, WaveSafe, Saturated, LeastSaturated;
    var ready := Ready(Nodes(d), Graph(d), st.completed);
    if ready == [] {
      CompletedIsSolution(d, st);
      GrowsReflexive(st);
    } else if waves != [] {
      OneWaveFaithful(d, st, waves[0]);
      var w := Interleave(d, Launch(st, ready), waves[0]);
      GrowsKeepsRecords(st, w.st);
      if AllDone(w) {
        if sol :| Solution(d, sol) && sol.approvals == st.approvals {
          LaunchedTasks(d, st, waves[0]);
          WaveAllRecorded(d, w, ready, sol);
        }
        if Scan(Results(w, ready), None).AllRecorded? {
          RunWavesFaithful(d, w.st, waves[1..]);
          var end := RunWaves(d, w.st, waves[1..]);
          if end.Completed? {
            GrowsTransitive(st, w.st, end.st);
          }
        }
      }
    }
  }

  lemma LaunchedTasks(d: Definition, st: State, ticks: seq<Tick>)
    ensures var ready := Ready(Nodes(d), Graph(d), st.completed);
            (forall id :: id in ready ==> id in Graph(d)) &&
            forall id :: id in ready ==> id in Interleave(d, Launch(st, ready), ticks).tasks
  {
    ReadyMembers(Nodes(d), Graph(d), st.completed);
  }

  lemma CompletedIsSolution(d: Definition, st: State)
    requires Faithful(d, st) && Ready(Nodes(d), Graph(d), st.completed) == []
    ensures Solution(d, st)
  {
    NothingReadyIsLeast(d, st);
  }

  ghost function Start(approvals: seq<Request>): State {
    State(map[], {}, [], approvals)
  }

  lemma StartFaithful(d: Definition, approvals: seq<Request>)
    ensures Faithful(d, Start(approvals))
  {
    EmptyIsSafe(Graph(d), approvals);
  }
}
