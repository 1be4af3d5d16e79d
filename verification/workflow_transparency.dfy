/** Pausing for approvals and resuming is invisible in the result: a chain of
    run, pause, decide and resume ends like one run that knew the decisions. */
module WorkflowTransparency {
  import opened Digraph
  import opened Wrappers
  import opened WorkflowGraphs
  import opened WorkflowModel
  import opened WorkflowWaves
  import opened WorkflowRuns
  import opened WorkflowServices
  import opened WorkflowEquivalence
  import opened WorkflowResume

  /** Pause and resume are transparent. Take any sequence of hand-outs, ends
      and losses of executor calls, decisions and cancellations, in which every
      recorded request is decided whenever the run is handed out. If it leaves
      the run succeeded, then every single uninterrupted run that holds the
      same decisions from the start, under any schedule that ends it, succeeds
      with the same declared outputs and the same step records; and some
      schedule does end it. */
  lemma PauseResumeTransparent(d: Definition, ops: seq<Op>, waves: seq<seq<Tick>>)
    requires ReadsAncestorsOnly(d) && SourcesReadThroughGet(d) && DecidesBeforeResume(d, NEW_RUN, ops)
    requires ApplyOps(d, NEW_RUN, ops).run.status == RunSucceeded
    ensures var chained := ApplyOps(d, NEW_RUN, ops).run;
            var whole := RunFrom(d, FRESH_RUN.(approvals := chained.approvals), waves);
            whole.Some? ==>
              && whole.value.status == RunSucceeded
              && whole.value.outputs == chained.outputs
              && SameRecords(whole.value.stepExecutions, chained.stepExecutions)
    ensures d.maxConcurrency >= 1 ==>
              exists w :: RunFrom(d, FRESH_RUN.(approvals := ApplyOps(d, NEW_RUN, ops).run.approvals), w).Some?
  {
    var chained := ApplyOps(d, NEW_RUN, ops).run;
    FreshRunFaithful(d, []);
    assert FRESH_RUN.(approvals := []) == FRESH_RUN;
    OpsFaithful(d, NEW_RUN, ops);
    assert RunFaithful(d, chained);
    SucceededIsSolution(d, chained);
    hide RunFaithful, RunFrom, ApplyOps;
    OneWholeRun(d, chained.approvals, waves, Restore(chained.stepExecutions, chained.approvals).value);
    if d.maxConcurrency >= 1 {
      var w := WholeRunEnds(d, chained.approvals);
    }
  }

  lemma SucceededIsSolution(d: Definition, run: WorkflowRun)
    requires RunFaithful(d, run) && run.status == RunSucceeded
    ensures var sol := Restore(run.stepExecutions, run.approvals).value;
            && Solution(d, sol) && sol.approvals == run.approvals && sol.records == run.stepExecutions
            && run.outputs == DeclaredOutputs(d.outputs, sol.outputs) && AllDecided(run.approvals)
  {
    RestoreSafe(Graph(d), run.stepExecutions, run.approvals);
  }

  lemma WholeRunEnds(d: Definition, approvals: seq<Request>) returns (waves: seq<seq<Tick>>)
    requires d.maxConcurrency >= 1
    ensures RunFrom(d, FRESH_RUN.(approvals := approvals), waves).Some?
  {
    EmptyIsSafe(Graph(d), approvals);
    waves := RunCanEnd(d, Start(approvals));
  }

  lemma OneWholeRun(d: Definition, approvals: seq<Request>, waves: seq<seq<Tick>>, sol: State)
    requires ReadsAncestorsOnly(d) && SourcesReadThroughGet(d) && AllDecided(approvals)
    requires Solution(d, sol) && sol.approvals == approvals
    ensures var whole := RunFrom(d, FRESH_RUN.(approvals := approvals), waves);
            whole.Some? ==>
              && whole.value.status == RunSucceeded
              && whole.value.outputs == DeclaredOutputs(d.outputs, sol.outputs)
              && SameRecords(whole.value.stepExecutions, sol.records)
  {
    StartFaithful(d, approvals);
    hide Faithful, Grows, RunWaves, Saturated;
    RunWavesFaithful(d, Start(approvals), waves);
    var end := RunWaves(d, Start(approvals), waves);
    if end.Completed? {
      SolutionsCoincide(d, end.st, sol);
      SameViewSameOutputs(d.outputs, end.st.outputs, sol.outputs);
    }
  }
}
