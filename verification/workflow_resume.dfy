/** Runs that pause for approvals and resume: what is persisted stays faithful
    to the decisions taken. */
module WorkflowResume {
  import opened Digraph
  import opened Wrappers
  import opened WorkflowGraphs
  import opened WorkflowModel
  import opened WorkflowWaves
  import opened WorkflowRuns
  import opened WorkflowServices
  import opened WorkflowEquivalence

  ghost predicate DistinctRequests(approvals: seq<Request>) {
    forall i, j :: 0 <= i < j < |approvals| ==> approvals[i].requestId != approvals[j].requestId
  }

  /** A step sees the same decision, or does not look. */
  ghost predicate SameDecision(step: Step, a: seq<Request>, b: seq<Request>) {
    step.executor.Leaf? || FindApproval(a, step.id) == FindApproval(b, step.id)
  }

  lemma {:induction false} SameDecisionSameJudge(step: Step, o: Outputs, a: seq<Request>, b: seq<Request>, now: int,
                                                 k: nat)
    requires SameDecision(step, a, b) && k <= Retries(step)
    ensures JudgeFrom(step, o, a, now, k) == JudgeFrom(step, o, b, now, k)
    decreases Retries(step) - k
  {
    if k < Retries(step) {
      SameDecisionSameJudge(step, o, a, b, now, k + 1);
    }
  }

  lemma RecordSurvives(d: Definition, o: Outputs, a: seq<Request>, b: seq<Request>, r: StepExecution)
    requires RecordFaithful(d, o, a, r)
    requires ShouldRun(StepOf(d, r.stepId), o) ==> SameDecision(StepOf(d, r.stepId), a, b)
    ensures RecordFaithful(d, o, b, r)
  {
    var step := StepOf(d, r.stepId);
    forall now ensures Judge(step, o, b, now) == Commits(r) {
      assert Judge(step, o, a, now) == Commits(r);
      if ShouldRun(step, o) {
        SameDecisionSameJudge(step, o, a, b, now, 0);
      }
    }
  }

  /** A new request for a step that has not completed leaves the completed
      ones' decisions alone. */
  lemma RequestKeepsFaithful(d: Definition, st: State, q: Request)
    requires Faithful(d, st) && q.stepId !in st.completed
    ensures Faithful(d, st.(approvals := AddRequest(st.approvals, q)))
  {
    var later := st.(approvals := AddRequest(st.approvals, q));
    CompletedIsDownClosed(Graph(d), st);
    ApprovalsDoNotMatter(Graph(d), st);
    forall i | 0 <= i < |st.records| ensures RecordFaithful(d, st.outputs, later.approvals, st.records[i]) {
      assert RecordIds(st.records)[i] in Elems(RecordIds(st.records));
      RecordSurvives(d, st.outputs, st.approvals, later.approvals, st.records[i]);
    }
  }

  /** An approval step that has completed at all times has a decision. */
  lemma CompletedIsDecided(step: Step, o: Outputs, approvals: seq<Request>, r: StepExecution)
    requires forall now :: Judge(step, o, approvals, now) == Commits(r)
    requires step.executor.Approval? && ShouldRun(step, o)
    ensures FindApproval(approvals, step.id).Some? && FindApproval(approvals, step.id).value.status != Pending
  {
    var found := FindApproval(approvals, step.id);
    var now := if found.Some? && found.value.expiresAt.Some? then found.value.expiresAt.value - 1 else 0;
    assert Judge(step, o, approvals, now) == Commits(r);
  }

  lemma {:induction false} FindAfterDecide(approvals: seq<Request>, j: nat, decided: Request, id: Id)
    requires j < |approvals| && DistinctRequests(approvals)
    requires decided.stepId == approvals[j].stepId && decided.createdAt == approvals[j].createdAt
    ensures FindApproval(approvals[j := decided], id) ==
              if FindApproval(approvals, id) == Some(approvals[j]) then Some(decided) else FindApproval(approvals, id)
  {
    var last := |approvals| - 1;
    if j < last {
      FindAfterDecide(approvals[..last], j, decided, id);
      assert approvals[j := decided][..last] == approvals[..last][j := decided];
    } else {
      assert approvals[j := decided][..last] == approvals[..last];
    }
  }

  /** A decision changes one pending request and nothing else. */
  lemma DecideChangesOne(approvals: seq<Request>, requestId: string, approve: bool, who: string, note: string)
    requires DistinctRequests(approvals)
    ensures var after := DecideRequest(approvals, requestId, approve, who, note);
            DistinctRequests(after) &&
            forall id :: FindApproval(approvals, id).Some? && FindApproval(approvals, id).value.status != Pending ==>
              FindApproval(after, id) == FindApproval(approvals, id)
  {
    var found := FindRequest(approvals, requestId);
    if found.Some? && found.value.status == Pending {
      var j := FindsFirst(approvals, requestId);
      var decided := found.value.(status := if approve then Approved else Rejected, decidedBy := who, note := note);
      assert DecideRequest(approvals, requestId, approve, who, note) == approvals[j := decided];
      forall id ensures FindApproval(approvals[j := decided], id) ==
          if FindApproval(approvals, id) == Some(approvals[j]) then Some(decided) else FindApproval(approvals, id)
      {
        FindAfterDecide(approvals, j, decided, id);
      }
    }
  }

  /** The decision reaches its step: once the request that the step selects is
      decided, every attempt of the step at any time returns that decision. */
  lemma DecisionArrives(step: Step, o: Outputs, approvals: seq<Request>, q: Request, approve: bool, who: string,
                        note: string, k: nat, now: int, uuid: string)
    requires DistinctRequests(approvals) && step.executor.Approval?
    requires FindApproval(approvals, step.id) == Some(q) && q.status == Pending
    ensures var after := DecideRequest(approvals, q.requestId, approve, who, note);
            && RunAttempt(step, o, after, k, now, uuid) == Returned(Decision(approve, who, note))
            && OthersKept(approvals, after, q.requestId)
  {
    DecideStores(approvals, q.requestId, approve, who, note);
    var j :| 0 <= j < |approvals| && approvals[j] == q;
    FirstOfId(approvals, q.requestId, j);
    var after := DecideRequest(approvals, q.requestId, approve, who, note);
    var decided := FindRequest(after, q.requestId).value;
    var i := FindsFirst(after, q.requestId);
    assert after == approvals[j := decided];
    FindAfterDecide(approvals, j, decided, step.id);
  }

  /** What a section of the service makes of the decision. */
  lemma DecideReachesStep(d: Definition, s: Service, step: Step, o: Outputs, q: Request, approve: bool, who: string,
                          note: string, k: nat, now: int, uuid: string)
    requires DistinctRequests(s.run.approvals) && step.executor.Approval?
    requires FindApproval(s.run.approvals, step.id) == Some(q) && q.status == Pending
    ensures var t := ApplyOp(d, s, Decide(q.requestId, approve, who, note));
            && RunAttempt(step, o, t.run.approvals, k, now, uuid) == Returned(Decision(approve, who, note))
            && OthersKept(s.run.approvals, t.run.approvals, q.requestId)
            && t == Service(s.run.(approvals := t.run.approvals), s.inFlight)
  {
    DecisionArrives(step, o, s.run.approvals, q, approve, who, note, k, now, uuid);
    hide DecideRequest, OthersKept, RunAttempt;
  }

  lemma DecideKeepsFaithful(d: Definition, st: State, requestId: string, approve: bool, who: string, note: string)
    requires Faithful(d, st) && DistinctRequests(st.approvals)
    ensures Faithful(d, st.(approvals := DecideRequest(st.approvals, requestId, approve, who, note)))
  {
    var after := DecideRequest(st.approvals, requestId, approve, who, note);
    DecideChangesOne(st.approvals, requestId, approve, who, note);
    ApprovalsDoNotMatter(Graph(d), st);
    hide DecideRequest, Safe;
    forall i | 0 <= i < |st.records| ensures RecordFaithful(d, st.outputs, after, st.records[i]) {
      var r := st.records[i];
      assert RecordFaithful(d, st.outputs, st.approvals, r);
      var step := StepOf(d, r.stepId);
      if step.executor.Approval? && ShouldRun(step, st.outputs) {
        CompletedIsDecided(step, st.outputs, st.approvals, r);
      }
      RecordSurvives(d, st.outputs, st.approvals, after, r);
    }
  }

  lemma AddedIsDistinct(approvals: seq<Request>, q: Request)
    requires DistinctRequests(approvals)
    ensures DistinctRequests(AddRequest(approvals, q))
  {
  }

  lemma {:induction false} ParkedFaithful(d: Definition, st: State, waves: seq<seq<Tick>>)
    requires ReadsAncestorsOnly(d) && Faithful(d, st) && AllDecided(st.approvals) && DistinctRequests(st.approvals)
    requires RunWaves(d, st, waves).Parked?
    ensures Faithful(d, RunWaves(d, st, waves).st) && DistinctRequests(RunWaves(d, st, waves).st.approvals)
    decreases |waves|
  {
    hide Faithful, Grows, Ready, AllDone, Interleave, WaveSafe, Scan, AllDecided, DistinctRequests, ReadsAncestorsOnly;
    OneWaveFaithful(d, st, waves[0]);
    LaunchedTasks(d, st, waves[0]);
    var ready := Ready(Nodes(d), Graph(d), st.completed);
    var w := Interleave(d, Launch(st, ready), waves[0]);
    GrowsKeepsRecords(st, w.st);
    match Scan(Results(w, ready), None)
    case PauseOn(q) =>
      ParkedRequest(d, w, ready);
      RequestKeepsFaithful(d, w.st, q);
      AddedIsDistinct(w.st.approvals, q);
    case AllRecorded => ParkedFaithful(d, w.st, waves[1..]);
  }

  /** Restored state and final state show the same outputs to every reader. */
  lemma RestoredIsFaithful(d: Definition, st: State)
    requires ReadsAncestorsOnly(d) && Faithful(d, st)
    ensures RecordsSafe(Graph(d), st.records) && Restore(st.records, st.approvals).Ok?
    ensures var back := Restore(st.records, st.approvals).value;
            && Faithful(d, back) && back.completed == st.completed && back.records == st.records &&
                back.approvals == st.approvals
            && forall id :: Get(back.outputs, id) == Get(st.outputs, id)
  {
    FinalizeSafe(Graph(d), st);
    RestoreSafe(Graph(d), st.records, st.approvals);
    var back := Restore(st.records, st.approvals).value;
    hide RecordsSafe, Restore;
    SameRecordsSameView(Graph(d), st, back);
    forall i | 0 <= i < |st.records| ensures RecordFaithful(d, back.outputs, st.approvals, st.records[i]) {
      var n := st.records[i].stepId;
      assert RecordFaithful(d, st.outputs, st.approvals, st.records[i]);
      assert AgreeOn(st.outputs, back.outputs, Ancestors(Graph(d), n));
      assert SameBehaviour(StepOf(d, n), st.outputs, back.outputs);
      SameJudge(StepOf(d, n), st.outputs, back.outputs, st.approvals);
    }
  }

  lemma SameRecordsSameView(g: Deps, a: State, b: State)
    requires Safe(g, a) && Safe(g, b) && a.records == b.records
    ensures a.completed == b.completed && forall id :: Get(a.outputs, id) == Get(b.outputs, id)
  {
    forall id ensures Get(a.outputs, id) == Get(b.outputs, id) {
      if id in a.completed {
        var r := RecordOf(g, a, id);
        var i :| 0 <= i < |b.records| && b.records[i] == r;
        assert RecordStored(b.outputs, b.records[i]);
      }
    }
  }

  /** The persisted run always restores to a faithful state; once succeeded it
      restores to a solution whose declared outputs it holds. */
  ghost predicate RunFaithful(d: Definition, run: WorkflowRun) {
    && RecordsSafe(Graph(d), run.stepExecutions)
    && DistinctRequests(run.approvals)
    && Restore(run.stepExecutions, run.approvals).Ok?
    && Faithful(d, Restore(run.stepExecutions, run.approvals).value)
    && (run.status == RunSucceeded ==> SucceededFaithful(d, run, Restore(run.stepExecutions, run.approvals).value))
  }

  ghost predicate SucceededFaithful(d: Definition, run: WorkflowRun, st: State) {
    && AllDecided(run.approvals)
    && Solution(d, st)
    && run.outputs == DeclaredOutputs(d.outputs, st.outputs)
  }

  lemma {:induction false} SameViewSameOutputs(decls: seq<OutputDecl>, o: Outputs, p: Outputs)
    requires forall id :: Get(o, id) == Get(p, id)
    requires forall i :: 0 <= i < |decls| ==> decls[i].source(o) == decls[i].source(p)
    ensures DeclaredOutputs(decls, o) == DeclaredOutputs(decls, p)
  {
    if decls != [] {
      SameViewSameOutputs(decls[..|decls| - 1], o, p);
    }
  }

  lemma FinalizedFaithful(d: Definition, run: WorkflowRun, status: RunStatus, st: State, outputs: map<string, Value>)
    requires ReadsAncestorsOnly(d) && SourcesReadThroughGet(d) && Faithful(d, st) && DistinctRequests(st.approvals)
    requires status == RunSucceeded ==>
               AllDecided(st.approvals) && Solution(d, st) && outputs == DeclaredOutputs(d.outputs, st.outputs)
    ensures RunFaithful(d, Finalize(run, status, st, outputs))
  {
    RestoredIsFaithful(d, st);
    var back := Restore(st.records, st.approvals).value;
    hide Faithful, RecordsSafe, Restore;
    if status == RunSucceeded {
      SameViewSameOutputs(d.outputs, back.outputs, st.outputs);
    }
  }

  lemma ResumeFaithful(d: Definition, run: WorkflowRun, waves: seq<seq<Tick>>)
    requires ReadsAncestorsOnly(d) && SourcesReadThroughGet(d)
    requires RunFaithful(d, run) && AllDecided(run.approvals) && RunFrom(d, run, waves).Some?
    ensures RunFaithful(d, RunFrom(d, run, waves).value)
  {
    RestoreSafe(Graph(d), run.stepExecutions, run.approvals);
    var st := Restore(run.stepExecutions, run.approvals).value;
    assert Faithful(d, st);
    hide RunFaithful, RecordsSafe, Restore, Faithful, Grows, RunWaves, Saturated;
    RunWavesFaithful(d, st, waves);
    match RunWaves(d, st, waves)
    case Completed(end) => FinalizedFaithful(d, run, RunSucceeded, end, DeclaredOutputs(d.outputs, end.outputs));
    case Aborted(end, _) => FinalizedFaithful(d, run, RunFailed, end, run.outputs);
    case Parked(end) =>
      ParkedFaithful(d, st, waves);
      FinalizedFaithful(d, run, WaitingApproval, end, run.outputs);
  }

  lemma {:induction false} RestoreIgnoresApprovals(records: seq<StepExecution>, a: seq<Request>, b: seq<Request>)
    requires Restore(records, a).Ok?
    ensures Restore(records, b) == Ok(Restore(records, a).value.(approvals := b))
  {
    if records != [] {
      RestoreIgnoresApprovals(records[..|records| - 1], a, b);
    }
  }

  lemma DecideFaithful(d: Definition, run: WorkflowRun, requestId: string, approve: bool, who: string, note: string)
    requires RunFaithful(d, run)
    ensures RunFaithful(d, run.(approvals := DecideRequest(run.approvals, requestId, approve, who, note)))
  {
    var after := DecideRequest(run.approvals, requestId, approve, who, note);
    RestoreSafe(Graph(d), run.stepExecutions, run.approvals);
    RestoreIgnoresApprovals(run.stepExecutions, run.approvals, after);
    DecideChangesOne(run.approvals, requestId, approve, who, note);
    DecideKeepsFaithful(d, Restore(run.stepExecutions, run.approvals).value, requestId, approve, who, note);
    if AllDecided(run.approvals) {
      assert after == run.approvals;
    }
    hide Faithful, RecordsSafe, Restore, DecideRequest;
  }

  lemma CallKeepsRequests(d: Definition, run: WorkflowRun, waves: seq<seq<Tick>>)
    requires RecordsSafe(Graph(d), run.stepExecutions) && RunFrom(d, run, waves).Some?
    ensures KeptOrAsked(run.approvals, RunFrom(d, run, waves).value.approvals)
  {
    RestoreSafe(Graph(d), run.stepExecutions, run.approvals);
    hide Safe, RecordsSafe, Restore, RunWaves, KeptOrAsked;
    RequestsAsHandedOut(d, Restore(run.stepExecutions, run.approvals).value, waves);
  }

  lemma AskedIsPending(before: seq<Request>, after: seq<Request>, id: Id)
    requires KeptOrAsked(before, after)
    requires FindApproval(after, id).Some? && FindApproval(after, id).value.status != Pending
    ensures FindApproval(before, id) == FindApproval(after, id)
  {
    if after != before {
      var q: Request :| q.status == Pending && after == before + [q];
      assert after[..|before|] == before;
    }
  }

  lemma RecordedOutput(step: Step, o: Outputs, before: seq<Request>, after: seq<Request>, v: Value, r: StepExecution)
    requires step.executor.Approval? && KeptOrAsked(before, after)
    requires forall k, now :: RunAttempt(step, o, before, k, now, "") == Returned(v)
    requires forall now :: Judge(step, o, after, now) == Commits(r)
    ensures r.status == Succeeded ==> r.output == v
    ensures r.status == Skipped <==> !ShouldRun(step, o)
  {
    assert Judge(step, o, after, 0) == Commits(r);
    if ShouldRun(step, o) {
      CompletedIsDecided(step, o, after, r);
      AskedIsPending(before, after, step.id);
      assert RunAttempt(step, o, before, 0, 0, "") == Returned(v);
      assert RunAttempt(step, o, after, 0, 0, "") == Returned(v);
    }
  }

  lemma FaithfulRecord(d: Definition, run: WorkflowRun, r: StepExecution)
    requires RunFaithful(d, run) && r in run.stepExecutions
    ensures RecordFaithful(d, Restore(run.stepExecutions, run.approvals).value.outputs, run.approvals, r)
  {
    RestoreSafe(Graph(d), run.stepExecutions, run.approvals);
    hide RecordsSafe, Restore, Safe, SucceededFaithful, DistinctRequests;
    var i :| 0 <= i < |run.stepExecutions| && run.stepExecutions[i] == r;
  }

  /** From the decision to the record: when the last open request of a run is
      decided and the run resumed, the record of its step, unless the step's
      condition turned it away, holds that decision. */
  lemma DecisionIsRecorded(d: Definition, run: WorkflowRun, q: Request, approve: bool, who: string, note: string,
                           waves: seq<seq<Tick>>, r: StepExecution)
    requires ReadsAncestorsOnly(d) && SourcesReadThroughGet(d) && RunFaithful(d, run)
    requires q.stepId in Graph(d) && StepOf(d, q.stepId).executor.Approval?
    requires FindApproval(run.approvals, q.stepId) == Some(q) && q.status == Pending
    requires var decided := run.(approvals := DecideRequest(run.approvals, q.requestId, approve, who, note));
             && AllDecided(decided.approvals)
             && RunFrom(d, decided, waves).Some? && r in RunFrom(d, decided, waves).value.stepExecutions
    requires r.stepId == q.stepId
    ensures r.status == Succeeded ==> r.output == Decision(approve, who, note)
    ensures r.status == Skipped ==> StepOf(d, q.stepId).condition.Some?
  {
    var step := StepOf(d, q.stepId);
    var decided := run.(approvals := DecideRequest(run.approvals, q.requestId, approve, who, note));
    DecideFaithful(d, run, q.requestId, approve, who, note);
    ResumeFaithful(d, decided, waves);
    var result := RunFrom(d, decided, waves).value;
    FaithfulRecord(d, result, r);
    CallKeepsRequests(d, decided, waves);
    var o := Restore(result.stepExecutions, result.approvals).value.outputs;
    hide RunFrom, Restore, Faithful, RecordsSafe, DecideRequest, Judge, KeptOrAsked, Graph, AllDecided, RunAttempt,
         FindApproval, SucceededFaithful, ReadsAncestorsOnly, SourcesReadThroughGet;
    forall k: nat, now: int ensures RunAttempt(step, o, decided.approvals, k, now, "") ==
                                    Returned(Decision(approve, who, note)) {
      DecisionArrives(step, o, run.approvals, q, approve, who, note, k, now, "");
    }
    RecordedOutput(step, o, decided.approvals, result.approvals, Decision(approve, who, note), r);
  }

  /** Every request on record is decided whenever the run is handed out. */
  ghost predicate DecidesBeforeResume(d: Definition, s: Service, ops: seq<Op>) {
    forall k :: 0 <= k < |ops| && ops[k].HandOut? ==> AllDecided(ApplyOps(d, s, ops[..k]).run.approvals)
  }

  /** The persisted run and the snapshots in flight are faithful, and the
      snapshots have no open request. */
  ghost predicate ServiceFaithful(d: Definition, s: Service) {
    && RunFaithful(d, s.run)
    && forall i :: 0 <= i < |s.inFlight| ==> RunFaithful(d, s.inFlight[i]) && AllDecided(s.inFlight[i].approvals)
  }

  lemma ApplyOpFaithful(d: Definition, s: Service, op: Op)
    requires ReadsAncestorsOnly(d) && SourcesReadThroughGet(d)
    requires ServiceFaithful(d, s) && (op.HandOut? ==> AllDecided(s.run.approvals))
    ensures ServiceFaithful(d, ApplyOp(d, s, op))
  {
    match op
    case Finish(k, waves) =>
      hide RunFaithful, RunFrom, AllDecided;
      if k < |s.inFlight| && RunFrom(d, s.inFlight[k], waves).Some? {
        ResumeFaithful(d, s.inFlight[k], waves);
      }
    case Decide(requestId, approve, who, note) =>
      hide RunFaithful, AllDecided;
      DecideFaithful(d, s.run, requestId, approve, who, note);
    case Cancel =>
      hide AllDecided;
      CancelFaithful(d, s.run);
      hide RunFaithful;
    case _ =>
      hide RunFaithful, AllDecided;
  }

  lemma CancelFaithful(d: Definition, run: WorkflowRun)
    requires RunFaithful(d, run)
    ensures RunFaithful(d, run.(status := RunStatus.Cancelled))
  {
    hide Faithful, RecordsSafe, SucceededFaithful;
  }

  lemma {:induction false} OpsFaithful(d: Definition, s: Service, ops: seq<Op>)
    requires ReadsAncestorsOnly(d) && SourcesReadThroughGet(d)
    requires ServiceFaithful(d, s) && DecidesBeforeResume(d, s, ops)
    ensures ServiceFaithful(d, ApplyOps(d, s, ops))
  {
    hide ServiceFaithful, ApplyOp;
    if ops != [] {
      var k := |ops| - 1;
      forall i | 0 <= i < k && ops[..k][i].HandOut? ensures AllDecided(ApplyOps(d, s, ops[..k][..i]).run.approvals) {
        assert ops[..k][..i] == ops[..i];
      }
      OpsFaithful(d, s, ops[..k]);
      ApplyOpFaithful(d, ApplyOps(d, s, ops[..k]), ops[k]);
    }
  }

  lemma FreshRunFaithful(d: Definition, approvals: seq<Request>)
    requires DistinctRequests(approvals)
    ensures RunFaithful(d, FRESH_RUN.(approvals := approvals))
  {
    StartFaithful(d, approvals);
    hide Faithful;
  }
}
