/** The persisted run between the sections of the service: a run is handed to
    the executor in one section and its result persisted in a later one, and
    anything may be decided, cancelled or handed out in between. */
module WorkflowServices {
  import opened Digraph
  import opened Wrappers
  import opened WorkflowGraphs
  import opened WorkflowModel
  import opened WorkflowWaves
  import opened WorkflowRuns
  import opened WorkflowExecution

  predicate IsTerminal(run: WorkflowRun) {
    run.status in {RunSucceeded, RunFailed, Cancelled}
  }

  /** The run as the store has it, and the snapshots the executor is working on. */
  datatype Service = Service(run: WorkflowRun, inFlight: seq<WorkflowRun>)

  const NEW_RUN := Service(FRESH_RUN, [])

  /** HandOut is the part of execute or resume before the executor is awaited,
      Finish the part after it. Drop is an executor call that never returns a
      run: it raised, was cancelled, or its process died. */
  datatype Op =
    | HandOut
    | Finish(k: nat, waves: seq<seq<Tick>>)
    | Drop(k: nat)
    | Decide(requestId: string, approve: bool, who: string, note: string)
    | Cancel

  function FindRequest(approvals: seq<Request>, requestId: string): (r: Option<Request>)
    ensures r.Some? ==> r.value in approvals && r.value.requestId == requestId
  {
    if approvals == [] then None
    else if approvals[0].requestId == requestId then Some(approvals[0])
    else FindRequest(approvals[1..], requestId)
  }

  function DecideRequest(approvals: seq<Request>, requestId: string, approve: bool, who: string,
                         note: string): seq<Request> {
    var found := FindRequest(approvals, requestId);
    if found.None? || found.value.status != Pending then approvals
    else
      var decided := found.value.(status := if approve then Approved else Rejected, decidedBy := who, note := note);
      seq(|approvals|, i requires 0 <= i < |approvals| =>
        if approvals[i].requestId == requestId then decided else approvals[i])
  }

  /** Every request with another id is where and what it was. */
  ghost predicate OthersKept(before: seq<Request>, after: seq<Request>, requestId: string) {
    |after| == |before| && forall i :: 0 <= i < |before| && before[i].requestId != requestId ==> after[i] == before[i]
  }

  /** The decision as it is stored: the one that was passed, and by whom. */
  ghost predicate StoresDecision(before: seq<Request>, after: seq<Request>, requestId: string, approve: bool,
                                 who: string, note: string) {
    && FindRequest(before, requestId).Some? && FindRequest(after, requestId).Some?
    && var was, now := FindRequest(before, requestId).value, FindRequest(after, requestId).value;
    && now.status == (if approve then Approved else Rejected) && now.decidedBy == who && now.note == note
    && now == was.(status := now.status, decidedBy := who, note := note)
  }

  lemma {:induction false} FirstOfId(approvals: seq<Request>, requestId: string, i: nat)
    requires i < |approvals| && approvals[i].requestId == requestId
    requires forall k :: 0 <= k < i ==> approvals[k].requestId != requestId
    ensures FindRequest(approvals, requestId) == Some(approvals[i])
  {
    if i > 0 {
      FirstOfId(approvals[1..], requestId, i - 1);
    }
  }

  lemma {:induction false} FindsFirst(approvals: seq<Request>, requestId: string) returns (i: nat)
    requires FindRequest(approvals, requestId).Some?
    ensures i < |approvals| && approvals[i] == FindRequest(approvals, requestId).value
    ensures forall k :: 0 <= k < i ==> approvals[k].requestId != requestId
  {
    i := 0;
    if approvals[0].requestId != requestId {
      i := FindsFirst(approvals[1..], requestId);
      assert forall k :: 1 <= k <= i ==> approvals[k] == approvals[1..][k - 1];
      i := i + 1;
    }
  }

  lemma DecideStores(approvals: seq<Request>, requestId: string, approve: bool, who: string, note: string)
    ensures var after := DecideRequest(approvals, requestId, approve, who, note);
            && OthersKept(approvals, after, requestId)
            && match FindRequest(approvals, requestId)
               case Some(q) =>
                 if q.status == Pending then StoresDecision(approvals, after, requestId, approve, who, note)
                 else after == approvals
               case None => after == approvals
  {
    var after := DecideRequest(approvals, requestId, approve, who, note);
    if FindRequest(approvals, requestId).Some? && FindRequest(approvals, requestId).value.status == Pending {
      var i := FindsFirst(approvals, requestId);
      FirstOfId(after, requestId, i);
    }
  }

  function Without(inFlight: seq<WorkflowRun>, k: nat): seq<WorkflowRun>
    requires k < |inFlight|
  {
    inFlight[..k] + inFlight[k + 1..]
  }

  /** What one section does. A schedule that does not end the run leaves it in
      flight. */
  ghost function ApplyOp(d: Definition, s: Service, op: Op): Service {
    match op
    case HandOut => if IsTerminal(s.run) then s else s.(inFlight := s.inFlight + [s.run])
    case Finish(k, waves) =>
      if k >= |s.inFlight| then s
      else (match RunFrom(d, s.inFlight[k], waves)
            case Some(result) => Service(result, Without(s.inFlight, k))
            case None => s)
    case Drop(k) => if k >= |s.inFlight| then s else s.(inFlight := Without(s.inFlight, k))
    case Decide(requestId, approve, who, note) =>
      s.(run := s.run.(approvals := DecideRequest(s.run.approvals, requestId, approve, who, note)))
    case Cancel => if IsTerminal(s.run) then s else s.(run := s.run.(status := Cancelled))
  }

  ghost function ApplyOps(d: Definition, s: Service, ops: seq<Op>): Service {
    if ops == [] then s
    else ApplyOp(d, ApplyOps(d, s, ops[..|ops| - 1]), ops[|ops| - 1])
  }

  // ---- safety

  ghost predicate ServiceSafe(d: Definition, s: Service) {
    RunSafe(d, s.run) && forall i :: 0 <= i < |s.inFlight| ==> RunSafe(d, s.inFlight[i])
  }

  lemma ApplyOpSafe(d: Definition, s: Service, op: Op)
    requires ServiceSafe(d, s)
    ensures ServiceSafe(d, ApplyOp(d, s, op))
  {
    match op
    case Finish(k, waves) =>
      hide RunSafe, RunFrom;
      if k < |s.inFlight| && RunFrom(d, s.inFlight[k], waves).Some? {
        RunFromSafe(d, s.inFlight[k], waves);
      }
    case HandOut => hide RunSafe;
    case Drop(k) => hide RunSafe;
    case _ => hide RecordsSafe, LeastSaturated;
  }

  /** Run safety over any sequence of sections, any number of executor calls in
      flight, and any schedules: the persisted run and every snapshot have
      dependency-closed records, one for each completed step. */
  lemma {:induction false} OpsSafe(d: Definition, s: Service, ops: seq<Op>)
    requires ServiceSafe(d, s)
    ensures ServiceSafe(d, ApplyOps(d, s, ops))
  {
    hide ServiceSafe, ApplyOp;
    if ops != [] {
      OpsSafe(d, s, ops[..|ops| - 1]);
      ApplyOpSafe(d, ApplyOps(d, s, ops[..|ops| - 1]), ops[|ops| - 1]);
    }
  }

  lemma NewRunSafe(d: Definition)
    ensures ServiceSafe(d, NEW_RUN)
  {
  }

  /** From a fresh run, SUCCEEDED means every declared step is completed
      exactly when the graph is closed and acyclic. */
  lemma SucceededIsComplete(d: Definition, ops: seq<Op>)
    requires ApplyOps(d, NEW_RUN, ops).run.status == RunSucceeded
    ensures Elems(RecordIds(ApplyOps(d, NEW_RUN, ops).run.stepExecutions)) == Graph(d).Keys <==>
              Closed(Graph(d)) && Acyclic(Graph(d))
  {
    NewRunSafe(d);
    OpsSafe(d, NEW_RUN, ops);
    LeastIsAllIff(Graph(d), RecordIds(ApplyOps(d, NEW_RUN, ops).run.stepExecutions));
  }

  lemma StepResolvesOutputs(d: Definition, s: Service, op: Op)
    requires ServiceSafe(d, s) && (s.run.status == RunSucceeded ==> OutputsResolved(d, s.run))
    ensures ApplyOp(d, s, op).run.status == RunSucceeded ==> OutputsResolved(d, ApplyOp(d, s, op).run)
  {
    hide RunFrom, RecordsSafe, LeastSaturated, DecideRequest, ShowsRecords, HoldsDeclared;
    if op.Finish? && op.k < |s.inFlight| {
      RunResolves(d, s.inFlight[op.k], op.waves);
    }
  }

  /** Whatever sequence of operations ended in success, the persisted outputs
      are resolved from the persisted records. */
  lemma {:induction false} SucceededIsResolved(d: Definition, ops: seq<Op>)
    requires ApplyOps(d, NEW_RUN, ops).run.status == RunSucceeded
    ensures OutputsResolved(d, ApplyOps(d, NEW_RUN, ops).run)
  {
    hide ApplyOp, OutputsResolved, ServiceSafe;
    if ops != [] {
      var init := ops[..|ops| - 1];
      if ApplyOps(d, NEW_RUN, init).run.status == RunSucceeded {
        SucceededIsResolved(d, init);
      }
      NewRunSafe(d);
      OpsSafe(d, NEW_RUN, init);
      StepResolvesOutputs(d, ApplyOps(d, NEW_RUN, init), ops[|ops| - 1]);
    }
  }

  /** What is in flight started from the records the store still has. */
  ghost predicate UpToDate(s: Service) {
    forall i :: 0 <= i < |s.inFlight| ==> s.inFlight[i].stepExecutions == s.run.stepExecutions
  }

  lemma OneAtATimeStep(d: Definition, s: Service, op: Op)
    requires ServiceSafe(d, s) && UpToDate(s) && |s.inFlight| <= 1
    ensures UpToDate(ApplyOp(d, s, op))
    ensures s.run.stepExecutions <= ApplyOp(d, s, op).run.stepExecutions
  {
    hide RunSafe, RunFrom;
    if op.Finish? && op.k < |s.inFlight| && RunFrom(d, s.inFlight[op.k], op.waves).Some? {
      RunFromSafe(d, s.inFlight[op.k], op.waves);
    }
  }

  /** As long as nobody hands the run out while it is in flight, records are
      only ever appended to the persisted run. */
  lemma {:induction false} OneAtATimeAppends(d: Definition, s: Service, ops: seq<Op>)
    requires ServiceSafe(d, s) && UpToDate(s)
    requires forall k :: 0 <= k <= |ops| ==> |ApplyOps(d, s, ops[..k]).inFlight| <= 1
    ensures UpToDate(ApplyOps(d, s, ops))
    ensures s.run.stepExecutions <= ApplyOps(d, s, ops).run.stepExecutions
  {
    hide ServiceSafe, UpToDate, ApplyOp;
    if ops != [] {
      var init := ops[..|ops| - 1];
      forall k | 0 <= k <= |init| ensures |ApplyOps(d, s, init[..k]).inFlight| <= 1 {
        assert init[..k] == ops[..k];
      }
      OneAtATimeAppends(d, s, init);
      OpsSafe(d, s, init);
      assert init[..|init|] == init;
      OneAtATimeStep(d, ApplyOps(d, s, init), ops[|ops| - 1]);
    }
  }

  // ---- terminal statuses

  lemma TerminalStep(d: Definition, s: Service, op: Op)
    requires IsTerminal(s.run) && s.inFlight == []
    ensures ApplyOp(d, s, op).run.status == s.run.status && ApplyOp(d, s, op).inFlight == []
  {
  }

  /** A terminal status that is set while nothing is in flight is final. */
  lemma {:induction false} TerminalAloneIsFinal(d: Definition, s: Service, ops: seq<Op>)
    requires IsTerminal(s.run) && s.inFlight == []
    ensures ApplyOps(d, s, ops).run.status == s.run.status && ApplyOps(d, s, ops).inFlight == []
  {
    hide ApplyOp, IsTerminal;
    if ops != [] {
      TerminalAloneIsFinal(d, s, ops[..|ops| - 1]);
      var init := ApplyOps(d, s, ops[..|ops| - 1]);
      assert IsTerminal(init.run) by { SameStatus(s.run, init.run); }
      TerminalStep(d, init, ops[|ops| - 1]);
    }
  }

  lemma SameStatus(a: WorkflowRun, b: WorkflowRun)
    requires a.status == b.status
    ensures IsTerminal(a) == IsTerminal(b)
  {
  }

  /** Some executor call in flight can end with another status. */
  ghost predicate CanEndOtherwise(d: Definition, inFlight: seq<WorkflowRun>, status: RunStatus) {
    exists r, waves :: r in inFlight && EndsOtherwise(d, r, waves, status)
  }

  ghost predicate EndsOtherwise(d: Definition, run: WorkflowRun, waves: seq<seq<Tick>>, status: RunStatus) {
    RunFrom(d, run, waves).Some? && RunFrom(d, run, waves).value.status != status
  }

  /** While the status is terminal nothing new is handed out, and only the end
      of a call in flight changes the status. */
  lemma TerminalOp(d: Definition, s: Service, op: Op)
    requires IsTerminal(s.run)
    ensures forall r :: r in ApplyOp(d, s, op).inFlight ==> r in s.inFlight
    ensures ApplyOp(d, s, op).run.status != s.run.status ==>
              exists r :: r in s.inFlight && op.Finish? && EndsOtherwise(d, r, op.waves, s.run.status)
  {
    hide RunFrom;
    if ApplyOp(d, s, op).run.status != s.run.status {
      assert s.inFlight[op.k] in s.inFlight;
    }
  }

  lemma {:induction false} LeavingNeedsAnEnd(d: Definition, s: Service, ops: seq<Op>)
    requires IsTerminal(s.run) && !CanEndOtherwise(d, s.inFlight, s.run.status)
    ensures ApplyOps(d, s, ops).run.status == s.run.status
    ensures forall r :: r in ApplyOps(d, s, ops).inFlight ==> r in s.inFlight
  {
    hide ApplyOp, EndsOtherwise, IsTerminal;
    if ops != [] {
      var op := ops[|ops| - 1];
      LeavingNeedsAnEnd(d, s, ops[..|ops| - 1]);
      var t := ApplyOps(d, s, ops[..|ops| - 1]);
      SameStatus(s.run, t.run);
      TerminalOp(d, t, op);
    }
  }

  /** A terminal status can be left exactly when a call that was in flight
      when it was set can end with another one. */
  lemma TerminalIsLeftIff(d: Definition, s: Service)
    requires IsTerminal(s.run)
    ensures (exists ops :: ApplyOps(d, s, ops).run.status != s.run.status) <==>
              CanEndOtherwise(d, s.inFlight, s.run.status)
  {
    if CanEndOtherwise(d, s.inFlight, s.run.status) {
      var r, waves :| r in s.inFlight && EndsOtherwise(d, r, waves, s.run.status);
      var k :| 0 <= k < |s.inFlight| && s.inFlight[k] == r;
      NextOp(d, s, [], Finish(k, waves));
      assert ApplyOps(d, s, [] + [Finish(k, waves)]).run.status != s.run.status;
    }
    hide ApplyOps, CanEndOtherwise;
    forall ops | ApplyOps(d, s, ops).run.status != s.run.status ensures CanEndOtherwise(d, s.inFlight, s.run.status) {
      if !CanEndOtherwise(d, s.inFlight, s.run.status) {
        LeavingNeedsAnEnd(d, s, ops);
      }
    }
  }

  lemma NextOp(d: Definition, s: Service, ops: seq<Op>, op: Op)
    ensures ApplyOps(d, s, ops + [op]) == ApplyOp(d, ApplyOps(d, s, ops), op)
  {
    assert (ops + [op])[..|ops|] == ops;
  }

  /** Every safe snapshot can be brought to an end, and none ends cancelled. */
  lemma SnapshotEnds(d: Definition, run: WorkflowRun) returns (waves: seq<seq<Tick>>)
    requires RunSafe(d, run) && d.maxConcurrency >= 1
    ensures EndsOtherwise(d, run, waves, Cancelled)
  {
    RestoreSafe(Graph(d), run.stepExecutions, run.approvals);
    hide Safe, RecordsSafe, LeastSaturated, Restore, RunWaves;
    waves := RunCanEnd(d, Restore(run.stepExecutions, run.approvals).value);
  }

  /** CANCELLED is left exactly when a run was in flight when it was set. */
  lemma CancelledIsLeftIff(d: Definition, s: Service)
    requires ServiceSafe(d, s) && d.maxConcurrency >= 1 && s.run.status == Cancelled
    ensures (exists ops :: ApplyOps(d, s, ops).run.status != Cancelled) <==> s.inFlight != []
  {
    hide RunSafe, EndsOtherwise, ApplyOps;
    TerminalIsLeftIff(d, s);
    if s.inFlight != [] {
      var waves := SnapshotEnds(d, s.inFlight[0]);
      assert s.inFlight[0] in s.inFlight && CanEndOtherwise(d, s.inFlight, Cancelled);
    }
  }

  lemma FinishedFirst(d: Definition, run: WorkflowRun, snapshot: WorkflowRun, waves: seq<seq<Tick>>)
    requires RunFrom(d, snapshot, waves).Some?
    ensures ApplyOp(d, Service(run, [snapshot]), Finish(0, waves)) == Service(RunFrom(d, snapshot, waves).value, [])
  {
  }

  lemma NoStepsSucceeds(d: Definition, waves: seq<seq<Tick>>)
    requires d.steps == []
    ensures RunFrom(d, FRESH_RUN, waves).Some? && RunFrom(d, FRESH_RUN, waves).value.status == RunSucceeded
  {
    assert Nodes(d) == [] && Ready(Nodes(d), Graph(d), {}) == [];
  }

  /** The input: hand a new run out, cancel it, and let the executor end. */
  lemma CancelIsOverwritten(d: Definition) returns (waves: seq<seq<Tick>>)
    requires d.maxConcurrency >= 1
    ensures ApplyOps(d, NEW_RUN, [HandOut, Cancel]).run.status == Cancelled
    ensures ApplyOps(d, NEW_RUN, [HandOut, Cancel, Finish(0, waves)]).run.status != Cancelled
    ensures d.steps == [] ==> ApplyOps(d, NEW_RUN, [HandOut, Cancel, Finish(0, waves)]).run.status == RunSucceeded
  {
    NewRunSafe(d);
    assert RunSafe(d, FRESH_RUN);
    waves := SnapshotEnds(d, FRESH_RUN);
    if d.steps == [] {
      NoStepsSucceeds(d, waves);
    }
    CancelledInFlight(d);
    NextOp(d, NEW_RUN, [HandOut, Cancel], Finish(0, waves));
    assert [HandOut, Cancel] + [Finish(0, waves)] == [HandOut, Cancel, Finish(0, waves)];
    hide RunSafe, RunFrom, ApplyOps, ApplyOp;
    FinishedFirst(d, FRESH_RUN.(status := Cancelled), FRESH_RUN, waves);
  }

  lemma CancelledInFlight(d: Definition)
    ensures ApplyOps(d, NEW_RUN, [HandOut, Cancel]) == Service(FRESH_RUN.(status := Cancelled), [FRESH_RUN])
  {
    hide RunFrom, DecideRequest;
    NextOp(d, NEW_RUN, [], HandOut);
    NextOp(d, NEW_RUN, [HandOut], Cancel);
    assert [] + [HandOut] == [HandOut] && [HandOut] + [Cancel] == [HandOut, Cancel];
    assert ApplyOp(d, NEW_RUN, HandOut) == Service(FRESH_RUN, [FRESH_RUN]);
  }

  // ---- decisions

  /** The requests as they were, or one new open one after them. */
  ghost predicate KeptOrAsked(before: seq<Request>, after: seq<Request>) {
    after == before || exists q: Request :: q.status == Pending && after == before + [q]
  }

  lemma AddRequestAsks(approvals: seq<Request>, q: Request)
    requires q.status == Pending
    ensures KeptOrAsked(approvals, AddRequest(approvals, q))
  {
  }

  /** An executor call keeps the requests of its snapshot as they were, and adds
      at most one, which is open. */
  lemma {:induction false} RequestsAsHandedOut(d: Definition, st: State, waves: seq<seq<Tick>>)
    requires Safe(Graph(d), st) && !RunWaves(d, st, waves).OutOfSchedule?
    ensures KeptOrAsked(st.approvals, RunWaves(d, st, waves).st.approvals)
    decreases |waves|
  {
    hide Safe, Grows, Ready, Scan, AllDone, Interleave, KeptOrAsked, AddRequest;
    var ready := Ready(Nodes(d), Graph(d), st.completed);
    KeptAsIs(st.approvals);
    if ready != [] && waves != [] {
      OneWaveSafe(d, st, waves[0]);
      var w := Interleave(d, Launch(st, ready), waves[0]);
      GrowsKeepsRecords(st, w.st);
      if AllDone(w) {
        match Scan(Results(w, ready), None)
        case AllRecorded =>
          WaveIsSafe(Graph(d), w);
          RequestsAsHandedOut(d, w.st, waves[1..]);
        case PauseOn(q) =>
          ParkedRequest(d, w, ready);
          AddRequestAsks(w.st.approvals, q);
        case RaiseFirst(_) =>
      }
    }
  }

  lemma KeptAsIs(approvals: seq<Request>)
    ensures KeptOrAsked(approvals, approvals)
  {
  }

  lemma WaveIsSafe(g: Deps, w: Wave)
    requires WaveSafe(g, w)
    ensures Safe(g, w.st)
  {
  }

  lemma RunKeepsRequests(d: Definition, run: WorkflowRun, waves: seq<seq<Tick>>)
    requires RunSafe(d, run) && RunFrom(d, run, waves).Some?
    ensures KeptOrAsked(run.approvals, RunFrom(d, run, waves).value.approvals)
  {
    RestoreSafe(Graph(d), run.stepExecutions, run.approvals);
    hide Safe, RecordsSafe, LeastSaturated, Restore, RunWaves, KeptOrAsked;
    RequestsAsHandedOut(d, Restore(run.stepExecutions, run.approvals).value, waves);
  }

  /** What is persisted at the end of a call are the requests that were handed
      out, whatever was decided since, and at most one more. */
  lemma FinishRestoresRequests(d: Definition, s: Service, k: nat, waves: seq<seq<Tick>>)
    requires ServiceSafe(d, s) && k < |s.inFlight| && RunFrom(d, s.inFlight[k], waves).Some?
    ensures KeptOrAsked(s.inFlight[k].approvals, ApplyOp(d, s, Finish(k, waves)).run.approvals)
  {
    hide RunSafe, RunFrom, KeptOrAsked;
    RunKeepsRequests(d, s.inFlight[k], waves);
  }

  /** The request on record under an id. */
  ghost predicate Holds(run: WorkflowRun, requestId: string, q: Request) {
    FindRequest(run.approvals, requestId) == Some(q)
  }

  ghost predicate AllHold(runs: seq<WorkflowRun>, requestId: string, q: Request) {
    forall i :: 0 <= i < |runs| ==> Holds(runs[i], requestId, q)
  }

  lemma {:induction false} FindInLonger(before: seq<Request>, more: seq<Request>, requestId: string)
    ensures FindRequest(before + more, requestId) ==
              if FindRequest(before, requestId).Some? then FindRequest(before, requestId)
              else FindRequest(more, requestId)
  {
    if before == [] {
      assert before + more == more;
    } else {
      FindInLonger(before[1..], more, requestId);
      assert (before + more)[1..] == before[1..] + more;
    }
  }

  /** A decided request is on record after a call exactly if it was in the
      snapshot. */
  lemma KeptOrAskedHolds(before: seq<Request>, after: seq<Request>, requestId: string, q: Request)
    requires KeptOrAsked(before, after) && q.status != Pending
    ensures FindRequest(after, requestId) == Some(q) <==> FindRequest(before, requestId) == Some(q)
  {
    if after != before {
      var asked: Request :| asked.status == Pending && after == before + [asked];
      FindInLonger(before, [asked], requestId);
      assert [asked][1..] == [];
    }
  }

  lemma {:induction false} FindUnaffected(a: seq<Request>, b: seq<Request>, requestId: string)
    requires |a| == |b|
    requires forall i :: 0 <= i < |a| ==>
               a[i] == b[i] || (a[i].requestId != requestId && b[i].requestId != requestId)
    ensures FindRequest(a, requestId) == FindRequest(b, requestId)
  {
    if a != [] && a[0].requestId != requestId {
      FindUnaffected(a[1..], b[1..], requestId);
    }
  }

  /** Decisions are taken once. */
  lemma DecideKeepsDecided(run: WorkflowRun, requestId: string, q: Request, op: Op)
    requires op.Decide? && Holds(run, requestId, q) && q.status != Pending
    ensures Holds(run.(approvals := DecideRequest(run.approvals, op.requestId, op.approve, op.who, op.note)),
                  requestId, q)
  {
    var after := DecideRequest(run.approvals, op.requestId, op.approve, op.who, op.note);
    if op.requestId != requestId {
      FindUnaffected(run.approvals, after, requestId);
    }
  }

  lemma StepHolds(d: Definition, s: Service, op: Op, requestId: string, q: Request)
    requires ServiceSafe(d, s) && q.status != Pending
    requires Holds(s.run, requestId, q) && AllHold(s.inFlight, requestId, q)
    ensures Holds(ApplyOp(d, s, op).run, requestId, q) && AllHold(ApplyOp(d, s, op).inFlight, requestId, q)
  {
    match op
    case Finish(k, waves) =>
      hide RunSafe, RunFrom, KeptOrAsked;
      if k < |s.inFlight| && RunFrom(d, s.inFlight[k], waves).Some? {
        RunKeepsRequests(d, s.inFlight[k], waves);
        KeptOrAskedHolds(s.inFlight[k].approvals, RunFrom(d, s.inFlight[k], waves).value.approvals, requestId, q);
      }
    case Decide(_, _, _, _) =>
      DecideKeepsDecided(s.run, requestId, q, op);
      hide Holds, DecideRequest;
    case Cancel =>
    case _ => hide Holds;
  }

  lemma {:induction false} OpsHold(d: Definition, s: Service, ops: seq<Op>, requestId: string, q: Request)
    requires ServiceSafe(d, s) && q.status != Pending
    requires Holds(s.run, requestId, q) && AllHold(s.inFlight, requestId, q)
    ensures Holds(ApplyOps(d, s, ops).run, requestId, q) && AllHold(ApplyOps(d, s, ops).inFlight, requestId, q)
  {
    hide ServiceSafe, ApplyOp, Holds, AllHold;
    if ops != [] {
      OpsHold(d, s, ops[..|ops| - 1], requestId, q);
      OpsSafe(d, s, ops[..|ops| - 1]);
      StepHolds(d, ApplyOps(d, s, ops[..|ops| - 1]), ops[|ops| - 1], requestId, q);
    }
  }

  lemma EndLosesDecision(d: Definition, s: Service, k: nat, requestId: string, q: Request) returns (op: Op)
    requires ServiceSafe(d, s) && d.maxConcurrency >= 1 && q.status != Pending
    requires k < |s.inFlight| && !Holds(s.inFlight[k], requestId, q)
    ensures !Holds(ApplyOp(d, s, op).run, requestId, q)
  {
    hide RunSafe, RunFrom, KeptOrAsked;
    var waves := SnapshotEnds(d, s.inFlight[k]);
    op := Finish(k, waves);
    RunKeepsRequests(d, s.inFlight[k], waves);
    KeptOrAskedHolds(s.inFlight[k].approvals, RunFrom(d, s.inFlight[k], waves).value.approvals, requestId, q);
  }

  /** A decision on record can be lost exactly when some snapshot in flight does
      not hold it. */
  lemma DecisionIsLostIff(d: Definition, s: Service, requestId: string, q: Request)
    requires ServiceSafe(d, s) && d.maxConcurrency >= 1 && Holds(s.run, requestId, q) && q.status != Pending
    ensures (exists ops :: !Holds(ApplyOps(d, s, ops).run, requestId, q)) <==> !AllHold(s.inFlight, requestId, q)
  {
    if !AllHold(s.inFlight, requestId, q) {
      var k :| 0 <= k < |s.inFlight| && !Holds(s.inFlight[k], requestId, q);
      var op := EndLosesDecision(d, s, k, requestId, q);
      NextOp(d, s, [], op);
      assert ApplyOps(d, s, []) == s;
      assert !Holds(ApplyOps(d, s, [] + [op]).run, requestId, q);
    }
    hide ApplyOps, Holds, AllHold, ServiceSafe;
    forall ops | !Holds(ApplyOps(d, s, ops).run, requestId, q) ensures !AllHold(s.inFlight, requestId, q) {
      if AllHold(s.inFlight, requestId, q) {
        OpsHold(d, s, ops, requestId, q);
      }
    }
  }

  // ---- the service, for one run

  datatype ServiceError = RequestNotFound | AlreadyDecided

  class WorkflowService {
    const definition: Definition
    var run: WorkflowRun
    /** Snapshots whose executor call is being awaited. */
    var inFlight: seq<WorkflowRun>

    ghost function View(): Service reads this {
      Service(run, inFlight)
    }

    constructor (definition: Definition)
      ensures this.definition == definition && View() == NEW_RUN
    {
      this.definition := definition;
      run, inFlight := FRESH_RUN, [];
    }

    /** resume, and execute once the run is stored, up to the await. */
    method Resume() returns (started: bool)
      modifies this
      ensures View() == ApplyOp(definition, old(View()), HandOut)
      ensures started <==> old(run).status == Created || old(run).status == WaitingApproval
      ensures run == old(run) && inFlight == old(inFlight) + if started then [run] else []
    {
      if IsTerminal(run) {
        return false;
      }
      inFlight := inFlight + [run];
      return true;
    }

    /** The executor call of snapshot k, and the section that persists it. */
    method ExecuteRun(k: nat, waves: seq<seq<Tick>>) returns (result: Option<WorkflowRun>)
      requires k < |inFlight|
      modifies this
      ensures View() == ApplyOp(definition, old(View()), Finish(k, waves))
      ensures result == RunFrom(definition, old(inFlight)[k], waves)
    {
      result := Run(definition, inFlight[k], waves);
      if result.Some? {
        run, inFlight := result.value, Without(inFlight, k);
      }
    }

    method CancelRun() returns (r: WorkflowRun)
      modifies this
      ensures View() == ApplyOp(definition, old(View()), Cancel) && r == run && inFlight == old(inFlight)
      ensures if old(run).status == Created || old(run).status == WaitingApproval
              then run == old(run).(status := Cancelled) else run == old(run)
    {
      if IsTerminal(run) {
        return run;
      }
      run := run.(status := Cancelled);
      return run;
    }

    method DecideOn(requestId: string, approve: bool, who: string, note: string)
        returns (r: Result<WorkflowRun, ServiceError>)
      modifies this
      ensures View() == ApplyOp(definition, old(View()), Decide(requestId, approve, who, note))
      ensures r == match FindRequest(old(run).approvals, requestId)
                   case None => Err(RequestNotFound)
                   case Some(q) => if q.status != Pending then Err(AlreadyDecided) else Ok(run)
      ensures r.Err? ==> run == old(run)
      ensures r.Ok? ==> StoresDecision(old(run).approvals, run.approvals, requestId, approve, who, note)
      ensures OthersKept(old(run).approvals, run.approvals, requestId)
      ensures run == old(run).(approvals := run.approvals)
    {
      DecideStores(run.approvals, requestId, approve, who, note);
      hide DecideRequest, StoresDecision;
      var found := FindRequest(run.approvals, requestId);
      if found.None? {
        return Err(RequestNotFound);
      }
      if found.value.status != Pending {
        return Err(AlreadyDecided);
      }
      run := run.(approvals := DecideRequest(run.approvals, requestId, approve, who, note));
      return Ok(run);
    }
  }
}
