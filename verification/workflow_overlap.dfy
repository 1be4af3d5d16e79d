/** Two executor calls on one run at the same time. */
module WorkflowOverlaps {
  import opened Digraph
  import opened Wrappers
  import opened WorkflowGraphs
  import opened WorkflowModel
  import opened WorkflowWaves
  import opened WorkflowRuns
  import opened WorkflowServices

  /** One approval, granted by itself a clock unit after it was asked for. */
  const APPROVAL := Step("a", [], None, Approval(AutoApprove, Some(1)), 0, ErrorPolicy.Abort)

  const ONE_APPROVAL := Definition([APPROVAL], 1, [])

  function Asked(uuid: string): Request {
    Request(uuid, "a", Pending, "", "", 0, Some(1))
  }

  /** The event loop serves the only task, at time now, until it is done. */
  function Serve(now: int, uuid: string): seq<Tick> {
    [Tick("a", now, uuid), Tick("a", now, uuid), Tick("a", now, uuid)]
  }

  lemma OnlyReady()
    ensures Graph(ONE_APPROVAL) == map["a" := []] && Nodes(ONE_APPROVAL) == ["a"]
    ensures StepOf(ONE_APPROVAL, "a") == APPROVAL
    ensures Ready(["a"], map["a" := []], {}) == ["a"] && Ready(["a"], map["a" := []], {"a"}) == []
  {
    var g: Deps := map["a" := []];
    assert Lookup(ONE_APPROVAL.steps) == map["a" := APPROVAL];
    assert ["a"][..0] == [] && DepsWithin(g, "a", {});
    assert Ready([], g, {}) == [] && Ready([], g, {"a"}) == [];
  }

  lemma ThreeTurns(d: Definition, w: Wave, tick: Tick)
    requires w.tasks.Keys <= Graph(d).Keys
    ensures Interleave(d, w, [tick, tick, tick]) == Turn(d, Turn(d, Turn(d, w, tick), tick), tick)
  {
    hide Turn;
    var w1 := Turn(d, w, tick);
    var w2 := Turn(d, w1, tick);
    var w3 := Turn(d, w2, tick);
    assert Interleave(d, w3, []) == w3;
    assert [tick][1..] == [] && Interleave(d, w2, [tick]) == w3;
    assert [tick, tick][1..] == [tick] && Interleave(d, w1, [tick, tick]) == w3;
    assert [tick, tick, tick][1..] == [tick, tick];
  }

  /** How the single task ends: the expired request is granted, and anything
      else asks anew. */
  function Served(approvals: seq<Request>, now: int, uuid: string): Wave {
    var st := State(map[], {}, [], approvals);
    if approvals != [] && now >= 1 then
      var r := SucceededRecord("a", AutoApproved, 0);
      Wave(Commit(st, r, true), map["a" := Task.Done(Recorded(r))])
    else
      Wave(st, map["a" := Task.Done(Suspended(Request(uuid, "a", Pending, "", "", now, Some(now + 1))))])
  }

  lemma ServedWave(approvals: seq<Request>, now: int, uuid: string)
    requires approvals == [] || approvals == [Asked("q")]
    ensures Graph(ONE_APPROVAL).Keys == {"a"}
    ensures Interleave(ONE_APPROVAL, Launch(State(map[], {}, [], approvals), ["a"]), Serve(now, uuid)) ==
              Served(approvals, now, uuid)
  {
    OnlyReady();
    var st := State(map[], {}, [], approvals);
    var w0 := Wave(st, map["a" := Waiting]);
    assert Launch(st, ["a"]) == w0;
    var tick := Tick("a", now, uuid);
    FindsAsked(approvals);
    FirstTurns(st, tick);
    LastTurn(approvals, now, uuid);
    hide *;
    ThreeTurns(ONE_APPROVAL, w0, tick);
    ServesThrice(now, uuid);
  }

  lemma ServesThrice(now: int, uuid: string)
    ensures Serve(now, uuid) == [Tick("a", now, uuid), Tick("a", now, uuid), Tick("a", now, uuid)]
  {
  }

  lemma FindsAsked(approvals: seq<Request>)
    requires approvals == [] || approvals == [Asked("q")]
    ensures FindApproval(approvals, "a") == if approvals == [] then None else Some(Asked("q"))
  {
    assert [Asked("q")][..0] == [];
  }

  lemma FirstTurns(st: State, tick: Tick)
    requires st.completed == {} && st.outputs == map[] && tick.id == "a"
    ensures Graph(ONE_APPROVAL).Keys == {"a"}
    ensures Turn(ONE_APPROVAL, Wave(st, map["a" := Waiting]), tick) == Wave(st, map["a" := Attempting(0)])
    ensures Turn(ONE_APPROVAL, Wave(st, map["a" := Attempting(0)]), tick) ==
              Wave(st, map["a" := Awaiting(0, RunAttempt(APPROVAL, map[], st.approvals, 0, tick.now, tick.uuid))])
  {
    OnlyReady();
    hide Ready, Graph, Nodes, StepOf, FindApproval, RunAttempt;
    var tasks: map<Id, Task> := map["a" := Waiting];
    assert InFlight(tasks) == {};
  }

  lemma AttemptOf(approvals: seq<Request>, now: int, uuid: string)
    requires approvals == [] || approvals == [Asked("q")]
    ensures RunAttempt(APPROVAL, map[], approvals, 0, now, uuid) ==
              if approvals != [] && now >= 1 then AttemptResult.Returned(AutoApproved)
              else AttemptResult.Paused(Request(uuid, "a", Pending, "", "", now, Some(now + 1)))
  {
    FindsAsked(approvals);
    hide FindApproval;
  }

  lemma LastTurn(approvals: seq<Request>, now: int, uuid: string)
    requires approvals == [] || approvals == [Asked("q")]
    ensures Graph(ONE_APPROVAL).Keys == {"a"}
    ensures var st := State(map[], {}, [], approvals);
            var task := Awaiting(0, RunAttempt(APPROVAL, map[], approvals, 0, now, uuid));
            Turn(ONE_APPROVAL, Wave(st, map["a" := task]), Tick("a", now, uuid)) == Served(approvals, now, uuid)
  {
    var st := State(map[], {}, [], approvals);
    var task := Awaiting(0, RunAttempt(APPROVAL, map[], approvals, 0, now, uuid));
    OnlyReady();
    AdvanceLast(approvals, now, uuid);
    hide Ready, Graph, Nodes, StepOf, FindApproval, RunAttempt, InFlight, Advance, Commit;
    var tasks: map<Id, Task> := map["a" := task];
    assert Enabled(ONE_APPROVAL, Wave(st, tasks), "a");
    assert tasks["a" := Served(approvals, now, uuid).tasks["a"]] == Served(approvals, now, uuid).tasks;
  }

  lemma AdvanceLast(approvals: seq<Request>, now: int, uuid: string)
    requires approvals == [] || approvals == [Asked("q")]
    ensures var st := State(map[], {}, [], approvals);
            var task := Awaiting(0, RunAttempt(APPROVAL, map[], approvals, 0, now, uuid));
            Advance(APPROVAL, st, task, Tick("a", now, uuid)) ==
              (Served(approvals, now, uuid).st, Served(approvals, now, uuid).tasks["a"])
  {
    AttemptOf(approvals, now, uuid);
    hide RunAttempt, FindApproval, Commit;
  }

  function Parked(approvals: seq<Request>): WorkflowRun {
    WorkflowRun(WaitingApproval, [], approvals, map[])
  }

  lemma LastWave(d: Definition, st: State, ready: seq<Id>, wave: seq<Tick>, w: Wave)
    requires ready == Ready(Nodes(d), Graph(d), st.completed) != [] && forall id :: id in ready ==> id in Graph(d)
    requires w == Interleave(d, Launch(st, ready), wave) && AllDone(w)
    ensures RunWaves(d, st, [wave]) ==
              match Scan(Results(w, ready), None)
              case RaiseFirst(e) => Aborted(w.st, e)
              case PauseOn(q) => RunEnd.Parked(w.st.(approvals := AddRequest(w.st.approvals, q)))
              case AllRecorded =>
                if Ready(Nodes(d), Graph(d), w.st.completed) == [] then Completed(w.st) else OutOfSchedule
  {
    hide Interleave, Launch, Graph, Nodes, Ready, Scan;
    assert [wave][1..] == [];
  }

  lemma ScanOne(result: TaskResult)
    ensures Scan([result], None) ==
              match result
              case Suspended(q) => PauseOn(q)
              case Raised(e) => RaiseFirst(e)
              case Recorded(_) => AllRecorded
  {
    assert [result][1..] == [];
  }

  lemma ServedRun(approvals: seq<Request>, now: int, uuid: string)
    requires approvals == [] || (approvals == [Asked("q")] && uuid != "q")
    ensures var end := RunWaves(ONE_APPROVAL, State(map[], {}, [], approvals), [Serve(now, uuid)]);
            var q := Request(uuid, "a", Pending, "", "", now, Some(now + 1));
            if approvals != [] && now >= 1
            then end == Completed(Served(approvals, now, uuid).st)
            else end == RunEnd.Parked(State(map[], {}, [], approvals + [q]))
  {
    OnlyReady();
    ServedWave(approvals, now, uuid);
    var w := Served(approvals, now, uuid);
    ScanOne(w.tasks["a"].outcome);
    assert Results(w, ["a"]) == [w.tasks["a"].outcome];
    hide Interleave, Launch, Graph, Nodes, Ready, RunWaves, Scan, Results, Serve, StepOf, RunAttempt;
    LastWave(ONE_APPROVAL, State(map[], {}, [], approvals), ["a"], Serve(now, uuid), w);
  }

  lemma CallOf(status: RunStatus, approvals: seq<Request>, waves: seq<seq<Tick>>)
    ensures RunFrom(ONE_APPROVAL, WorkflowRun(status, [], approvals, map[]), waves) ==
              match RunWaves(ONE_APPROVAL, State(map[], {}, [], approvals), waves)
              case OutOfSchedule => None
              case Completed(end) => Some(WorkflowRun(RunSucceeded, end.records, end.approvals, map[]))
              case Aborted(end, _) => Some(WorkflowRun(RunFailed, end.records, end.approvals, map[]))
              case Parked(end) => Some(WorkflowRun(WaitingApproval, end.records, end.approvals, map[]))
  {
    hide RunWaves;
  }

  const GRANTED := WorkflowRun(RunSucceeded, [SucceededRecord("a", AutoApproved, 0)], [Asked("q")], map[])

  /** The call asks first, and then grants or asks again. */
  lemma CallsOfOneApproval(uuid: string)
    requires uuid != "q"
    ensures RunFrom(ONE_APPROVAL, FRESH_RUN, [Serve(0, "q")]) == Some(Parked([Asked("q")]))
    ensures RunFrom(ONE_APPROVAL, Parked([Asked("q")]), [Serve(1, uuid)]) == Some(GRANTED)
    ensures RunFrom(ONE_APPROVAL, Parked([Asked("q")]), [Serve(0, uuid)]) ==
              Some(Parked([Asked("q"), Asked(uuid)]))
  {
    hide RunWaves, RunFrom, Serve;
    CallOf(Created, [], [Serve(0, "q")]);
    ServedRun([], 0, "q");
    assert [] + [Asked("q")] == [Asked("q")];
    CallOf(WaitingApproval, [Asked("q")], [Serve(1, uuid)]);
    ServedRun([Asked("q")], 1, uuid);
    assert [] + [SucceededRecord("a", AutoApproved, 0)] == [SucceededRecord("a", AutoApproved, 0)];
    CallOf(WaitingApproval, [Asked("q")], [Serve(0, uuid)]);
    ServedRun([Asked("q")], 0, uuid);
    assert [Asked("q")] + [Asked(uuid)] == [Asked("q"), Asked(uuid)];
  }

  /** Until the first of two calls handed the same parked run has ended. */
  function FirstEnds(uuid: string): seq<Op> {
    [HandOut, Finish(0, [Serve(0, "q")]), HandOut, HandOut, Finish(0, [Serve(1, uuid)])]
  }

  lemma FirstEndsIn(uuid: string)
    requires uuid != "q"
    ensures ApplyOps(ONE_APPROVAL, NEW_RUN, FirstEnds(uuid)) == Service(GRANTED, [Parked([Asked("q")])])
  {
    var d, parked := ONE_APPROVAL, Parked([Asked("q")]);
    var o1, o2 := Finish(0, [Serve(0, "q")]), Finish(0, [Serve(1, uuid)]);
    CallsOfOneApproval(uuid);
    hide *;
    HandsOut(d, FRESH_RUN, []);
    FinishedFirst(d, FRESH_RUN, FRESH_RUN, [Serve(0, "q")]);
    HandsOut(d, parked, []);
    HandsOut(d, parked, [parked]);
    FirstOfTwo(d, parked, parked, parked, [Serve(1, uuid)]);
    FiveOps(d, NEW_RUN, HandOut, o1, HandOut, HandOut, o2);
    assert [] + [FRESH_RUN] == [FRESH_RUN] && [] + [parked] == [parked] && [parked] + [parked] == [parked, parked];
    FirstEndsAre(uuid);
  }

  lemma FirstEndsAre(uuid: string)
    ensures FirstEnds(uuid) == [HandOut, Finish(0, [Serve(0, "q")]), HandOut, HandOut, Finish(0, [Serve(1, uuid)])]
  {
  }

  lemma HandsOut(d: Definition, run: WorkflowRun, inFlight: seq<WorkflowRun>)
    requires run == FRESH_RUN || exists approvals :: run == Parked(approvals)
    ensures ApplyOp(d, Service(run, inFlight), HandOut) == Service(run, inFlight + [run])
  {
  }

  lemma FirstOfTwo(d: Definition, run: WorkflowRun, a: WorkflowRun, b: WorkflowRun, waves: seq<seq<Tick>>)
    requires RunFrom(d, a, waves).Some?
    ensures ApplyOp(d, Service(run, [a, b]), Finish(0, waves)) == Service(RunFrom(d, a, waves).value, [b])
  {
  }

  lemma ThreeOps(d: Definition, s: Service, a: Op, b: Op, c: Op)
    ensures ApplyOps(d, s, [a, b, c]) == ApplyOp(d, ApplyOp(d, ApplyOp(d, s, a), b), c)
  {
    hide ApplyOp;
    assert ApplyOps(d, s, []) == s;
    hide ApplyOps;
    NextOp(d, s, [], a);
    NextOp(d, s, [a], b);
    NextOp(d, s, [a, b], c);
    assert [] + [a] == [a] && [a] + [b] == [a, b] && [a, b] + [c] == [a, b, c];
  }

  lemma FiveOps(d: Definition, s: Service, a: Op, b: Op, c: Op, e: Op, f: Op)
    ensures ApplyOps(d, s, [a, b, c, e, f]) ==
              ApplyOp(d, ApplyOp(d, ApplyOp(d, ApplyOp(d, ApplyOp(d, s, a), b), c), e), f)
  {
    hide *;
    ThreeOps(d, s, a, b, c);
    NextOp(d, s, [a, b, c], e);
    NextOp(d, s, [a, b, c, e], f);
    assert [a, b, c] + [e] == [a, b, c, e] && [a, b, c, e] + [f] == [a, b, c, e, f];
  }

  /** Two calls handed the same parked run: the second to end undoes what the
      first had persisted, its record and its success. */
  lemma SecondCallUndoes(uuid: string)
    requires uuid != "q"
    ensures ApplyOps(ONE_APPROVAL, NEW_RUN, FirstEnds(uuid)).run == GRANTED
    ensures var last := ApplyOps(ONE_APPROVAL, NEW_RUN, FirstEnds(uuid) + [Finish(0, [Serve(0, uuid)])]).run;
            last.status == WaitingApproval && last.stepExecutions == []
  {
    FirstEndsIn(uuid);
    CallsOfOneApproval(uuid);
    hide RunFrom, FirstEnds, Serve, ApplyOp, ApplyOps;
    NextOp(ONE_APPROVAL, NEW_RUN, FirstEnds(uuid), Finish(0, [Serve(0, uuid)]));
    FinishedFirst(ONE_APPROVAL, GRANTED, Parked([Asked("q")]), [Serve(0, uuid)]);
  }

  function Decided(who: string): Request {
    Asked("q").(status := Approved, decidedBy := who)
  }

  lemma DecidesAsked(d: Definition, run: WorkflowRun, inFlight: seq<WorkflowRun>, who: string)
    requires run.approvals == [Asked("q")]
    ensures ApplyOp(d, Service(run, inFlight), Decide("q", true, who, "")) ==
              Service(run.(approvals := [Decided(who)]), inFlight)
  {
    assert DecideRequest(run.approvals, "q", true, who, "") == [Decided(who)];
  }

  /** Hand out, park, hand out again, decide, finish. */
  function DecidesInFlight(who: string): seq<Op> {
    [HandOut, Finish(0, [Serve(0, "q")]), HandOut, Decide("q", true, who, "")]
  }

  /** The request is approved while the run is in flight, and open again when
      the call that had asked ends. */
  lemma DecisionIsLost(who: string, uuid: string)
    requires uuid != "q"
    ensures ApplyOps(ONE_APPROVAL, NEW_RUN, DecidesInFlight(who)).run.approvals == [Decided(who)]
    ensures ApplyOps(ONE_APPROVAL, NEW_RUN, DecidesInFlight(who) + [Finish(0, [Serve(0, uuid)])]).run.approvals ==
              [Asked("q"), Asked(uuid)]
  {
    var d, parked := ONE_APPROVAL, Parked([Asked("q")]);
    var o1, o2, o3 := Finish(0, [Serve(0, "q")]), Decide("q", true, who, ""), Finish(0, [Serve(0, uuid)]);
    CallsOfOneApproval(uuid);
    DecidesAsked(d, parked, [parked], who);
    var decided := parked.(approvals := [Decided(who)]);
    DecidesInFlightIs(who);
    hide *;
    HandsOut(d, FRESH_RUN, []);
    FinishedFirst(d, FRESH_RUN, FRESH_RUN, [Serve(0, "q")]);
    HandsOut(d, parked, []);
    FinishedFirst(d, decided, parked, [Serve(0, uuid)]);
    FiveOps(d, NEW_RUN, HandOut, o1, HandOut, o2, o3);
    FourOps(d, NEW_RUN, HandOut, o1, HandOut, o2);
    assert [] + [FRESH_RUN] == [FRESH_RUN] && [] + [parked] == [parked];
    assert [HandOut, o1, HandOut, o2] + [o3] == [HandOut, o1, HandOut, o2, o3];
    ParkedRequests([Asked("q"), Asked(uuid)]);
  }

  lemma ParkedRequests(approvals: seq<Request>)
    ensures Parked(approvals).approvals == approvals
  {
  }

  lemma DecidesInFlightIs(who: string)
    ensures DecidesInFlight(who) == [HandOut, Finish(0, [Serve(0, "q")]), HandOut, Decide("q", true, who, "")]
  {
  }

  lemma FourOps(d: Definition, s: Service, a: Op, b: Op, c: Op, e: Op)
    ensures ApplyOps(d, s, [a, b, c, e]) == ApplyOp(d, ApplyOp(d, ApplyOp(d, ApplyOp(d, s, a), b), c), e)
  {
    hide *;
    ThreeOps(d, s, a, b, c);
    NextOp(d, s, [a, b, c], e);
    assert [a, b, c] + [e] == [a, b, c, e];
  }
}
