/** Steps, approvals and what one step does with the outputs it can see. */
module WorkflowModel {
  import opened Digraph
  import opened Wrappers
  import opened WorkflowGraphs

  /** JSON-safe values; only approvals and null are told apart. */
  datatype Value = Null | Data(json: string) | Decision(approved: bool, decidedBy: string, note: string) | AutoApproved

  type Outputs = map<Id, Value>

  /** OutputStore.get: an absent output reads as null. */
  function Get(o: Outputs, id: Id): Value {
    if id in o then o[id] else Null
  }

  ghost predicate AgreeOn(o: Outputs, p: Outputs, s: set<Id>) {
    forall id :: id in s ==> Get(o, id) == Get(p, id)
  }

  datatype ApprovalStatus = Pending | Approved | Rejected | TimedOut

  datatype Request = Request(requestId: string, stepId: Id, status: ApprovalStatus, decidedBy: string, note: string,
                             createdAt: int, expiresAt: Option<int>)

  datatype AutoDecision = AutoApprove | AutoReject | TimeoutFail

  datatype ErrorPolicy = Abort | Skip | Retry | Ignore

  datatype LeafResult = Returns(value: Value) | Fails(message: string)

  /** Collaborator-backed executors are a function of the outputs they can
      read and the attempt number. */
  datatype Executor =
    | Leaf(run: (Outputs, nat) -> LeafResult)
    | Approval(auto: AutoDecision, timeout: Option<nat>)

  /** condition yields None when the expression cannot be parsed. */
  datatype Step = Step(id: Id, dependsOn: seq<Id>, condition: Option<Outputs -> Option<bool>>,
                       executor: Executor, maxRetries: nat, errorPolicy: ErrorPolicy)

  datatype OutputDecl = OutputDecl(name: string, source: Outputs -> Value)

  datatype Definition = Definition(steps: seq<Step>, maxConcurrency: nat, outputs: seq<OutputDecl>)

  datatype RecordStatus = Succeeded | Skipped

  datatype StepExecution = StepExecution(stepId: Id, status: RecordStatus, output: Value,
                                         error: Option<string>, retriesConsumed: nat)

  function Decls(steps: seq<Step>): (r: seq<StepDecl>)
    ensures |r| == |steps|
  {
    seq(|steps|, i requires 0 <= i < |steps| => StepDecl(steps[i].id, steps[i].dependsOn))
  }

  function Nodes(d: Definition): (r: seq<Id>)
    ensures |r| == |d.steps| && forall i :: 0 <= i < |r| ==> r[i] == d.steps[i].id
  {
    seq(|d.steps|, i requires 0 <= i < |d.steps| => d.steps[i].id)
  }

  function Lookup(steps: seq<Step>): (m: map<Id, Step>)
    ensures m.Keys == set i | 0 <= i < |steps| :: steps[i].id
    ensures forall id :: id in m ==> m[id].id == id && m[id] in steps
  {
    if steps == [] then map[]
    else
      var last := steps[|steps| - 1];
      Lookup(steps[..|steps| - 1])[last.id := last]
  }

  function StepOf(d: Definition, id: Id): Step
    requires id in Graph(d)
  {
    Lookup(d.steps)[id]
  }

  function Graph(d: Definition): (g: Deps)
    ensures g.Keys == Lookup(d.steps).Keys
    ensures g.Keys == Elems(Nodes(d))
  {
    var m := Lookup(d.steps);
    assert forall id :: id in Nodes(d) <==> exists i :: 0 <= i < |d.steps| && d.steps[i].id == id;
    map id | id in m :: m[id].dependsOn
  }

  /** The most recent request of a step; the first one among equals. */
  function FindApproval(approvals: seq<Request>, id: Id): (r: Option<Request>)
    ensures r.Some? ==> r.value in approvals && r.value.stepId == id
  {
    if approvals == [] then None
    else
      var best, a := FindApproval(approvals[..|approvals| - 1], id), approvals[|approvals| - 1];
      if a.stepId == id && (best.None? || a.createdAt > best.value.createdAt) then Some(a) else best
  }

  datatype AttemptResult = Returned(value: Value) | Failed(message: string) | Paused(request: Request)

  /** One call of the step's executor. uuid is the generated request id. */
  function RunAttempt(step: Step, o: Outputs, approvals: seq<Request>, k: nat, now: int, uuid: string): AttemptResult {
    match step.executor
    case Leaf(run) =>
      (match run(o, k)
       case Returns(v) => Returned(v)
       case Fails(m) => Failed(m))
    case Approval(auto, timeout) =>
      var found := FindApproval(approvals, step.id);
      if found.Some? && found.value.status != Pending then
        Returned(Decision(found.value.status == Approved, found.value.decidedBy, found.value.note))
      else if found.Some? && found.value.expiresAt.Some? && now >= found.value.expiresAt.value then
        if auto == AutoApprove then Returned(AutoApproved) else Failed("approval expired")
      else
        var expiry := if timeout.Some? then Some(now + timeout.value) else None;
        Paused(Request(uuid, step.id, Pending, "", "", now, expiry))
  }

  /** The i-th request is the step's most recent one, and the first of those. */
  ghost predicate IsLatest(approvals: seq<Request>, id: Id, i: nat)
    requires i < |approvals|
  {
    && approvals[i].stepId == id
    && (forall k :: 0 <= k < |approvals| && approvals[k].stepId == id ==>
          approvals[k].createdAt <= approvals[i].createdAt)
    && (forall k :: 0 <= k < i && approvals[k].stepId == id ==> approvals[k].createdAt < approvals[i].createdAt)
  }

  /** The selected request is the most recent one of the step, and there is none
      only if the step has no request. */
  lemma {:induction false} FindsLatest(approvals: seq<Request>, id: Id) returns (i: nat)
    ensures FindApproval(approvals, id).None? <==> forall k :: 0 <= k < |approvals| ==> approvals[k].stepId != id
    ensures FindApproval(approvals, id).Some? ==>
              i < |approvals| && IsLatest(approvals, id, i) && FindApproval(approvals, id) == Some(approvals[i])
  {
    i := 0;
    if approvals != [] {
      var k := |approvals| - 1;
      i := FindsLatest(approvals[..k], id);
      if approvals[k].stepId == id && FindApproval(approvals, id) != FindApproval(approvals[..k], id) {
        i := k;
      }
    }
  }

  lemma FindAppended(approvals: seq<Request>, q: Request)
    requires forall k :: 0 <= k < |approvals| ==> approvals[k].stepId != q.stepId
    ensures FindApproval(approvals + [q], q.stepId) == Some(q)
  {
    var i := FindsLatest(approvals, q.stepId);
    assert (approvals + [q])[..|approvals|] == approvals;
  }

  /** The life of an undecided request: the first attempt of the step asks and
      pauses; later ones ask again until the request's time is over, and then
      approve or fail as the step says. */
  lemma RequestLifecycle(step: Step, o: Outputs, approvals: seq<Request>, k: nat, now: int, uuid: string, later: int)
    requires step.executor.Approval? && forall i :: 0 <= i < |approvals| ==> approvals[i].stepId != step.id
    ensures var asked, timeout := RunAttempt(step, o, approvals, k, now, uuid), step.executor.timeout;
            && asked.Paused? && asked.request.requestId == uuid && asked.request.status == Pending
            && var again := RunAttempt(step, o, approvals + [asked.request], k, later, uuid);
            && (again.Paused? <==> timeout.None? || later < now + timeout.value)
            && (again == Returned(AutoApproved) <==>
                timeout.Some? && later >= now + timeout.value && step.executor.auto == AutoApprove)
            && (again.Failed? <==>
                timeout.Some? && later >= now + timeout.value && step.executor.auto != AutoApprove)
  {
    var i := FindsLatest(approvals, step.id);
    FindAppended(approvals, RunAttempt(step, o, approvals, k, now, uuid).request);
  }

  function ShouldRun(step: Step, o: Outputs): bool {
    match step.condition
    case None => true
    case Some(c) => c(o) != Some(false)
  }

  function Retries(step: Step): nat {
    if step.errorPolicy == Retry && step.maxRetries == 0 then 1 else step.maxRetries
  }

  function SucceededRecord(id: Id, v: Value, k: nat): StepExecution {
    StepExecution(id, Succeeded, v, None, k)
  }

  function GatedRecord(id: Id): StepExecution {
    StepExecution(id, Skipped, Null, None, 0)
  }

  /** What a step comes to once all its retries are played out on o. */
  datatype Verdict = Commits(record: StepExecution) | Pauses | Aborts(message: string)

  ghost function Exhausted(step: Step, m: string): Verdict {
    match step.errorPolicy
    case Skip => Commits(StepExecution(step.id, Skipped, Null, Some(m), Retries(step)))
    case Ignore => Commits(StepExecution(step.id, Succeeded, Null, Some(m), Retries(step)))
    case _ => Aborts(m)
  }

  ghost function JudgeFrom(step: Step, o: Outputs, approvals: seq<Request>, now: int, k: nat): Verdict
    requires k <= Retries(step)
    decreases Retries(step) - k
  {
    match RunAttempt(step, o, approvals, k, now, "")
    case Returned(v) => Commits(SucceededRecord(step.id, v, k))
    case Paused(_) => Pauses
    case Failed(m) => if k < Retries(step) then JudgeFrom(step, o, approvals, now, k + 1) else Exhausted(step, m)
  }

  ghost function Judge(step: Step, o: Outputs, approvals: seq<Request>, now: int): Verdict {
    if ShouldRun(step, o) then JudgeFrom(step, o, approvals, now, 0) else Commits(GatedRecord(step.id))
  }

  /** Attempt j is the first one that does not fail. */
  ghost predicate FirstReturn(run: (Outputs, nat) -> LeafResult, o: Outputs, j: nat) {
    run(o, j).Returns? && forall k: nat :: k < j ==> run(o, k).Fails?
  }

  /** The attempts of a step whose condition lets it run: the first that returns
      counts, if it is among the first max_retries + 1; under the retry policy
      there are at least two. When none of them returns, skip and ignore record
      a null output, and the other policies abort the run. */
  lemma RetriesPlayOut(step: Step, o: Outputs, approvals: seq<Request>, now: int, j: nat)
    requires step.executor.Leaf? && FirstReturn(step.executor.run, o, j)
    requires step.condition.Some? ==> step.condition.value(o) != Some(false)
    ensures var verdict := Judge(step, o, approvals, now);
            if j <= step.maxRetries || (j == 1 && step.errorPolicy == Retry) then
              verdict == Commits(StepExecution(step.id, Succeeded, step.executor.run(o, j).value, None, j))
            else
              match step.errorPolicy
              case Skip => verdict.Commits? && verdict.record.status == Skipped && verdict.record.output == Null
              case Ignore => verdict.Commits? && verdict.record.status == Succeeded && verdict.record.output == Null
              case _ => verdict.Aborts?
  {
    RetriesFrom(step, o, approvals, now, j, 0);
  }

  lemma {:induction false} RetriesFrom(step: Step, o: Outputs, approvals: seq<Request>, now: int, j: nat, k: nat)
    requires step.executor.Leaf? && FirstReturn(step.executor.run, o, j) && k <= j && k <= Retries(step)
    ensures JudgeFrom(step, o, approvals, now, k) ==
              if j <= Retries(step) then Commits(SucceededRecord(step.id, step.executor.run(o, j).value, j))
              else Exhausted(step, step.executor.run(o, Retries(step)).message)
    decreases Retries(step) - k
  {
    if k < j && k < Retries(step) {
      RetriesFrom(step, o, approvals, now, j, k + 1);
    }
  }

  /** A step is recorded as skipped without an attempt exactly when its condition
      can be evaluated and is false; one that cannot be parsed lets it run. */
  lemma GatedIff(step: Step, o: Outputs, approvals: seq<Request>, now: int)
    ensures Judge(step, o, approvals, now) == Commits(StepExecution(step.id, Skipped, Null, None, 0)) <==>
              step.condition.Some? && step.condition.value(o) == Some(false)
  {
    if ShouldRun(step, o) {
      NeverGated(step, o, approvals, now, 0);
    }
  }

  lemma {:induction false} NeverGated(step: Step, o: Outputs, approvals: seq<Request>, now: int, k: nat)
    requires k <= Retries(step)
    ensures JudgeFrom(step, o, approvals, now, k) != Commits(GatedRecord(step.id))
    decreases Retries(step) - k
  {
    if k < Retries(step) {
      NeverGated(step, o, approvals, now, k + 1);
    }
  }

  ghost function Ancestors(g: Deps, n: Id): set<Id> {
    set m | m in g && exists w :: IsWalk(g, w) && |w| > 1 && w[0] == n && w[|w| - 1] == m
  }

  /** Conditions and executors read no outputs but those of transitive dependencies. */
  ghost predicate ReadsAncestorsOnly(d: Definition) {
    forall n, o, p :: n in Graph(d) && AgreeOn(o, p, Ancestors(Graph(d), n)) ==> SameBehaviour(StepOf(d, n), o, p)
  }

  ghost predicate SameBehaviour(step: Step, o: Outputs, p: Outputs) {
    && ShouldRun(step, o) == ShouldRun(step, p)
    && (step.executor.Leaf? ==> forall k: nat :: step.executor.run(o, k) == step.executor.run(p, k))
  }

  lemma {:induction false} WalkStaysWithin(g: Deps, s: set<Id>, w: seq<Id>)
    requires DownClosed(g, s) && IsWalk(g, w) && |w| > 1 && DepsWithin(g, w[0], s)
    ensures w[|w| - 1] in s
  {
    if |w| > 2 {
      assert IsWalk(g, w[1..]);
      WalkStaysWithin(g, s, w[1..]);
    }
  }

  /** A dependency-closed set holding the direct dependencies of a step holds
      all it may read. */
  lemma SameWithin(d: Definition, n: Id, s: set<Id>, o: Outputs, p: Outputs)
    requires ReadsAncestorsOnly(d) && n in Graph(d)
    requires DownClosed(Graph(d), s) && DepsWithin(Graph(d), n, s) && AgreeOn(o, p, s)
    ensures SameBehaviour(StepOf(d, n), o, p)
  {
    forall m | m in Ancestors(Graph(d), n) ensures m in s {
      var w :| IsWalk(Graph(d), w) && |w| > 1 && w[0] == n && w[|w| - 1] == m;
      WalkStaysWithin(Graph(d), s, w);
    }
    assert AgreeOn(o, p, Ancestors(Graph(d), n));
  }

  lemma {:induction false} SameJudgeFrom(step: Step, o: Outputs, p: Outputs, approvals: seq<Request>, now: int, k: nat)
    requires SameBehaviour(step, o, p) && k <= Retries(step)
    ensures JudgeFrom(step, o, approvals, now, k) == JudgeFrom(step, p, approvals, now, k)
    decreases Retries(step) - k
  {
    if k < Retries(step) {
      SameJudgeFrom(step, o, p, approvals, now, k + 1);
    }
  }

  ghost predicate AllDecided(approvals: seq<Request>) {
    forall i :: 0 <= i < |approvals| ==> approvals[i].status != Pending
  }

  /** Two attempts see the same result up to the content of a new request. */
  ghost predicate SameAttempt(a: AttemptResult, b: AttemptResult) {
    a == b || (a.Paused? && b.Paused?)
  }

  lemma DecidedIsTimeless(step: Step, o: Outputs, approvals: seq<Request>, k: nat, now: int, now': int, f: string,
                          f': string)
    requires AllDecided(approvals)
    ensures SameAttempt(RunAttempt(step, o, approvals, k, now, f), RunAttempt(step, o, approvals, k, now', f'))
  {
  }

  lemma {:induction false} JudgeFromIsTimeless(step: Step, o: Outputs, approvals: seq<Request>, now: int, now': int,
                                               k: nat)
    requires AllDecided(approvals) && k <= Retries(step)
    ensures JudgeFrom(step, o, approvals, now, k) == JudgeFrom(step, o, approvals, now', k)
    decreases Retries(step) - k
  {
    DecidedIsTimeless(step, o, approvals, k, now, now', "", "");
    if k < Retries(step) {
      JudgeFromIsTimeless(step, o, approvals, now, now', k + 1);
    }
  }
}
