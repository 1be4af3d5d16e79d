/** Wave-parallel execution refines running the steps one by one. */
module WorkflowRefinement {
  import opened Digraph
  import opened Wrappers
  import opened WorkflowGraphs
  import opened WorkflowModel
  import opened WorkflowWaves
  import opened WorkflowRuns
  import opened WorkflowEquivalence

  /** The reference: steps one at a time in the given order, each judged on
      the outputs so far, stopping at the first that pauses or aborts. */
  ghost function RunOneByOne(d: Definition, order: seq<Id>, st: State): Option<State>
    requires Elems(order) <= Graph(d).Keys
  {
    if order == [] then Some(st)
    else
      assert order[0] in Elems(order) && Elems(order[1..]) <= Elems(order);
      match Judge(StepOf(d, order[0]), st.outputs, st.approvals, 0)
      case Commits(r) => RunOneByOne(d, order[1..], Commit(st, r, r.status == Succeeded))
      case _ => None
  }

  lemma {:induction false} JudgeFromRecord(step: Step, o: Outputs, approvals: seq<Request>, now: int, k: nat)
    requires k <= Retries(step)
    ensures var v := JudgeFrom(step, o, approvals, now, k);
            v.Commits? ==> v.record.stepId == step.id && (v.record.status == Skipped ==> v.record.output == Null)
    decreases Retries(step) - k
  {
    if k < Retries(step) {
      JudgeFromRecord(step, o, approvals, now, k + 1);
    }
  }

  lemma CommitJudged(d: Definition, st: State, id: Id, r: StepExecution)
    requires ReadsAncestorsOnly(d) && Faithful(d, st) && AllDecided(st.approvals)
    requires ReadyToRun(Graph(d), st, id) && Judge(StepOf(d, id), st.outputs, st.approvals, 0) == Commits(r)
    ensures var next := Commit(st, r, r.status == Succeeded);
            Faithful(d, next) && Grows(st, next) && RecordIds(next.records) == RecordIds(st.records) + [id]
  {
    JudgeFromRecord(StepOf(d, id), st.outputs, st.approvals, 0, 0);
    assert r.stepId == id;
    var next := Commit(st, r, r.status == Succeeded);
    hide Faithful, Judge, DependencyFirst;
    assert Safe(Graph(d), st) by { FaithfulIsSafe(d, st); }
    CommitSafe(Graph(d), st, r, r.status == Succeeded);
    hide Safe, Grows;
    AppendFaithful(d, st, next, r);
    assert RecordIds(next.records) == RecordIds(st.records) + [id];
  }

  lemma FaithfulIsSafe(d: Definition, st: State)
    requires Faithful(d, st)
    ensures Safe(Graph(d), st)
  {
  }

  /** After k steps of a dependency-first order the next one is ready. */
  lemma NextIsReady(g: Deps, order: seq<Id>, k: nat, st: State)
    requires DependencyFirst(g, order) && k < |order|
    requires Safe(g, st) && RecordIds(st.records) == order[..k]
    ensures ReadyToRun(g, st, order[k])
  {
    ListedNext(g, order, k);
  }

  lemma {:induction false} OneByOneFaithful(d: Definition, order: seq<Id>, k: nat, st: State)
    requires ReadsAncestorsOnly(d) && Faithful(d, st) && AllDecided(st.approvals)
    requires DependencyFirst(Graph(d), order) && k <= |order| && RecordIds(st.records) == order[..k]
    requires Elems(order[k..]) <= Graph(d).Keys
    ensures var r := RunOneByOne(d, order[k..], st);
            r.Some? ==> Faithful(d, r.value) && Grows(st, r.value) && RecordIds(r.value.records) == order
    ensures (exists sol :: Solution(d, sol) && sol.approvals == st.approvals) ==> RunOneByOne(d, order[k..], st).Some?
    decreases |order| - k
  {
    hide Faithful, Grows, Safe, Judge, DependencyFirst, Saturated;
    if k == |order| {
      GrowsReflexive(st);
    } else {
      var id := order[k];
      assert order[k..][0] == id && order[k..][1..] == order[k + 1..];
      FaithfulIsSafe(d, st);
      NextIsReady(Graph(d), order, k, st);
      if sol :| Solution(d, sol) && sol.approvals == st.approvals {
        ReadyCommits(d, st, sol, id);
      }
      match Judge(StepOf(d, id), st.outputs, st.approvals, 0)
      case Commits(r) =>
        CommitJudged(d, st, id, r);
        var next := Commit(st, r, r.status == Succeeded);
        assert order[..k + 1] == order[..k] + [id];
        assert Elems(order[k + 1..]) <= Elems(order[k..]);
        OneByOneFaithful(d, order, k + 1, next);
        if RunOneByOne(d, order[k + 1..], next).Some? {
          GrowsTransitive(st, next, RunOneByOne(d, order[k + 1..], next).value);
        }
      case _ =>
    }
  }

  /** In a run from scratch the store holds exactly the successes. */
  lemma WrittenExactly(g: Deps, approvals: seq<Request>, st: State)
    requires Safe(g, st) && Grows(Start(approvals), st)
    ensures forall id :: id in st.outputs <==> exists r :: r in st.records && r.stepId == id && r.status == Succeeded
  {
    forall id | id in st.outputs ensures exists r :: r in st.records && r.stepId == id && r.status == Succeeded {
      var r := RecordOf(g, st, id);
      assert r.status == Succeeded;
    }
  }

  lemma SameStores(d: Definition, approvals: seq<Request>, a: State, b: State)
    requires ReadsAncestorsOnly(d) && Solution(d, a) && Solution(d, b)
    requires Grows(Start(approvals), a) && Grows(Start(approvals), b)
    ensures a.outputs == b.outputs && a.completed == b.completed && SameRecords(a.records, b.records)
  {
    FaithfulIsSafe(d, a);
    FaithfulIsSafe(d, b);
    hide *;
    SolutionsCoincide(d, a, b);
    WrittenExactly(Graph(d), approvals, a);
    WrittenExactly(Graph(d), approvals, b);
    SameViewSameStore(a, b);
  }

  lemma SameViewSameStore(a: State, b: State)
    requires SameRecords(a.records, b.records) && forall id :: Get(a.outputs, id) == Get(b.outputs, id)
    requires forall id :: id in a.outputs <==> exists r :: r in a.records && r.stepId == id && r.status == Succeeded
    requires forall id :: id in b.outputs <==> exists r :: r in b.records && r.stepId == id && r.status == Succeeded
    ensures a.outputs == b.outputs
  {
    assert forall id :: id in a.outputs <==> id in b.outputs;
    forall id | id in a.outputs ensures a.outputs[id] == b.outputs[id] {
      assert Get(a.outputs, id) == Get(b.outputs, id);
    }
  }

  /** Wave-parallel execution refines sequential execution. Take any order
      that lists, dependencies first, what can run at all (on an acyclic graph
      the result of topological_order is one). If running it one by one meets
      no pause and no abort, every schedule of every wave that ends the run
      completes it with the same steps, records, stored outputs and declared
      outputs; and if any schedule completes the run, so does one by one. */
  lemma ParallelIsSequential(d: Definition, approvals: seq<Request>, order: seq<Id>, waves: seq<seq<Tick>>)
    requires ReadsAncestorsOnly(d) && AllDecided(approvals)
    requires DependencyFirst(Graph(d), order) && Saturated(Graph(d), Elems(order)) && Elems(order) <= Graph(d).Keys
    ensures var par, one := RunWaves(d, Start(approvals), waves), RunOneByOne(d, order, Start(approvals));
            && (one.Some? ==> par.Completed? || par.OutOfSchedule?)
            && (par.Completed? ==>
                  && one.Some?
                  && par.st.completed == one.value.completed == Elems(order)
                  && par.st.outputs == one.value.outputs
                  && SameRecords(par.st.records, one.value.records)
                  && DeclaredOutputs(d.outputs, par.st.outputs) == DeclaredOutputs(d.outputs, one.value.outputs))
  {
    var start := Start(approvals);
    StartFaithful(d, approvals);
    assert order[0..] == order && RecordIds(start.records) == order[..0];
    hide Faithful, Grows, DependencyFirst, Saturated;
    OneByOneFaithful(d, order, 0, start);
    RunWavesFaithful(d, start, waves);
    var par, one := RunWaves(d, start, waves), RunOneByOne(d, order, start);
    if one.Some? {
      ListedSolution(d, one.value, order);
    }
    if par.Completed? {
      assert Solution(d, par.st) && par.st.approvals == start.approvals;
      assert one.Some?;
      SameStores(d, approvals, par.st, one.value);
    }
    if one.Some? {
      GrowsKeepsRecords(start, one.value);
    }
  }

  lemma ListedSolution(d: Definition, st: State, order: seq<Id>)
    requires Faithful(d, st) && RecordIds(st.records) == order && Saturated(Graph(d), Elems(order))
    ensures Solution(d, st) && st.completed == Elems(order)
  {
  }

  lemma TopologicalIsSaturated(g: Deps, order: seq<Id>)
    requires IsTopological(g, order)
    ensures DependencyFirst(g, order) && Saturated(g, Elems(order)) && Elems(order) <= g.Keys
  {
  }

  /** On an acyclic graph with resolved references: if running the steps in
      topological order meets no abort and no pause, some schedule ends the
      wave-parallel run, and any that does completes every step. */
  lemma ParallelRunsExist(d: Definition, approvals: seq<Request>, order: seq<Id>) returns (waves: seq<seq<Tick>>)
    requires ReadsAncestorsOnly(d) && AllDecided(approvals) && d.maxConcurrency >= 1
    requires IsTopological(Graph(d), order) && RunOneByOne(d, order, Start(approvals)).Some?
    ensures RunWaves(d, Start(approvals), waves).Completed?
    ensures RunWaves(d, Start(approvals), waves).st.completed == Graph(d).Keys
    ensures RunWaves(d, Start(approvals), waves).st.outputs == RunOneByOne(d, order, Start(approvals)).value.outputs
  {
    assert Elems(order) == Graph(d).Keys;
    hide *;
    StartFaithful(d, approvals);
    FaithfulIsSafe(d, Start(approvals));
    TopologicalIsSaturated(Graph(d), order);
    waves := RunCanEnd(d, Start(approvals));
    ParallelIsSequential(d, approvals, order, waves);
  }
}
