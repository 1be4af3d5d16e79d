/** The workflow dependency graph: Kahn's sort and the ready sets of the
    execution waves, tied to one another through the least saturated set. */
module WorkflowGraphs {
  import opened Digraph
  import opened Wrappers

  datatype StepDecl = StepDecl(id: Id, dependsOn: seq<Id>)

  function Ids(steps: seq<StepDecl>): (r: seq<Id>)
    ensures |r| == |steps|
  {
    seq(|steps|, i requires 0 <= i < |steps| => steps[i].id)
  }

  /** Entries of ds that are not yet in done, counted with repetition. */
  ghost function Pending(ds: seq<Id>, done: set<Id>): nat {
    if ds == [] then 0
    else (if ds[0] in done then 0 else 1) + Pending(ds[1..], done)
  }

  lemma {:induction false} PendingZero(ds: seq<Id>, done: set<Id>)
    ensures Pending(ds, done) == 0 <==> forall d :: d in ds ==> d in done
  {
    if ds != [] {
      PendingZero(ds[1..], done);
      assert ds == [ds[0]] + ds[1..];
    }
  }

  lemma {:induction false} PendingEmptySet(ds: seq<Id>)
    ensures Pending(ds, {}) == |ds|
  {
    if ds != [] {
      PendingEmptySet(ds[1..]);
    }
  }

  /** Finishing x lowers the count by the number of times x is listed. */
  lemma {:induction false} PendingAfter(ds: seq<Id>, done: set<Id>, x: Id)
    requires x !in done
    ensures Pending(ds, done) == Pending(ds, done + {x}) + multiset(ds)[x]
  {
    if ds != [] {
      PendingAfter(ds[1..], done, x);
      assert ds == [ds[0]] + ds[1..];
      assert multiset(ds) == multiset{ds[0]} + multiset(ds[1..]);
    }
  }

  /** Nodes outside completed whose dependencies are all completed, in
      declaration order. */
  ghost function Ready(nodes: seq<Id>, g: Deps, completed: set<Id>): seq<Id>
    requires Elems(nodes) <= g.Keys
  {
    if nodes == [] then []
    else
      var init, last := nodes[..|nodes| - 1], nodes[|nodes| - 1];
      assert last in Elems(nodes) && Elems(init) <= Elems(nodes);
      Ready(init, g, completed) + if last !in completed && DepsWithin(g, last, completed) then [last] else []
  }

  lemma {:induction false} ReadyMembers(nodes: seq<Id>, g: Deps, completed: set<Id>)
    requires Elems(nodes) <= g.Keys
    ensures forall n :: n in Ready(nodes, g, completed) <==>
              n in nodes && n in g && n !in completed && DepsWithin(g, n, completed)
    ensures Distinct(nodes) ==> Distinct(Ready(nodes, g, completed))
  {
    if nodes != [] {
      var init, last := nodes[..|nodes| - 1], nodes[|nodes| - 1];
      assert last in Elems(nodes) && Elems(init) <= Elems(nodes);
      ReadyMembers(init, g, completed);
      assert nodes == init + [last];
    }
  }

  /** What repeated waves complete, starting from completed. */
  ghost function WaveClosure(nodes: seq<Id>, g: Deps, completed: set<Id>): set<Id>
    requires Elems(nodes) == g.Keys
    decreases g.Keys - completed
  {
    var wave := Ready(nodes, g, completed);
    ReadyMembers(nodes, g, completed);
    if wave == [] then completed
    else
      assert wave[0] in Elems(wave) && wave[0] in wave;
      WaveClosure(nodes, g, completed + Elems(wave))
  }

  ghost function WaveCount(nodes: seq<Id>, g: Deps, completed: set<Id>): nat
    requires Elems(nodes) == g.Keys
    decreases g.Keys - completed
  {
    var wave := Ready(nodes, g, completed);
    ReadyMembers(nodes, g, completed);
    if wave == [] then 0
    else
      assert wave[0] in Elems(wave) && wave[0] in wave;
      1 + WaveCount(nodes, g, completed + Elems(wave))
  }

  /** No run needs more waves than it has steps left. */
  lemma {:induction false} WaveCountBound(nodes: seq<Id>, g: Deps, completed: set<Id>)
    requires Elems(nodes) == g.Keys
    ensures WaveCount(nodes, g, completed) <= |g.Keys - completed|
    decreases g.Keys - completed
  {
    var wave := Ready(nodes, g, completed);
    ReadyMembers(nodes, g, completed);
    if wave != [] {
      var next := completed + Elems(wave);
      assert wave[0] in Elems(wave) && wave[0] in wave;
      WaveCountBound(nodes, g, next);
      assert g.Keys - next < g.Keys - completed;
      SubsetSize(g.Keys - next, (g.Keys - completed) - {wave[0]});
    }
  }

  /** Waves reach the least saturated set, on cyclic and dangling graphs too. */
  lemma {:induction false} WavesReachLeast(nodes: seq<Id>, g: Deps, completed: set<Id>)
    requires Elems(nodes) == g.Keys
    requires forall t :: Saturated(g, t) ==> completed <= t
    ensures LeastSaturated(g, WaveClosure(nodes, g, completed))
    decreases g.Keys - completed
  {
    var wave := Ready(nodes, g, completed);
    ReadyMembers(nodes, g, completed);
    if wave == [] {
      forall n {:trigger DepsWithin(g, n, completed)} | n in g && DepsWithin(g, n, completed) ensures n in completed {
        assert n in Elems(nodes);
      }
    } else {
      assert wave[0] in Elems(wave) && wave[0] in wave;
      forall t | Saturated(g, t) ensures completed + Elems(wave) <= t {
        forall n | n in wave ensures n in t {
          assert DepsWithin(g, n, t);
        }
      }
      WavesReachLeast(nodes, g, completed + Elems(wave));
    }
  }

  /** Kahn's loop and the waves agree on what can run at all. */
  lemma KahnMatchesWaves(nodes: seq<Id>, g: Deps, emitted: set<Id>)
    requires Elems(nodes) == g.Keys && LeastSaturated(g, emitted)
    ensures WaveClosure(nodes, g, {}) == emitted
  {
    WavesReachLeast(nodes, g, {});
  }

  ghost function Filed(users: map<Id, seq<Id>>, d: Id): seq<Id> {
    if d in users then users[d] else []
  }

  /** The first i steps, and the first j entries of step i, are filed under
      their dependencies with multiplicity. */
  ghost predicate FiledUpTo(users: map<Id, seq<Id>>, steps: seq<StepDecl>, i: nat, j: nat)
    requires i < |steps| ==> j <= |steps[i].dependsOn|
  {
    forall d, k :: 0 <= k < |steps| ==> multiset(Filed(users, d))[steps[k].id] == FiledTimes(steps, k, d, i, j)
  }

  /** How often step k is filed under d by then. */
  ghost function FiledTimes(steps: seq<StepDecl>, k: nat, d: Id, i: nat, j: nat): nat
    requires k < |steps| && (k == i ==> j <= |steps[i].dependsOn|)
  {
    if k < i then multiset(steps[k].dependsOn)[d] else if k == i then multiset(steps[k].dependsOn[..j])[d] else 0
  }

  lemma CountAppended(s: seq<Id>, x: Id, n: Id)
    ensures multiset(s + [x])[n] == multiset(s)[n] + if n == x then 1 else 0
  {
  }

  lemma FileOne(users: map<Id, seq<Id>>, steps: seq<StepDecl>, i: nat, j: nat)
    requires Distinct(Ids(steps)) && i < |steps| && j < |steps[i].dependsOn|
    requires FiledUpTo(users, steps, i, j)
    ensures var x := steps[i].dependsOn[j];
            FiledUpTo(users[x := Filed(users, x) + [steps[i].id]], steps, i, j + 1)
  {
    var ds, x := steps[i].dependsOn, steps[i].dependsOn[j];
    var next := users[x := Filed(users, x) + [steps[i].id]];
    assert ds[..j + 1] == ds[..j] + [x];
    forall d, k | 0 <= k < |steps|
      ensures multiset(Filed(next, d))[steps[k].id] == FiledTimes(steps, k, d, i, j + 1)
    {
      assert multiset(Filed(users, d))[steps[k].id] == FiledTimes(steps, k, d, i, j);
      assert Ids(steps)[k] == steps[k].id && Ids(steps)[i] == steps[i].id;
      CountAppended(Filed(users, d), steps[i].id, steps[k].id);
      CountAppended(ds[..j], x, d);
    }
  }

  /** The dependency map of a declaration; the last of equal ids wins. */
  function DepsOf(steps: seq<StepDecl>): Deps {
    if steps == [] then map[]
    else
      var last := steps[|steps| - 1];
      DepsOf(steps[..|steps| - 1])[last.id := last.dependsOn]
  }

  /** In-degrees when the nodes of done are finished, except that the users
      in rest have not been told yet. */
  ghost predicate Degrees(g: Deps, inDegree: map<Id, int>, done: set<Id>, rest: seq<Id>) {
    && inDegree.Keys == g.Keys
    && forall n :: n in g ==> inDegree[n] == Pending(g[n], done) + multiset(rest)[n]
  }

  /** The queue lists exactly the nodes of in-degree zero. */
  ghost predicate Queued(g: Deps, inDegree: map<Id, int>, queue: seq<Id>)
    requires inDegree.Keys == g.Keys
  {
    DependencyFirst(g, queue) && forall n :: n in queue <==> n in g && inDegree[n] == 0
  }

  ghost function Blocked(inDegree: map<Id, int>): set<Id> {
    set n | n in inDegree && inDegree[n] > 0
  }

  lemma DegreesAfter(g: Deps, inDegree: map<Id, int>, done: set<Id>, x: Id, users: seq<Id>)
    requires x !in done && Degrees(g, inDegree, done, [])
    requires forall n :: n in g ==> multiset(users)[n] == multiset(g[n])[x]
    ensures Degrees(g, inDegree, done + {x}, users)
  {
    forall n | n in g ensures inDegree[n] == Pending(g[n], done + {x}) + multiset(users)[n] {
      PendingAfter(g[n], done, x);
    }
  }

  lemma DegreesTold(g: Deps, inDegree: map<Id, int>, done: set<Id>, users: seq<Id>, j: nat)
    requires j < |users| && users[j] in g && Degrees(g, inDegree, done, users[j..])
    ensures Degrees(g, inDegree[users[j] := inDegree[users[j]] - 1], done, users[j + 1..])
  {
    assert users[j..] == [users[j]] + users[j + 1..];
  }

  /** Between two steps of Kahn's algorithm: done is finished, the users in
      rest are still to be told. */
  ghost predicate KahnState(g: Deps, inDegree: map<Id, int>, done: set<Id>, rest: seq<Id>, queue: seq<Id>) {
    Degrees(g, inDegree, done, rest) && Queued(g, inDegree, queue) && forall n :: n in done ==> n in queue
  }

  lemma BeginNode(g: Deps, inDegree: map<Id, int>, done: set<Id>, queue: seq<Id>, k: nat, users: seq<Id>)
    requires k < |queue| && done == Elems(queue[..k]) && KahnState(g, inDegree, done, [], queue)
    requires forall n :: n in g ==> multiset(users)[n] == multiset(g[n])[queue[k]]
    ensures KahnState(g, inDegree, done + {queue[k]}, users, queue)
  {
    assert queue[k] !in done;
    DegreesAfter(g, inDegree, done, queue[k], users);
  }

  lemma QueueReleased(g: Deps, before: map<Id, int>, x: Id, pending: nat, queue: seq<Id>, done: set<Id>)
    requires x in g && before.Keys == g.Keys && Queued(g, before, queue)
    requires before[x] == 1 + pending + Pending(g[x], done) && forall n :: n in done ==> n in queue
    ensures var after := before[x := before[x] - 1];
            Queued(g, after, if after[x] == 0 then queue + [x] else queue)
  {
    hide DependencyFirst;
    if before[x] == 1 {
      PendingZero(g[x], done);
      OrderExtends(g, queue, x);
    }
  }

  lemma TellOne(g: Deps, inDegree: map<Id, int>, done: set<Id>, users: seq<Id>, j: nat, queue: seq<Id>)
    requires j < |users| && users[j] in g && KahnState(g, inDegree, done, users[j..], queue)
    ensures var x := users[j]; var after := inDegree[x := inDegree[x] - 1];
            KahnState(g, after, done, users[j + 1..], if after[x] == 0 then queue + [x] else queue)
  {
    hide Queued, DependencyFirst;
    var x := users[j];
    DegreesTold(g, inDegree, done, users, j);
    QueueReleased(g, inDegree, x, multiset(users[j + 1..])[x], queue, done);
  }

  /** A user whose last dependency is being told is queued now, not before. */
  lemma LastDependencyTold(g: Deps, inDegree: map<Id, int>, done: set<Id>, users: seq<Id>, j: nat, queue: seq<Id>)
    requires j < |users| && users[j] in g && KahnState(g, inDegree, done, users[j..], queue) && inDegree[users[j]] == 1
    ensures users[j] !in queue && DepsWithin(g, users[j], done)
  {
    hide DependencyFirst;
    var x := users[j];
    assert users[j..][0] == x;
    PendingZero(g[x], done);
  }

  lemma InitialQueue(g: Deps, nodes: seq<Id>, inDegree: map<Id, int>, queue: seq<Id>)
    requires g.Keys == Elems(nodes) && Distinct(queue)
    requires inDegree.Keys == g.Keys && forall n :: n in g ==> inDegree[n] == |g[n]|
    requires forall n :: n in queue <==> n in nodes && inDegree[n] == 0
    ensures KahnState(g, inDegree, {}, [], queue)
  {
    forall n | n in g ensures inDegree[n] == Pending(g[n], {}) {
      PendingEmptySet(g[n]);
    }
    forall i | 0 <= i < |queue| ensures queue[i] in g && g[queue[i]] == [] {
      assert queue[i] in queue;
      assert queue[i] in Elems(nodes);
    }
  }

  /** When the whole queue is finished it lists a saturated set. */
  lemma QueueSaturates(g: Deps, inDegree: map<Id, int>, queue: seq<Id>, done: set<Id>)
    requires KahnState(g, inDegree, done, [], queue) && done == Elems(queue)
    ensures DependencyFirst(g, queue) && Saturated(g, Elems(queue))
  {
    forall n {:trigger DepsWithin(g, n, done)} | n in g && DepsWithin(g, n, done) ensures n in done {
      PendingZero(g[n], done);
    }
  }

  lemma EmittedIsLeast(nodes: seq<Id>, g: Deps, order: seq<Id>)
    requires Elems(nodes) == g.Keys && Distinct(nodes)
    requires DependencyFirst(g, order) && Saturated(g, Elems(order))
    ensures LeastSaturated(g, Elems(order)) && Elems(order) <= g.Keys
    ensures WaveClosure(nodes, g, {}) == Elems(order)
    ensures |order| == |nodes| <==> Closed(g) && Acyclic(g)
    ensures |order| == |nodes| ==> IsTopological(g, order)
  {
    ListedAndSaturatedIsLeast(g, order);
    LeastIsAllIff(g, order);
    KahnMatchesWaves(nodes, g, Elems(order));
    DistinctElems(nodes);
    DistinctElems(order);
    SubsetSize(Elems(order), g.Keys);
  }

  // ---- the order among steps that are free to run

  /** n becomes free when the k-th listed step is finished: its dependencies
      are among the first k, and not among fewer. */
  ghost predicate FreeAt(g: Deps, order: seq<Id>, n: Id, k: nat)
    requires n in g
  {
    k <= |order| && DepsWithin(g, n, Elems(order[..k])) && (k > 0 ==> !DepsWithin(g, n, Elems(order[..k - 1])))
  }

  /** Steps are listed in the order in which they become free, and in
      declaration order among those that become free together. */
  ghost predicate Stable(nodes: seq<Id>, g: Deps, order: seq<Id>)
    requires forall n :: n in order ==> n in g
  {
    forall i, j, a, b :: 0 <= i < j < |order| && FreeAt(g, order, order[i], a) && FreeAt(g, order, order[j], b) ==>
      Earlier(nodes, order[i], a, order[j], b)
  }

  ghost predicate Earlier(nodes: seq<Id>, x: Id, a: nat, y: Id, b: nat) {
    a < b || (a == b && Rank(nodes, x) < Rank(nodes, y))
  }

  /** at[i] tells when queue[i] became free, k at the latest. */
  ghost predicate Timed(nodes: seq<Id>, g: Deps, queue: seq<Id>, at: seq<nat>, k: nat) {
    && |at| == |queue|
    && (forall i :: 0 <= i < |queue| ==> queue[i] in g && at[i] <= k && FreeAt(g, queue, queue[i], at[i]))
    && (forall i, j :: 0 <= i < j < |queue| ==> Earlier(nodes, queue[i], at[i], queue[j], at[j]))
  }

  lemma WithinMore(g: Deps, n: Id, order: seq<Id>, a: nat, b: nat)
    requires n in g && a <= b <= |order| && DepsWithin(g, n, Elems(order[..a]))
    ensures DepsWithin(g, n, Elems(order[..b]))
  {
    forall d | d in g[n] ensures d in Elems(order[..b]) {
      assert d in order[..a];
      var i :| 0 <= i < a && order[..a][i] == d;
      assert order[..b][i] == d;
    }
  }

  lemma FreeAtOnce(g: Deps, order: seq<Id>, n: Id, a: nat, b: nat)
    requires n in g && FreeAt(g, order, n, a) && FreeAt(g, order, n, b)
    ensures a == b
  {
    forall c | a <= c <= |order| ensures DepsWithin(g, n, Elems(order[..c])) {
      WithinMore(g, n, order, a, c);
    }
    forall c | b <= c <= |order| ensures DepsWithin(g, n, Elems(order[..c])) {
      WithinMore(g, n, order, b, c);
    }
  }

  lemma FreeAtGrows(g: Deps, order: seq<Id>, more: seq<Id>, n: Id, k: nat)
    requires n in g && order <= more && k <= |order|
    ensures FreeAt(g, order, n, k) <==> FreeAt(g, more, n, k)
  {
    assert order[..k] == more[..k];
    assert k > 0 ==> order[..k - 1] == more[..k - 1];
  }

  lemma TimedIsStable(nodes: seq<Id>, g: Deps, queue: seq<Id>, at: seq<nat>, k: nat)
    requires Timed(nodes, g, queue, at, k)
    ensures (forall n :: n in queue ==> n in g) && Stable(nodes, g, queue)
  {
    hide FreeAt, Earlier;
    forall i, j, a, b | 0 <= i < j < |queue| && FreeAt(g, queue, queue[i], a) && FreeAt(g, queue, queue[j], b)
      ensures Earlier(nodes, queue[i], a, queue[j], b)
    {
      FreeAtOnce(g, queue, queue[i], a, at[i]);
      FreeAtOnce(g, queue, queue[j], b, at[j]);
    }
  }

  lemma TimedAppend(nodes: seq<Id>, g: Deps, queue: seq<Id>, at: seq<nat>, k: nat, x: Id)
    requires Timed(nodes, g, queue, at, k) && x in g && FreeAt(g, queue, x, k)
    requires forall i :: 0 <= i < |queue| && at[i] == k ==> Rank(nodes, queue[i]) < Rank(nodes, x)
    ensures Timed(nodes, g, queue + [x], at + [k], k)
  {
    hide FreeAt, Rank;
    var more := queue + [x];
    forall i | 0 <= i < |more| ensures more[i] in g && FreeAt(g, more, more[i], (at + [k])[i]) {
      FreeAtBound(g, queue, more[i], (at + [k])[i]);
      FreeAtGrows(g, queue, more, more[i], (at + [k])[i]);
    }
  }

  lemma FreeAtBound(g: Deps, order: seq<Id>, n: Id, k: nat)
    requires n in g && FreeAt(g, order, n, k)
    ensures k <= |order|
  {
  }

  /** The listing is determined by the declaration: no two listings of the
      same steps are both dependency-first and stable. */
  lemma StableIsUnique(nodes: seq<Id>, g: Deps, a: seq<Id>, b: seq<Id>, p: nat)
    requires DependencyFirst(g, a) && DependencyFirst(g, b) && Elems(a) == Elems(b)
    requires Stable(nodes, g, a) && Stable(nodes, g, b) && p < |a| && p < |b| && a[..p] == b[..p]
    ensures a[p] == b[p]
  {
    if a[p] != b[p] {
      var i, q := ListedLater(g, a, b, p);
      var j, r := ListedLater(g, b, a, p);
      hide FreeAt, DependencyFirst, Stable;
      StableAt(nodes, g, a, p, r, i, j);
      StableAt(nodes, g, b, p, q, j, i);
    }
  }

  lemma StableAt(nodes: seq<Id>, g: Deps, order: seq<Id>, i: nat, j: nat, a: nat, b: nat)
    requires (forall n :: n in order ==> n in g) && Stable(nodes, g, order) && i < j < |order|
    requires FreeAt(g, order, order[i], a) && FreeAt(g, order, order[j], b)
    ensures Earlier(nodes, order[i], a, order[j], b)
  {
  }

  /** Where the listings first differ, a[p] is free at the same time in both
      and comes later in b. */
  lemma ListedLater(g: Deps, a: seq<Id>, b: seq<Id>, p: nat) returns (k: nat, q: nat)
    requires DependencyFirst(g, a) && DependencyFirst(g, b) && Elems(a) == Elems(b)
    requires p < |a| && p < |b| && a[..p] == b[..p] && a[p] != b[p]
    ensures p < q < |b| && b[q] == a[p] && a[p] in g
    ensures FreeAt(g, a, a[p], k) && FreeAt(g, b, a[p], k)
  {
    assert a[p] in Elems(a);
    q :| 0 <= q < |b| && b[q] == a[p];
    assert forall i :: 0 <= i < p ==> a[..p][i] == b[..p][i];
    k := FreeSometime(g, a, a[p], p);
    FreeAtGrows(g, a[..p], a, a[p], k);
    FreeAtGrows(g, a[..p], b, a[p], k);
  }

  lemma FreeSometime(g: Deps, order: seq<Id>, n: Id, p: nat) returns (k: nat)
    requires n in g && p <= |order| && DepsWithin(g, n, Elems(order[..p]))
    ensures k <= p && FreeAt(g, order, n, k)
  {
    k := p;
    while k > 0 && DepsWithin(g, n, Elems(order[..k - 1]))
      invariant k <= p && DepsWithin(g, n, Elems(order[..k]))
    {
      k := k - 1;
    }
  }

  /** Strictly in declaration order. */
  ghost predicate Ranked(nodes: seq<Id>, s: seq<Id>) {
    forall i, j :: 0 <= i < j < |s| ==> Rank(nodes, s[i]) < Rank(nodes, s[j])
  }

  lemma RankedIsDistinct(nodes: seq<Id>, s: seq<Id>)
    requires Ranked(nodes, s)
    ensures Distinct(s)
  {
  }

  function Zeros(n: nat): (r: seq<nat>)
    ensures |r| == n && forall i :: 0 <= i < n ==> r[i] == 0
  {
    seq(n, _ => 0)
  }

  lemma RootsAreTimed(nodes: seq<Id>, g: Deps, queue: seq<Id>)
    requires Ranked(nodes, queue) && forall i :: 0 <= i < |queue| ==> queue[i] in g && g[queue[i]] == []
    ensures Timed(nodes, g, queue, Zeros(|queue|), 0)
  {
    hide Rank;
  }

  /** While the users of queue[k] are told, times tells when each queued step
      became free; those freed now are among the users told so far. */
  ghost predicate Telling(nodes: seq<Id>, g: Deps, queue: seq<Id>, times: seq<nat>, k: nat, told: seq<Id>) {
    && k < |queue| && Timed(nodes, g, queue, times, k + 1)
    && forall i :: 0 <= i < |queue| && times[i] == k + 1 ==> queue[i] in told
  }

  lemma TellingBegins(nodes: seq<Id>, g: Deps, queue: seq<Id>, times: seq<nat>, k: nat)
    requires Timed(nodes, g, queue, times, k) && k < |queue|
    ensures Telling(nodes, g, queue, times, k, [])
  {
    hide FreeAt, Earlier;
  }

  lemma ToldInOrder(nodes: seq<Id>, users: seq<Id>, j: nat, u: Id)
    requires InOrder(nodes, users) && j < |users| && users[j] in nodes && u in users[..j] && u != users[j]
    ensures Rank(nodes, u) < Rank(nodes, users[j])
  {
    var i :| 0 <= i < j && users[..j][i] == u;
    assert Rank(nodes, users[i]) <= Rank(nodes, users[j]);
    assert nodes[Rank(nodes, users[j])] == users[j];
  }

  lemma FreedNow(g: Deps, queue: seq<Id>, k: nat, x: Id)
    requires x in g && k < |queue| && Distinct(queue) && queue[k] in g[x]
    requires DepsWithin(g, x, Elems(queue[..k + 1]))
    ensures FreeAt(g, queue, x, k + 1)
  {
    assert queue[k] !in queue[..k];
  }

  /** Telling one user keeps the times; a user that has no unfinished
      dependency left is free from now on. */
  lemma TellingGoesOn(nodes: seq<Id>, g: Deps, queue: seq<Id>, times: seq<nat>, k: nat, users: seq<Id>, j: nat,
                      free: bool)
    requires Elems(nodes) == g.Keys && Distinct(queue) && j < |users| && users[j] in g && InOrder(nodes, users)
    requires Telling(nodes, g, queue, times, k, users[..j])
    requires free ==> users[j] !in queue && queue[k] in g[users[j]] && DepsWithin(g, users[j], Elems(queue[..k + 1]))
    ensures free ==> Telling(nodes, g, queue + [users[j]], times + [k + 1], k, users[..j + 1])
    ensures !free ==> Telling(nodes, g, queue, times, k, users[..j + 1])
  {
    var x := users[j];
    assert users[..j + 1] == users[..j] + [x];
    if free {
      assert x in Elems(nodes);
      forall i | 0 <= i < |queue| && times[i] == k + 1 ensures Rank(nodes, queue[i]) < Rank(nodes, x) {
        ToldInOrder(nodes, users, j, queue[i]);
      }
      FreedNow(g, queue, k, x);
      TimedAppend(nodes, g, queue, times, k + 1, x);
    }
    hide Timed, Rank;
  }

  lemma TellingEnds(nodes: seq<Id>, g: Deps, queue: seq<Id>, times: seq<nat>, k: nat, told: seq<Id>)
    requires Telling(nodes, g, queue, times, k, told)
    ensures Timed(nodes, g, queue, times, k + 1)
  {
  }

  /** The k-th queued step has just been finished, and its users are about to
      be told. */
  ghost predicate Begun(g: Deps, inDegree: map<Id, int>, done: set<Id>, users: seq<Id>, ready: seq<Id>, k: nat) {
    && KahnState(g, inDegree, done, users, ready)
    && k < |ready| && done == Elems(ready[..k + 1])
    && forall n :: n in users ==> n in g && ready[k] in g[n]
  }

  lemma UsersAreBegun(g: Deps, inDegree: map<Id, int>, done: set<Id>, users: seq<Id>, ready: seq<Id>, k: nat)
    requires k < |ready| && done == Elems(ready[..k]) && KahnState(g, inDegree, done + {ready[k]}, users, ready)
    requires forall n :: n in users ==> n in g
    requires forall n :: n in g ==> multiset(users)[n] == multiset(g[n])[ready[k]]
    ensures Begun(g, inDegree, done + {ready[k]}, users, ready, k)
  {
    hide KahnState;
    assert Elems(ready[..k + 1]) == Elems(ready[..k]) + {ready[k]} by { assert ready[..k + 1] ==
        ready[..k] + [ready[k]]; }
    forall n | n in users ensures ready[k] in g[n] {
      assert multiset(users)[n] > 0;
    }
  }

  lemma OneMoreDone(ready: seq<Id>, k: nat)
    requires k < |ready|
    ensures Elems(ready[..k + 1]) == Elems(ready[..k]) + {ready[k]}
  {
    assert ready[..k + 1] == ready[..k] + [ready[k]];
  }

  lemma NoUsers(nodes: seq<Id>)
    ensures InOrder(nodes, [])
  {
  }

  /** Between two rounds of Kahn's loop, the first k queued steps finished. */
  ghost predicate Emitting(nodes: seq<Id>, g: Deps, inDegree: map<Id, int>, ready: seq<Id>, times: seq<nat>, k: nat) {
    && k <= |ready| && KahnState(g, inDegree, Elems(ready[..k]), [], ready)
    && Timed(nodes, g, ready, times, k)
  }

  lemma EmittingBegins(nodes: seq<Id>, g: Deps, inDegree: map<Id, int>, ready: seq<Id>)
    requires g.Keys == Elems(nodes) && Ranked(nodes, ready)
    requires inDegree.Keys == g.Keys && forall n :: n in g ==> inDegree[n] == |g[n]|
    requires forall n :: n in ready <==> n in nodes && n in inDegree && inDegree[n] == 0
    ensures Emitting(nodes, g, inDegree, ready, Zeros(|ready|), 0)
  {
    RankedIsDistinct(nodes, ready);
    InitialQueue(g, nodes, inDegree, ready);
    forall i | 0 <= i < |ready| ensures ready[i] in g && g[ready[i]] == [] {
      assert ready[i] in ready;
    }
    hide Ranked, KahnState, Timed, Rank;
    RootsAreTimed(nodes, g, ready);
    assert ready[..0] == [] && Elems(ready[..0]) == {};
  }

  lemma EmittingNext(nodes: seq<Id>, g: Deps, inDegree: map<Id, int>, ready: seq<Id>, times: seq<nat>, k: nat,
                     users: seq<Id>)
    requires Emitting(nodes, g, inDegree, ready, times, k) && k < |ready| && forall n :: n in users ==> n in g
    requires forall n :: n in g ==> multiset(users)[n] == multiset(g[n])[ready[k]]
    ensures KahnState(g, inDegree, Elems(ready[..k + 1]), users, ready) && Timed(nodes, g, ready, times, k)
    ensures Begun(g, inDegree, Elems(ready[..k + 1]), users, ready, k)
  {
    hide KahnState, Timed, Begun;
    BeginNode(g, inDegree, Elems(ready[..k]), ready, k, users);
    UsersAreBegun(g, inDegree, Elems(ready[..k]), users, ready, k);
    OneMoreDone(ready, k);
  }

  lemma EmittingAgain(nodes: seq<Id>, g: Deps, inDegree: map<Id, int>, ready: seq<Id>, times: seq<nat>, k: nat)
    requires k <= |ready| && KahnState(g, inDegree, Elems(ready[..k]), [], ready) && Timed(nodes, g, ready, times, k)
    ensures Emitting(nodes, g, inDegree, ready, times, k)
  {
  }

  lemma EmittingEnds(nodes: seq<Id>, g: Deps, inDegree: map<Id, int>, ready: seq<Id>, times: seq<nat>, k: nat)
    requires Emitting(nodes, g, inDegree, ready, times, k) && k == |ready|
    ensures DependencyFirst(g, ready) && Saturated(g, Elems(ready))
    ensures (forall n :: n in ready ==> n in g) && Stable(nodes, g, ready)
  {
    assert ready[..k] == ready;
    hide KahnState, Timed;
    QueueSaturates(g, inDegree, ready, Elems(ready));
    TimedIsStable(nodes, g, ready, times, k);
  }

  lemma TellOneTimed(nodes: seq<Id>, g: Deps, inDegree: map<Id, int>, done: set<Id>, users: seq<Id>, j: nat,
                     queue: seq<Id>, times: seq<nat>, k: nat, ready: seq<Id>)
    requires Elems(nodes) == g.Keys && j < |users| && users[j] in g && InOrder(nodes, users)
    requires KahnState(g, inDegree, done, users[j..], queue) && Telling(nodes, g, queue, times, k, users[..j])
    requires k < |ready| && ready <= queue && done == Elems(ready[..k + 1]) && ready[k] in g[users[j]]
    ensures inDegree[users[j]] == 1 ==> Telling(nodes, g, queue + [users[j]], times + [k + 1], k, users[..j + 1])
    ensures inDegree[users[j]] != 1 ==> Telling(nodes, g, queue, times, k, users[..j + 1])
  {
    var free := inDegree[users[j]] == 1;
    assert queue[..k + 1] == ready[..k + 1];
    if free {
      LastDependencyTold(g, inDegree, done, users, j, queue);
    }
    assert Distinct(queue);
    hide KahnState, Telling, InOrder, Rank;
    TellingGoesOn(nodes, g, queue, times, k, users, j, free);
  }

  /** Users of a step in declaration order, repetitions together. */
  ghost predicate InOrder(nodes: seq<Id>, users: seq<Id>) {
    forall i, j :: 0 <= i < j < |users| ==> Rank(nodes, users[i]) <= Rank(nodes, users[j])
  }

  /** The constructor's first pass: the dependency map, and nothing filed. */
  method Declared(steps: seq<StepDecl>) returns (deps: Deps, users: map<Id, seq<Id>>)
    ensures deps == DepsOf(steps) && deps.Keys == Elems(Ids(steps))
    ensures forall k :: k in users ==> users[k] == []
    ensures Distinct(Ids(steps)) ==>
              forall k :: 0 <= k < |steps| ==> Ids(steps)[k] in deps && deps[Ids(steps)[k]] == steps[k].dependsOn
  {
    deps, users := map[], map[];
    ghost var ids := Ids(steps);
    for i := 0 to |steps|
      invariant deps.Keys == Elems(ids[..i]) && deps == DepsOf(steps[..i])
      invariant forall k :: k in users ==> users[k] == []
      invariant Distinct(ids) ==> forall k :: 0 <= k < i ==> ids[k] in deps && deps[ids[k]] == steps[k].dependsOn
    {
      assert ids[..i + 1] == ids[..i] + [steps[i].id];
      assert steps[..i + 1][..i] == steps[..i];
      assert ids[i] == steps[i].id;
      deps := deps[steps[i].id := steps[i].dependsOn];
      users := users[steps[i].id := []];
    }
    assert ids[..|steps|] == ids && steps[..|steps|] == steps;
  }

  /** The constructor's second pass: each step is appended to the users of
      each of its dependencies. */
  method FileUnderDependencies(steps: seq<StepDecl>, empty: map<Id, seq<Id>>) returns (users: map<Id, seq<Id>>)
    requires forall k :: k in empty ==> empty[k] == []
    ensures forall d, n :: d in users && n in users[d] ==> n in Elems(Ids(steps))
    ensures Distinct(Ids(steps)) ==> FiledUpTo(users, steps, |steps|, 0)
    ensures Distinct(Ids(steps)) ==> forall d :: d in users ==> InOrder(Ids(steps), users[d])
  {
    hide OrderedUpTo, FiledUpTo;
    users := empty;
    OrderedEmpty(Ids(steps));
    NothingFiled(steps, users);
    for i := 0 to |steps|
      invariant forall d, n :: d in users && n in users[d] ==> n in Elems(Ids(steps))
      invariant Distinct(Ids(steps)) ==> FiledUpTo(users, steps, i, 0)
      invariant Distinct(Ids(steps)) ==> forall d :: d in users ==> OrderedUpTo(Ids(steps), users[d], i)
    {
      assert Ids(steps)[i] in Elems(Ids(steps));
      var ds := steps[i].dependsOn;
      OrderedFurther(Ids(steps), users, i);
      for j := 0 to |ds|
        invariant forall d, n :: d in users && n in users[d] ==> n in Elems(Ids(steps))
        invariant Distinct(Ids(steps)) ==> FiledUpTo(users, steps, i, j)
        invariant Distinct(Ids(steps)) ==> forall d :: d in users ==> OrderedUpTo(Ids(steps), users[d], i + 1)
      {
        if Distinct(Ids(steps)) {
          FileOne(users, steps, i, j);
          OrderedAppend(Ids(steps), Filed(users, ds[j]), i);
        }
        users := users[ds[j] := (if ds[j] in users then users[ds[j]] else []) + [steps[i].id]];
      }
      if Distinct(Ids(steps)) {
        AllOfStepFiled(steps, users, i);
      }
    }
    OrderedIsInOrder(Ids(steps), users, |steps|);
  }

  lemma NothingFiled(steps: seq<StepDecl>, users: map<Id, seq<Id>>)
    requires forall k :: k in users ==> users[k] == []
    ensures FiledUpTo(users, steps, 0, 0)
  {
  }

  lemma AllOfStepFiled(steps: seq<StepDecl>, users: map<Id, seq<Id>>, i: nat)
    requires i < |steps| && FiledUpTo(users, steps, i, |steps[i].dependsOn|)
    ensures FiledUpTo(users, steps, i + 1, 0)
  {
    var ds := steps[i].dependsOn;
    assert ds[..|ds|] == ds;
    forall d, k | 0 <= k < |steps|
      ensures FiledTimes(steps, k, d, i + 1, 0) == FiledTimes(steps, k, d, i, |ds|)
    {
    }
  }

  lemma FiledIsMultiplicity(steps: seq<StepDecl>, users: map<Id, seq<Id>>, deps: Deps)
    requires FiledUpTo(users, steps, |steps|, 0) && deps.Keys == Elems(Ids(steps))
    requires forall k :: 0 <= k < |steps| ==> Ids(steps)[k] in deps && deps[Ids(steps)[k]] == steps[k].dependsOn
    ensures forall d, n :: n in deps ==> multiset(Filed(users, d))[n] == multiset(deps[n])[d]
  {
    forall d, n | n in deps ensures multiset(Filed(users, d))[n] == multiset(deps[n])[d] {
      assert n in Ids(steps);
      var k :| 0 <= k < |steps| && Ids(steps)[k] == n;
      assert deps[Ids(steps)[k]] == steps[k].dependsOn;
    }
  }

  /** In order, and none declared at k or later. */
  ghost predicate OrderedUpTo(nodes: seq<Id>, users: seq<Id>, k: nat) {
    InOrder(nodes, users) && forall i :: 0 <= i < |users| ==> Rank(nodes, users[i]) < k
  }

  lemma OrderedEmpty(nodes: seq<Id>)
    ensures forall k: nat :: OrderedUpTo(nodes, [], k)
  {
  }

  lemma OrderedFurther(nodes: seq<Id>, users: map<Id, seq<Id>>, k: nat)
    ensures forall d :: d in users && OrderedUpTo(nodes, users[d], k) ==> OrderedUpTo(nodes, users[d], k + 1)
  {
  }

  lemma OrderedIsInOrder(nodes: seq<Id>, users: map<Id, seq<Id>>, k: nat)
    ensures forall d :: d in users && OrderedUpTo(nodes, users[d], k) ==> InOrder(nodes, users[d])
  {
  }

  lemma OrderedAppend(nodes: seq<Id>, users: seq<Id>, k: nat)
    requires Distinct(nodes) && k < |nodes| && OrderedUpTo(nodes, users, k + 1)
    ensures OrderedUpTo(nodes, users + [nodes[k]], k + 1)
  {
    assert Rank(nodes, nodes[k]) == k;
  }

  lemma LowerBlocked(inDegree: map<Id, int>, x: Id)
    requires x in inDegree
    ensures var after := inDegree[x := inDegree[x] - 1];
            |Blocked(after)| + (if after[x] == 0 then 1 else 0) <= |Blocked(inDegree)|
  {
    var after := inDegree[x := inDegree[x] - 1];
    if after[x] == 0 {
      assert Blocked(inDegree) == Blocked(after) + {x};
    } else {
      SubsetSize(Blocked(after), Blocked(inDegree));
    }
  }

  class WorkflowGraph {
    const nodes: seq<Id>
    const dependencies: Deps
    const dependents: map<Id, seq<Id>>

    /** An edge is filed under its source as often as its target lists it. */
    ghost predicate Valid() {
      && dependencies.Keys == Elems(nodes)
      && (forall d, n :: d in dependents && n in dependents[d] ==> n in dependencies)
      && (Distinct(nodes) ==> forall d, n :: n in dependencies ==>
           multiset(Filed(dependents, d))[n] == multiset(dependencies[n])[d])
      && (Distinct(nodes) ==> forall d :: d in dependents ==> InOrder(nodes, dependents[d]))
    }

    constructor (steps: seq<StepDecl>)
      ensures Valid()
      ensures nodes == Ids(steps) && dependencies == DepsOf(steps)
    {
      hide FiledUpTo, InOrder, DepsOf;
      var deps, empty := Declared(steps);
      var users := FileUnderDependencies(steps, empty);
      if Distinct(Ids(steps)) {
        FiledIsMultiplicity(steps, users, deps);
      }
      nodes, dependencies, dependents := Ids(steps), deps, users;
    }

    /** Steps without dependencies, in declaration order. */
    method Roots(inDegree: map<Id, int>) returns (ready: seq<Id>)
      requires Valid() && inDegree.Keys == dependencies.Keys
      ensures Distinct(nodes) ==> Ranked(nodes, ready)
      ensures forall n :: n in ready <==> n in nodes && n in inDegree && inDegree[n] == 0
    {
      ready := [];
      assert forall n :: n in nodes ==> n in Elems(nodes);
      for i := 0 to |nodes|
        invariant Distinct(nodes) ==> Ranked(nodes, ready) && forall n :: n in ready ==> Rank(nodes, n) < i
        invariant forall n :: n in ready <==> n in nodes[..i] && inDegree[n] == 0
      {
        assert nodes[i] in nodes;
        assert Distinct(nodes) ==> Rank(nodes, nodes[i]) == i;
        if inDegree[nodes[i]] == 0 {
          assert forall k :: 0 <= k < |ready| ==> ready[k] in ready;
          ready := ready + [nodes[i]];
        }
      }
    }

    /** Lowers the in-degree of every user of a finished step and queues those
        that reach zero. */
    method Release(inDegree: map<Id, int>, ready: seq<Id>, users: seq<Id>, ghost done: set<Id>, ghost times: seq<nat>,
                   ghost k: nat)
      returns (lowered: map<Id, int>, queue: seq<Id>, ghost freed: seq<nat>)
      requires Valid() && inDegree.Keys == dependencies.Keys
      requires forall n :: n in ready || n in users ==> n in dependencies
      ensures lowered.Keys == dependencies.Keys && ready <= queue
      ensures forall n :: n in queue ==> n in dependencies
      ensures |Blocked(lowered)| + |queue| <= |Blocked(inDegree)| + |ready|
      ensures KahnState(dependencies, inDegree, done, users, ready) ==>
                KahnState(dependencies, lowered, done, [], queue)
      ensures Begun(dependencies, inDegree, done, users, ready, k) && InOrder(nodes, users) &&
              Timed(nodes, dependencies, ready, times, k) ==>
                Timed(nodes, dependencies, queue, freed, k + 1)
    {
      hide KahnState, Timed, InOrder, Telling, DependencyFirst;
      lowered, queue, freed := inDegree, ready, times;
      ghost var timed := Begun(dependencies, inDegree, done, users, ready, k) && InOrder(nodes, users) &&
                         Timed(nodes, dependencies, ready, times, k);
      assert users[0..] == users && users[..0] == [];
      if timed {
        TellingBegins(nodes, dependencies, ready, times, k);
      }
      for j := 0 to |users|
        invariant lowered.Keys == dependencies.Keys && ready <= queue
        invariant forall n :: n in queue ==> n in dependencies
        invariant |Blocked(lowered)| + |queue| <= |Blocked(inDegree)| + |ready|
        invariant KahnState(dependencies, inDegree, done, users, ready) ==>
                    KahnState(dependencies, lowered, done, users[j..], queue)
        invariant timed ==> Telling(nodes, dependencies, queue, freed, k, users[..j])
      {
        var x := users[j];
        if timed {
          TellOneTimed(nodes, dependencies, lowered, done, users, j, queue, freed, k, ready);
        }
        if KahnState(dependencies, lowered, done, users[j..], queue) {
          TellOne(dependencies, lowered, done, users, j, queue);
        }
        LowerBlocked(lowered, x);
        lowered := lowered[x := lowered[x] - 1];
        if lowered[x] == 0 {
          queue, freed := queue + [x], freed + [k + 1];
        }
      }
      assert users[|users|..] == [] && users[..|users|] == users;
      if timed {
        TellingEnds(nodes, dependencies, queue, freed, k, users);
      }
    }

    /** Declared steps that order leaves out. */
    method LeftOver(order: seq<Id>) returns (left: seq<Id>)
      ensures Elems(left) == Elems(nodes) - Elems(order)
    {
      left := [];
      for i := 0 to |nodes|
        invariant Elems(left) == Elems(nodes[..i]) - Elems(order)
      {
        assert Elems(nodes[..i + 1]) == Elems(nodes[..i]) + {nodes[i]};
        if nodes[i] !in order {
          assert Elems(left + [nodes[i]]) == Elems(left) + {nodes[i]};
          left := left + [nodes[i]];
        }
      }
      assert nodes[..|nodes|] == nodes;
    }

    /** Kahn's loop: what it emits is dependency-first and stable, and nothing
        it leaves out could follow. */
    method Emit() returns (order: seq<Id>)
      requires Valid()
      ensures Distinct(nodes) ==> DependencyFirst(dependencies, order) && Saturated(dependencies, Elems(order))
      ensures Distinct(nodes) ==> (forall n :: n in order ==> n in dependencies) && Stable(nodes, dependencies, order)
    {
      hide KahnState, Saturated, DependencyFirst, Timed, Stable, InOrder, Ranked, Begun, Emitting;
      var inDegree: map<Id, int> := map n | n in dependencies :: |dependencies[n]|;
      var ready := Roots(inDegree);
      order := [];
      var readyIndex := 0;
      ghost var times := Zeros(|ready|);
      assert forall n :: n in nodes ==> n in Elems(nodes);
      if Distinct(nodes) {
        EmittingBegins(nodes, dependencies, inDegree, ready);
      }
      while readyIndex < |ready|
        invariant readyIndex <= |ready| && order == ready[..readyIndex]
        invariant inDegree.Keys == dependencies.Keys && forall n :: n in ready ==> n in dependencies
        invariant Distinct(nodes) ==> Emitting(nodes, dependencies, inDegree, ready, times, readyIndex)
        decreases |Blocked(inDegree)| + |ready| - readyIndex
      {
        var node := ready[readyIndex];
        var users := if node in dependents then dependents[node] else [];
        ghost var done := Elems(ready[..readyIndex + 1]);
        if Distinct(nodes) {
          assert users == Filed(dependents, node);
          NoUsers(nodes);
          EmittingNext(nodes, dependencies, inDegree, ready, times, readyIndex, users);
        }
        ghost var before := ready;
        order := order + [node];
        inDegree, ready, times := Release(inDegree, ready, users, done, times, readyIndex);
        readyIndex := readyIndex + 1;
        if Distinct(nodes) {
          assert ready[..readyIndex] == before[..readyIndex];
          EmittingAgain(nodes, dependencies, inDegree, ready, times, readyIndex);
        }
      }
      assert order == ready;
      if Distinct(nodes) {
        EmittingEnds(nodes, dependencies, inDegree, ready, times, readyIndex);
      }
    }

    /** Kahn's algorithm. It succeeds exactly on closed acyclic graphs, with the
        one topological order that is stable; on any other graph the steps it reports are those outside the least
        saturated set. */
    method TopologicalOrder() returns (r: Result<seq<Id>, seq<Id>>)
      requires Valid()
      ensures Distinct(nodes) ==> (r.Ok? <==> Closed(dependencies) && Acyclic(dependencies))
      ensures Distinct(nodes) && r.Ok? ==>
                IsTopological(dependencies, r.value) && Stable(nodes, dependencies, r.value)
      ensures Distinct(nodes) && r.Err? ==> LeastSaturated(dependencies, dependencies.Keys - Elems(r.error))
      ensures Distinct(nodes) ==>
                WaveClosure(nodes, dependencies, {}) ==
                  if r.Ok? then Elems(r.value) else dependencies.Keys - Elems(r.error)
    {
      var order := Emit();
      if Distinct(nodes) {
        EmittedIsLeast(nodes, dependencies, order);
      }
      if |order| != |nodes| {
        var cycleNodes := LeftOver(order);
        assert Distinct(nodes) ==> dependencies.Keys - Elems(cycleNodes) == Elems(order);
        return Err(cycleNodes);
      }
      return Ok(order);
    }

    /** True on every graph that cannot be sorted: on cyclic graphs, and also
        on acyclic ones with a dangling reference. */
    method HasCycle() returns (cyclic: bool)
      requires Valid()
      ensures Distinct(nodes) ==> (cyclic <==> !Acyclic(dependencies) || !Closed(dependencies))
    {
      var r := TopologicalOrder();
      return r.Err?;
    }

    method ReadySteps(completed: set<Id>) returns (ready: seq<Id>)
      requires Valid()
      ensures ready == Ready(nodes, dependencies, completed)
    {
      ready := [];
      for i := 0 to |nodes|
        invariant Elems(nodes[..i]) <= dependencies.Keys
        invariant ready == Ready(nodes[..i], dependencies, completed)
      {
        assert nodes[i] in Elems(nodes);
        assert nodes[..i + 1][..i] == nodes[..i];
        assert Elems(nodes[..i + 1]) == Elems(nodes[..i]) + {nodes[i]};
        if nodes[i] !in completed && (forall d :: d in dependencies[nodes[i]] ==> d in completed) {
          ready := ready + [nodes[i]];
        }
      }
      assert nodes[..|nodes|] == nodes;
    }

    /** Offending (step, dependency) pairs: unknown dependencies and
        self-dependencies. */
    method ValidateReferences() returns (errors: seq<(Id, Id)>)
      requires Valid()
      ensures forall n, d :: (n, d) in errors <==>
                n in dependencies && d in dependencies[n] && (d !in dependencies || d == n)
      ensures errors == [] ==> Closed(dependencies)
    {
      errors := [];
      for i := 0 to |nodes|
        invariant forall n, d :: (n, d) in errors <==>
                    n in nodes[..i] && n in dependencies && d in dependencies[n] && (d !in dependencies || d == n)
      {
        var n := nodes[i];
        assert n in Elems(nodes);
        assert nodes[..i + 1] == nodes[..i] + [n];
        ghost var before := errors;
        var ds := dependencies[n];
        for j := 0 to |ds|
          invariant forall m, d :: (m, d) in errors <==>
                      (m, d) in before || (m == n && d in ds[..j] && (d !in dependencies || d == n))
        {
          assert ds[..j + 1] == ds[..j] + [ds[j]];
          if ds[j] !in dependencies || ds[j] == n {
            errors := errors + [(n, ds[j])];
          }
        }
        assert ds[..|ds|] == ds;
      }
      assert nodes[..|nodes|] == nodes;
      if errors == [] {
        forall n, d | n in dependencies && d in dependencies[n] ensures d in dependencies {
          assert n in Elems(nodes);
          assert (n, d) !in errors;
        }
      }
    }
  }

  /** A one-step workflow with a dangling reference has no cycle, yet cannot
      be sorted. */
  lemma DanglingIsNotCyclic(a: Id, b: Id)
    requires a != b
    ensures Acyclic(map[a := [b]]) && !Closed(map[a := [b]])
  {
    var g: Deps := map[a := [b]];
    assert a in g && b in g[a] && b !in g;
    assert !Closed(g);
    assert forall w :: IsCycle(g, w) ==> w[0] in g && w[|w| - 1] in g;
  }

  /** So has_cycle answers true for it. */
  method DanglingAnswersCyclic(a: Id, b: Id) returns (cyclic: bool)
    requires a != b
    ensures cyclic && Acyclic(DepsOf([StepDecl(a, [b])]))
  {
    var steps := [StepDecl(a, [b])];
    assert steps[..0] == [] && DepsOf(steps) == map[a := [b]];
    assert Ids(steps) == [a];
    DanglingIsNotCyclic(a, b);
    var graph := new WorkflowGraph(steps);
    cyclic := graph.HasCycle();
  }
}
