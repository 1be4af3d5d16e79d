/** Finite dependency maps: walks, cycles, dependency-first orders and the
    least set of nodes that can ever run. */
module Digraph {

  type Id = string

  /** g[n] lists what n depends on, duplicates allowed. */
  type Deps = map<Id, seq<Id>>

  ghost function Elems<T>(s: seq<T>): set<T> {
    set x | x in s
  }

  ghost predicate Distinct<T>(s: seq<T>) {
    forall i, j :: 0 <= i < j < |s| ==> s[i] != s[j]
  }

  /** Where x first stands in s. */
  ghost function Rank<T>(s: seq<T>, x: T): (k: nat)
    ensures k <= |s| && (k < |s| ==> s[k] == x)
    ensures forall i :: 0 <= i < k ==> s[i] != x
  {
    if s == [] || s[0] == x then 0 else 1 + Rank(s[1..], x)
  }

  ghost predicate Closed(g: Deps) {
    forall n, d :: n in g && d in g[n] ==> d in g
  }

  /** Each element of a walk depends on the element after it. */
  ghost predicate IsWalk(g: Deps, w: seq<Id>) {
    && (forall i :: 0 <= i < |w| ==> w[i] in g)
    && (forall i :: 0 <= i < |w| - 1 ==> w[i + 1] in g[w[i]])
  }

  ghost predicate IsCycle(g: Deps, w: seq<Id>) {
    w != [] && IsWalk(g, w) && w[0] in g[w[|w| - 1]]
  }

  ghost predicate Acyclic(g: Deps) {
    forall w :: !IsCycle(g, w)
  }

  /** No repetitions, and every dependency strictly before its dependent. */
  ghost predicate DependencyFirst(g: Deps, order: seq<Id>) {
    && Distinct(order)
    && (forall i :: 0 <= i < |order| ==> order[i] in g)
    && (forall i, d :: 0 <= i < |order| && d in g[order[i]] ==> d in order[..i])
  }

  /** A dependency-first listing of all nodes. */
  ghost predicate IsTopological(g: Deps, order: seq<Id>) {
    DependencyFirst(g, order) && Elems(order) == g.Keys
  }

  ghost predicate DepsWithin(g: Deps, n: Id, s: set<Id>)
    requires n in g
  {
    forall d :: d in g[n] ==> d in s
  }

  ghost predicate DownClosed(g: Deps, s: set<Id>) {
    s <= g.Keys && forall n :: n in s ==> DepsWithin(g, n, s)
  }

  /** Nothing outside s has all its dependencies in s. */
  ghost predicate Saturated(g: Deps, s: set<Id>) {
    forall n {:trigger DepsWithin(g, n, s)} :: n in g && DepsWithin(g, n, s) ==> n in s
  }

  ghost predicate LeastSaturated(g: Deps, s: set<Id>) {
    Saturated(g, s) && forall t :: Saturated(g, t) ==> s <= t
  }

  lemma DistinctElems<T>(s: seq<T>)
    requires Distinct(s)
    ensures |Elems(s)| == |s|
  {
    if s != [] {
      var init := s[..|s| - 1];
      DistinctElems(init);
      assert Elems(s) == Elems(init) + {s[|s| - 1]};
      assert s[|s| - 1] !in init;
    } else {
      assert Elems(s) == {};
    }
  }

  lemma DistinctWithin<T>(s: seq<T>, bound: set<T>)
    requires Distinct(s) && Elems(s) <= bound
    ensures |s| <= |bound|
    ensures |s| == |bound| ==> Elems(s) == bound
  {
    DistinctElems(s);
    SubsetSize(Elems(s), bound);
  }

  lemma SubsetSize<T>(a: set<T>, b: set<T>)
    requires a <= b
    ensures |a| <= |b|
    ensures |a| == |b| ==> a == b
  {
    assert b == a + (b - a);
    assert |b| == |a| + |b - a|;
  }

  lemma WalkSuffixLoops(g: Deps, w: seq<Id>, i: nat)
    requires IsWalk(g, w) && i < |w| && w[i] in g[w[|w| - 1]]
    ensures IsCycle(g, w[i..]) && !Acyclic(g)
  {
    var c := w[i..];
    assert forall k :: 0 <= k < |c| ==> c[k] == w[i + k];
    assert IsCycle(g, c);
  }

  /** Outside a saturated set everybody waits for somebody else outside, so a
      walk that stays outside never has to stop: it closes a cycle out there. */
  lemma {:induction false} StuckHasCycle(g: Deps, done: set<Id>, w: seq<Id>) returns (c: seq<Id>)
    requires Closed(g) && Saturated(g, done)
    requires w != [] && IsWalk(g, w) && Distinct(w) && Elems(w) <= g.Keys - done
    ensures IsCycle(g, c) && Elems(c) <= g.Keys - done
    decreases |g.Keys - done| - |w|
  {
    var last := w[|w| - 1];
    assert last in Elems(w);
    assert !DepsWithin(g, last, done);
    var d :| d in g[last] && d !in done;
    if d in w {
      var i :| 0 <= i < |w| && w[i] == d;
      WalkSuffixLoops(g, w, i);
      c := w[i..];
      assert Elems(c) <= Elems(w);
    } else {
      DistinctWithin(w + [d], g.Keys - done);
      c := StuckHasCycle(g, done, w + [d]);
    }
  }

  /** Dependencies that are nodes come first; others are passed over. */
  ghost predicate KnownFirst(g: Deps, order: seq<Id>) {
    && Distinct(order)
    && (forall i :: 0 <= i < |order| ==> order[i] in g)
    && (forall i, d :: 0 <= i < |order| && d in g[order[i]] && d in g ==> d in order[..i])
  }

  lemma WalkDescends(g: Deps, order: seq<Id>, w: seq<Id>, at: seq<int>)
    requires KnownFirst(g, order) && IsWalk(g, w)
    requires |at| == |w| && forall i :: 0 <= i < |w| ==> 0 <= at[i] < |order| && order[at[i]] == w[i]
    ensures forall i :: 0 <= i < |w| ==> at[i] <= at[0] - i
  {
    if |w| > 1 {
      var k := |w| - 1;
      WalkDescends(g, order, w[..k], at[..k]);
      assert w[k] in g[order[at[k - 1]]];
    }
  }

  /** A listing of every node with its known dependencies first rules out
      cycles, dangling references or not. */
  lemma KnownListingIsAcyclic(g: Deps, order: seq<Id>)
    requires KnownFirst(g, order) && Elems(order) == g.Keys
    ensures Acyclic(g)
  {
    forall w ensures !IsCycle(g, w) {
      if IsCycle(g, w) {
        forall i | 0 <= i < |w| ensures exists k :: 0 <= k < |order| && order[k] == w[i] {
          assert w[i] in Elems(order);
        }
        var at := seq(|w|, i requires 0 <= i < |w| => var k :| 0 <= k < |order| && order[k] == w[i]; k);
        WalkDescends(g, order, w, at);
        assert false;
      }
    }
  }

  /** A dependency-first listing of every node rules out cycles and dangling
      references. */
  lemma TopologicalIsAcyclic(g: Deps, order: seq<Id>)
    requires IsTopological(g, order)
    ensures Acyclic(g) && Closed(g)
  {
    forall n, d | n in g && d in g[n] ensures d in g {
      assert n in Elems(order);
      var i :| 0 <= i < |order| && order[i] == n;
      assert d in order[..i];
      assert d in Elems(order);
    }
    KnownListingIsAcyclic(g, order);
  }

  lemma OrderExtends(g: Deps, order: seq<Id>, n: Id)
    requires DependencyFirst(g, order) && n in g && n !in order && DepsWithin(g, n, Elems(order))
    ensures DependencyFirst(g, order + [n])
    ensures Elems(order + [n]) == Elems(order) + {n}
  {
    var next := order + [n];
    forall i, d | 0 <= i < |next| && d in g[next[i]] ensures d in next[..i] {
      if i < |order| {
        assert next[..i] == order[..i];
      } else {
        assert d in Elems(order);
        assert next[..i] == order;
      }
    }
  }

  lemma SaturatedIsAll(g: Deps, done: set<Id>)
    requires Closed(g) && Acyclic(g) && Saturated(g, done) && done <= g.Keys
    ensures done == g.Keys
  {
    if n :| n in g && n !in done {
      var c := StuckHasCycle(g, done, [n]);
    }
  }

  lemma PrefixDependencyFirst(g: Deps, order: seq<Id>, k: nat)
    requires DependencyFirst(g, order) && k <= |order|
    ensures DependencyFirst(g, order[..k])
  {
    forall i, d | 0 <= i < k && d in g[order[..k][i]] ensures d in order[..k][..i] {
      assert order[..k][..i] == order[..i];
    }
  }

  /** A listing's prefix holds the dependencies of what follows it. */
  lemma ListedNext(g: Deps, order: seq<Id>, k: nat)
    requires DependencyFirst(g, order) && k < |order|
    ensures order[k] in g && order[k] !in Elems(order[..k]) && DepsWithin(g, order[k], Elems(order[..k]))
  {
  }

  /** Any dependency-first prefix of an acyclic closed map extends to a full
      topological order. */
  lemma {:induction false} ExtendOrder(g: Deps, order: seq<Id>) returns (full: seq<Id>)
    requires Acyclic(g) && Closed(g) && DependencyFirst(g, order)
    ensures IsTopological(g, full) && order <= full
    decreases |g.Keys| - |order|
  {
    assert Elems(order) <= g.Keys;
    if Saturated(g, Elems(order)) {
      SaturatedIsAll(g, Elems(order));
      full := order;
    } else {
      var n :| n in g && DepsWithin(g, n, Elems(order)) && n !in Elems(order);
      OrderExtends(g, order, n);
      DistinctWithin(order + [n], g.Keys);
      full := ExtendOrder(g, order + [n]);
    }
  }

  /** A dependency-first listing of a saturated set lists exactly the least
      saturated set: whatever else is saturated contains it. */
  lemma {:induction false} ListedAndSaturatedIsLeast(g: Deps, order: seq<Id>)
    requires DependencyFirst(g, order) && Saturated(g, Elems(order))
    ensures LeastSaturated(g, Elems(order))
  {
    forall t | Saturated(g, t) ensures Elems(order) <= t {
      for k := 0 to |order|
        invariant forall i :: 0 <= i < k ==> order[i] in t
      {
        assert DepsWithin(g, order[k], t);
      }
    }
  }

  /** The least saturated set is everything exactly when the map is closed and
      acyclic. */
  lemma {:induction false} LeastIsAllIff(g: Deps, order: seq<Id>)
    requires DependencyFirst(g, order) && Saturated(g, Elems(order))
    ensures Elems(order) == g.Keys <==> Closed(g) && Acyclic(g)
  {
    if Elems(order) == g.Keys {
      TopologicalIsAcyclic(g, order);
    }
    if Closed(g) && Acyclic(g) {
      var full := ExtendOrder(g, []);
      ListedAndSaturatedIsLeast(g, full);
      assert Elems(full) <= Elems(order);
    }
  }
}
