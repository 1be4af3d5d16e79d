/** The three dependency-first plugin orders: two of the plugin manager and
    one of the core loader, against one depth-first post-order. */
module PluginLoadOrder {
  import opened Digraph
  import opened Wrappers

  const DEPTH_LIMIT := 20

  /** A dependency path of k edges from n that ends in a known plugin. */
  ghost predicate Deep(g: Deps, n: Id, k: nat)
    decreases k
  {
    n in g && (k == 0 || exists d :: d in g[n] && Deep(g, d, k - 1))
  }

  /** No dependency path has more than 20 edges. */
  ghost predicate Shallow(g: Deps) {
    forall n :: n in g ==> !Deep(g, n, DEPTH_LIMIT + 1)
  }

  /** Depth-first post-order from n after order; fuel bounds the height. */
  ghost function PostOrder(g: Deps, n: Id, order: seq<Id>, fuel: nat): seq<Id>
    decreases fuel, 0
  {
    if n in order || n !in g || fuel == 0 then order
    else PostOrderAll(g, g[n], order, fuel - 1) + [n]
  }

  ghost function PostOrderAll(g: Deps, ds: seq<Id>, order: seq<Id>, fuel: nat): seq<Id>
    decreases fuel, |ds| + 1
  {
    if ds == [] then order
    else PostOrder(g, ds[|ds| - 1], PostOrderAll(g, ds[..|ds| - 1], order, fuel), fuel)
  }

  /** The reference order of the plugins listed in names. */
  ghost function LoadOrder(names: seq<Id>, g: Deps): seq<Id> {
    PostOrderAll(g, names, [], DEPTH_LIMIT + 1)
  }

  lemma {:induction false} DeepPrefix(g: Deps, n: Id, k: nat)
    requires Deep(g, n, k + 1)
    ensures Deep(g, n, k)
    decreases k
  {
    if k > 0 {
      var d :| d in g[n] && Deep(g, d, k);
      DeepPrefix(g, d, k - 1);
    }
  }

  /** A walk into a deep node is deep from its start. */
  lemma {:induction false} DeepAlongWalk(g: Deps, w: seq<Id>, k: nat)
    requires w != [] && IsWalk(g, w) && Deep(g, w[|w| - 1], k)
    ensures Deep(g, w[0], k + |w| - 1)
  {
    if |w| > 1 {
      var v := w[1..];
      assert IsWalk(g, v) && v[|v| - 1] == w[|w| - 1];
      DeepAlongWalk(g, v, k);
      assert v[0] in g[w[0]];
    }
  }

  lemma {:induction false} CycleIsDeep(g: Deps, c: seq<Id>, k: nat)
    requires IsCycle(g, c)
    ensures Deep(g, c[0], k)
  {
    if k > 0 {
      CycleIsDeep(g, c, k - 1);
      assert IsWalk(g, c[1..]);
      var last := c[|c| - 1];
      assert Deep(g, last, k);
      DeepAlongWalk(g, c, k);
      DeepDown(g, c[0], k + |c| - 1, k);
    }
  }

  lemma {:induction false} DeepDown(g: Deps, n: Id, k: nat, j: nat)
    requires Deep(g, n, k) && j <= k
    ensures Deep(g, n, j)
  {
    if j < k {
      DeepPrefix(g, n, k - 1);
      DeepDown(g, n, k - 1, j);
    }
  }

  /** Bounded path length leaves no room for a cycle. */
  lemma ShallowIsAcyclic(g: Deps)
    requires Shallow(g)
    ensures Acyclic(g)
  {
    forall c ensures !IsCycle(g, c) {
      if IsCycle(g, c) {
        CycleIsDeep(g, c, DEPTH_LIMIT + 1);
        assert false;
      }
    }
  }

  datatype LoadError = TooDeep(name: Id) | UnknownPlugin(name: Id) | Circular(name: Id) | RecursionLimit

  /** Names from the outermost call down to the caller of the current one. */
  ghost predicate CallChain(g: Deps, stack: seq<Id>, name: Id) {
    IsWalk(g, stack) && Distinct(stack) && (stack != [] ==> name in g[stack[|stack| - 1]])
  }

  /** Meeting a name of the call chain again closes a cycle. */
  lemma ChainCloses(g: Deps, stack: seq<Id>, name: Id)
    requires CallChain(g, stack, name) && name in stack
    ensures !Acyclic(g)
  {
    var i :| 0 <= i < |stack| && stack[i] == name;
    WalkSuffixLoops(g, stack, i);
  }

  lemma ChainIsDeep(g: Deps, stack: seq<Id>, name: Id)
    requires CallChain(g, stack, name) && name in g && |stack| > DEPTH_LIMIT
    ensures !Shallow(g)
  {
    var w := stack + [name];
    assert IsWalk(g, w);
    assert Deep(g, name, 0);
    DeepAlongWalk(g, w, 0);
    DeepDown(g, w[0], |stack|, DEPTH_LIMIT + 1);
  }

  /** Dependency-first order, exactly the visited plugins. */
  ghost predicate OrderState(g: Deps, visited: set<Id>, order: seq<Id>) {
    visited == Elems(order) && DependencyFirst(g, order)
  }

  lemma ListsAll(g: Deps, names: seq<Id>, order: seq<Id>)
    requires Elems(names) == g.Keys && DependencyFirst(g, order)
    requires forall k :: 0 <= k < |names| ==> names[k] in order
    ensures IsTopological(g, order)
  {
  }

  lemma OrderedIsKnown(g: Deps, visited: set<Id>, order: seq<Id>)
    requires OrderState(g, visited, order)
    ensures visited <= g.Keys && visited == Elems(order)
  {
  }

  lemma OrderStateExtends(g: Deps, visited: set<Id>, order: seq<Id>, name: Id)
    requires OrderState(g, visited, order) && name in g && name !in visited
    requires forall k :: 0 <= k < |g[name]| ==> g[name][k] in order
    ensures OrderState(g, visited + {name}, order + [name])
  {
    OrderExtends(g, order, name);
  }

  /** resolve_load_order of the plugin manager. */
  class LoadOrderResolver {
    const names: seq<Id>
    const deps: Deps
    var visited: set<Id>
    var visiting: set<Id>
    var order: seq<Id>

    ghost predicate Valid()
      reads this
    {
      OrderState(deps, visited, order) && Elems(names) == deps.Keys
    }

    constructor (manifests: seq<Id>, depsByPlugin: Deps)
      requires Elems(manifests) == depsByPlugin.Keys
      ensures Valid() && names == manifests && deps == depsByPlugin
      ensures visited == {} && visiting == {} && order == []
    {
      names, deps := manifests, depsByPlugin;
      visited, visiting, order := {}, {}, [];
    }

    ghost predicate Explained(error: LoadError) {
      match error
      case TooDeep(_) => !Shallow(deps) || !Closed(deps)
      case UnknownPlugin(_) => !Closed(deps)
      case Circular(_) => !Acyclic(deps)
      case RecursionLimit => false
    }

    method Visit(name: Id, depth: nat, ghost stack: seq<Id>) returns (error: Option<LoadError>)
      requires Valid() && CallChain(deps, stack, name) && |stack| == depth <= DEPTH_LIMIT + 1
      requires visiting == Elems(stack) && visiting !! visited && (depth == 0 ==> name in deps)
      modifies this`visited, this`visiting, this`order
      ensures error.None? ==>
                && Valid() && visiting == old(visiting) && visiting !! visited
                && old(order) <= order && name in order
                && order == PostOrder(deps, name, old(order), DEPTH_LIMIT + 1 - depth)
      ensures error.Some? ==> Explained(error.value)
      ensures depth <= DEPTH_LIMIT && name in old(visited) ==> error.None?
      ensures depth < DEPTH_LIMIT && name in deps && name !in stack && DepsWithin(deps, name, old(visited)) ==>
                error.None?
      decreases DEPTH_LIMIT + 1 - depth
    {
      assert visited <= deps.Keys by { OrderedIsKnown(deps, visited, order); }
      hide DependencyFirst, Deep, Acyclic, Closed, Shallow, OrderState, CallChain;
      if depth > DEPTH_LIMIT {
        if name in deps {
          ChainIsDeep(deps, stack, name);
        }
        return Some(TooDeep(name));
      }
      if name !in deps {
        return Some(UnknownPlugin(name));
      }
      if name in visited {
        return None;
      }
      if name in visiting {
        ChainCloses(deps, stack, name);
        return Some(Circular(name));
      }
      visiting := visiting + {name};
      var ds := deps[name];
      for j := 0 to |ds|
        invariant Valid() && visiting == old(visiting) + {name} && visiting !! visited && old(order) <= order
        invariant forall k :: 0 <= k < j ==> ds[k] in order
        invariant order == PostOrderAll(deps, ds[..j], old(order), DEPTH_LIMIT - depth)
      {
        assert ds[..j + 1][..j] == ds[..j];
        error := Visit(ds[j], depth + 1, stack + [name]);
        if error.Some? {
          return;
        }
      }
      assert ds[..|ds|] == ds;
      OrderStateExtends(deps, visited, order, name);
      visiting := visiting - {name};
      visited := visited + {name};
      order := order + [name];
      return None;
    }

    /** An order lists every plugin once, dependencies first, and is the
        reference post-order; an error names a real defect of the map, and a
        closed map without long paths always gets an order. */
    method Resolve() returns (r: Result<seq<Id>, LoadError>)
      requires Valid() && visited == {} && visiting == {} && order == []
      modifies this`visited, this`visiting, this`order
      ensures r.Ok? ==> IsTopological(deps, r.value) && r.value == LoadOrder(names, deps)
      ensures r.Err? ==> Explained(r.error)
      ensures !Acyclic(deps) ==> r.Err?
      ensures Closed(deps) && Shallow(deps) ==> r.Ok?
      ensures DependencyFirst(deps, names) ==> r == Ok(names)
    {
      hide DependencyFirst, Deep, Acyclic, Closed, Shallow, IsTopological, IsCycle, Saturated;
      for i := 0 to |names|
        invariant Valid() && visiting == {}
        invariant forall k :: 0 <= k < i ==> names[k] in order
        invariant order == PostOrderAll(deps, names[..i], [], DEPTH_LIMIT + 1)
      {
        assert names[..i + 1][..i] == names[..i];
        assert names[i] in Elems(names);
        if names[i] !in visited {
          if DependencyFirst(deps, names) {
            SortedNext(deps, names, i);
          }
          var error := Visit(names[i], 0, []);
          if error.Some? {
            if Shallow(deps) {
              ShallowIsAcyclic(deps);
            }
            return Err(error.value);
          }
        }
      }
      assert names[..|names|] == names;
      ListsAll(deps, names, order);
      TopologicalIsAcyclic(deps, order);
      if DependencyFirst(deps, names) {
        SortedIsKept(deps, names, |names|);
      }
      return Ok(order);
    }
  }

  /** Names from the outermost call down, repetitions allowed. */
  ghost predicate CallPath(g: Deps, stack: seq<Id>, name: Id) {
    IsWalk(g, stack) && (stack != [] ==> name in g[stack[|stack| - 1]])
  }

  /** What follows a repeated name on the call path is one of its dependencies
      and still in progress. */
  lemma PathContinues(g: Deps, stack: seq<Id>, name: Id) returns (next: Id)
    requires CallPath(g, stack, name) && name in stack
    ensures name in g && next in g[name] && next in g && next in stack
  {
    var i :| 0 <= i < |stack| && stack[i] == name;
    next := if i + 1 < |stack| then stack[i + 1] else name;
  }

  lemma PathIsDeep(g: Deps, stack: seq<Id>, name: Id)
    requires CallPath(g, stack, name) && name in g && |stack| > DEPTH_LIMIT
    ensures !Shallow(g)
  {
    var w := stack + [name];
    assert IsWalk(g, w);
    assert Deep(g, name, 0);
    DeepAlongWalk(g, w, 0);
    DeepDown(g, w[0], |stack|, DEPTH_LIMIT + 1);
  }

  lemma KnownFirstExtends(g: Deps, order: seq<Id>, n: Id)
    requires KnownFirst(g, order) && n in g && n !in order
    requires forall d :: d in g[n] && d in g ==> d in order
    ensures KnownFirst(g, order + [n]) && Elems(order + [n]) == Elems(order) + {n}
  {
    var next := order + [n];
    forall i, d | 0 <= i < |next| && d in g[next[i]] && d in g ensures d in next[..i] {
      if i < |order| {
        assert next[..i] == order[..i];
      } else {
        assert next[..i] == order;
      }
    }
  }

  lemma KnownListing(g: Deps, names: seq<Id>, order: seq<Id>)
    requires KnownFirst(g, order) && Elems(names) == g.Keys && forall k :: 0 <= k < |names| ==> names[k] in order
    ensures Elems(order) == g.Keys
  {
    forall n | n in g.Keys ensures n in Elems(order) {
      assert n in Elems(names);
    }
  }

  /** _sort_by_deps of the plugin manager. It has no cycle check; limit is the
      interpreter's recursion limit. */
  class DependencySorter {
    const names: seq<Id>
    const deps: Deps
    const limit: nat
    var visited: set<Id>
    var order: seq<Id>

    ghost predicate Valid()
      reads this
    {
      visited == Elems(order) && KnownFirst(deps, order) && Elems(names) == deps.Keys
    }

    constructor (manifests: seq<Id>, dependencies: Deps, recursionLimit: nat)
      requires Elems(manifests) == dependencies.Keys
      ensures Valid() && names == manifests && deps == dependencies && limit == recursionLimit
      ensures visited == {} && order == []
    {
      names, deps, limit := manifests, dependencies, recursionLimit;
      visited, order := {}, [];
    }

    method Visit(name: Id, depth: nat, ghost stack: seq<Id>) returns (error: Option<LoadError>)
      requires Valid() && name in deps && CallPath(deps, stack, name) && |stack| == depth <= limit
      requires visited !! Elems(stack)
      modifies this`visited, this`order
      ensures error.None? ==>
                && Valid() && visited !! Elems(stack) && old(order) <= order && name in order
                && order == PostOrder(deps, name, old(order), limit - depth)
      ensures error.Some? && limit > DEPTH_LIMIT ==> !Shallow(deps)
      decreases limit - depth
    {
      hide KnownFirst, Deep, Closed;
      if depth == limit {
        if limit > DEPTH_LIMIT {
          PathIsDeep(deps, stack, name);
        }
        return Some(RecursionLimit);
      }
      if name in visited {
        return None;
      }
      var ds := deps[name];
      for j := 0 to |ds|
        invariant Valid() && old(order) <= order && visited !! Elems(stack + [name])
        invariant forall k :: 0 <= k < j && ds[k] in deps ==> ds[k] in order
        invariant order == PostOrderAll(deps, ds[..j], old(order), limit - depth - 1)
      {
        assert ds[..j + 1][..j] == ds[..j];
        if ds[j] in deps {
          error := Visit(ds[j], depth + 1, stack + [name]);
          if error.Some? {
            return;
          }
        }
      }
      assert ds[..|ds|] == ds;
      assert name in Elems(stack + [name]) && forall s :: s in stack ==> s in Elems(stack + [name]);
      if name in stack {
        var next := PathContinues(deps, stack, name);
      }
      KnownFirstExtends(deps, order, name);
      visited := visited + {name};
      order := order + [name];
      return None;
    }

    /** On success every plugin is listed once after its known dependencies;
        every cyclic map exhausts the recursion limit instead. */
    method Sort() returns (r: Result<seq<Id>, LoadError>)
      requires Valid() && visited == {} && order == []
      modifies this`visited, this`order
      ensures r.Ok? ==> KnownFirst(deps, r.value) && Elems(r.value) == deps.Keys
      ensures !Acyclic(deps) ==> r == Err(RecursionLimit)
      ensures Closed(deps) && Shallow(deps) && limit > DEPTH_LIMIT ==> r == Ok(LoadOrder(names, deps))
    {
      hide KnownFirst, Deep, Acyclic;
      for i := 0 to |names|
        invariant Valid()
        invariant forall k :: 0 <= k < i ==> names[k] in order
        invariant order == PostOrderAll(deps, names[..i], [], limit)
      {
        assert names[..i + 1][..i] == names[..i];
        assert names[i] in Elems(names);
        var error := Visit(names[i], 0, []);
        if error.Some? {
          return Err(RecursionLimit);
        }
      }
      assert names[..|names|] == names;
      KnownListing(deps, names, order);
      KnownListingIsAcyclic(deps, order);
      if Shallow(deps) && limit > DEPTH_LIMIT {
        assert forall n :: n in names ==> n in Elems(names);
        FuelIsEnoughAll(deps, names, [], DEPTH_LIMIT + 1, limit);
      }
      return Ok(order);
    }
  }

  lemma {:induction false} FuelIsEnough(g: Deps, n: Id, order: seq<Id>, fuel: nat, more: nat)
    requires !Deep(g, n, fuel) && fuel <= more
    ensures PostOrder(g, n, order, fuel) == PostOrder(g, n, order, more)
    decreases fuel, 0
  {
    if n in g && n !in order {
      assert Deep(g, n, 0);
      assert forall d :: d in g[n] ==> !Deep(g, d, fuel - 1);
      FuelIsEnoughAll(g, g[n], order, fuel - 1, more - 1);
    }
  }

  lemma {:induction false} FuelIsEnoughAll(g: Deps, ds: seq<Id>, order: seq<Id>, fuel: nat, more: nat)
    requires (forall d :: d in ds ==> !Deep(g, d, fuel)) && fuel <= more
    ensures PostOrderAll(g, ds, order, fuel) == PostOrderAll(g, ds, order, more)
    decreases fuel, |ds| + 1
  {
    if ds != [] {
      var k := |ds| - 1;
      FuelIsEnoughAll(g, ds[..k], order, fuel, more);
      FuelIsEnough(g, ds[k], PostOrderAll(g, ds[..k], order, fuel), fuel, more);
    }
  }

  /** The core loader's state: a name counts as visited from the moment its
      visit begins. */
  ghost predicate EntryState(visited: set<Id>, order: seq<Id>, open: set<Id>) {
    visited == Elems(order) + open && Elems(order) !! open && Distinct(order)
  }

  lemma EntryNotOpen(visited: set<Id>, order: seq<Id>, stack: seq<Id>, name: Id)
    requires EntryState(visited, order, Elems(stack)) && name !in visited
    ensures name !in stack
  {
    assert name in stack ==> name in Elems(stack);
  }

  /** A chain without repetitions needs as many plugins. */
  lemma ChainIsLong(g: Deps, stack: seq<Id>, name: Id)
    requires CallChain(g, stack, name) && name in g && name !in stack
    ensures |g| >= |stack| + 1
  {
    DistinctWithin(stack + [name], g.Keys);
    assert |g.Keys| == |g|;
  }

  lemma EntryOpens(visited: set<Id>, order: seq<Id>, stack: seq<Id>, name: Id)
    requires EntryState(visited, order, Elems(stack)) && name !in visited
    ensures EntryState(visited + {name}, order, Elems(stack + [name])) && name !in stack
  {
    assert Elems(stack + [name]) == Elems(stack) + {name};
  }

  lemma EntryCloses(visited: set<Id>, order: seq<Id>, stack: seq<Id>, name: Id)
    requires EntryState(visited, order, Elems(stack + [name])) && name !in stack
    ensures EntryState(visited, order + [name], Elems(stack)) && name !in order
  {
    assert name in Elems(stack + [name]);
    assert Elems(stack + [name]) == Elems(stack) + {name};
    assert Elems(order + [name]) == Elems(order) + {name};
  }

  /** On an acyclic map a visited dependency is already listed, not still open. */
  lemma VisitedIsListed(g: Deps, visited: set<Id>, order: seq<Id>, stack: seq<Id>, name: Id, dep: Id)
    requires CallChain(g, stack, name) && name in g && name !in stack && dep in g[name] && Acyclic(g)
    requires EntryState(visited, order, Elems(stack + [name])) && dep in visited
    ensures dep in order
  {
    if dep in stack + [name] {
      ChainCloses(g, stack + [name], dep);
    }
  }

  /** _resolve_load_order of the core loader. */
  class CoreLoader {
    const names: seq<Id>
    const deps: Deps
    var visited: set<Id>
    var order: seq<Id>

    constructor (discovered: seq<Id>, dependencies: Deps)
      requires Elems(discovered) == dependencies.Keys
      ensures names == discovered && deps == dependencies && visited == {} && order == []
    {
      names, deps := discovered, dependencies;
      visited, order := {}, [];
    }

    method Visit(name: Id, depth: nat, ghost stack: seq<Id>) returns (error: Option<LoadError>)
      requires CallChain(deps, stack, name) && |stack| == depth <= DEPTH_LIMIT + 1
      requires EntryState(visited, order, Elems(stack)) && name !in visited && (Closed(deps) ==> name in deps)
      modifies this
      ensures error.None? ==>
                && EntryState(visited, order, Elems(stack))
                && old(order) <= order && name in order
      ensures error.None? && Closed(deps) && Acyclic(deps) && DependencyFirst(deps, old(order)) ==>
                && DependencyFirst(deps, order)
                && order == PostOrder(deps, name, old(order), DEPTH_LIMIT + 1 - depth)
      ensures error.None? && Closed(deps) && Elems(old(order)) <= deps.Keys ==> Elems(order) <= deps.Keys
      ensures error.Some? ==> error.value.TooDeep? && (!Shallow(deps) || !Closed(deps))
      ensures error.Some? && Closed(deps) ==> |deps| > DEPTH_LIMIT + 1
      decreases DEPTH_LIMIT + 1 - depth
    {
      EntryNotOpen(visited, order, stack, name);
      hide EntryState, DependencyFirst, Acyclic, Deep;
      if depth > DEPTH_LIMIT {
        if name in deps {
          ChainIsDeep(deps, stack, name);
          ChainIsLong(deps, stack, name);
        }
        return Some(TooDeep(name));
      }
      EntryOpens(visited, order, stack, name);
      visited := visited + {name};
      if name in deps {
        var ds := deps[name];
        for j := 0 to |ds|
          invariant EntryState(visited, order, Elems(stack + [name])) && old(order) <= order
          invariant Closed(deps) && Elems(old(order)) <= deps.Keys ==> Elems(order) <= deps.Keys
          invariant Closed(deps) && Acyclic(deps) && DependencyFirst(deps, old(order)) ==>
                      && DependencyFirst(deps, order)
                      && (forall k :: 0 <= k < j ==> ds[k] in order)
                      && order == PostOrderAll(deps, ds[..j], old(order), DEPTH_LIMIT - depth)
        {
          assert ds[..j + 1][..j] == ds[..j];
          if ds[j] !in visited {
            error := Visit(ds[j], depth + 1, stack + [name]);
            if error.Some? {
              return;
            }
          } else if Acyclic(deps) {
            VisitedIsListed(deps, visited, order, stack, name, ds[j]);
          }
        }
        assert ds[..|ds|] == ds;
      }
      EntryCloses(visited, order, stack, name);
      if name in deps && Closed(deps) && Acyclic(deps) && DependencyFirst(deps, old(order)) {
        OrderExtends(deps, order, name);
      }
      order := order + [name];
      return None;
    }

    /** An order lists every plugin once. The loader has no cycle check: what
        it returns is dependency-first exactly when the map is acyclic, and up
        to 21 plugins it always returns something. */
    method Resolve() returns (r: Result<seq<Id>, LoadError>)
      requires visited == {} && order == [] && Elems(names) == deps.Keys
      modifies this
      ensures Closed(deps) && r.Ok? ==> Distinct(r.value) && Elems(r.value) == deps.Keys
      ensures Closed(deps) && r.Ok? ==> (IsTopological(deps, r.value) <==> Acyclic(deps))
      ensures r.Err? ==> r.error.TooDeep? && (!Shallow(deps) || !Closed(deps))
      ensures Closed(deps) && Shallow(deps) ==> r == Ok(LoadOrder(names, deps))
      ensures Closed(deps) && |deps| <= DEPTH_LIMIT + 1 ==> r.Ok?
    {
      assert DependencyFirst(deps, []);
      hide DependencyFirst, Deep, Acyclic;
      for i := 0 to |names|
        invariant EntryState(visited, order, Elems([]))
        invariant forall k :: 0 <= k < i ==> names[k] in order
        invariant Closed(deps) ==> Elems(order) <= deps.Keys
        invariant Closed(deps) && Acyclic(deps) ==>
                    DependencyFirst(deps, order) && order == PostOrderAll(deps, names[..i], [], DEPTH_LIMIT + 1)
      {
        assert names[..i + 1][..i] == names[..i];
        assert names[i] in Elems(names);
        if names[i] !in visited {
          var error := Visit(names[i], 0, []);
          if error.Some? {
            return Err(error.value);
          }
        }
      }
      assert names[..|names|] == names;
      if Shallow(deps) {
        ShallowIsAcyclic(deps);
      }
      if IsTopological(deps, order) {
        TopologicalIsAcyclic(deps, order);
      }
      return Ok(order);
    }

    /** The check load_all runs first. */
    method ValidateDependencies() returns (missing: Option<(Id, Id)>)
      requires Elems(names) == deps.Keys
      ensures missing.None? <==> Closed(deps)
      ensures missing.Some? ==>
                missing.value.0 in deps && missing.value.1 in deps[missing.value.0] && missing.value.1 !in deps
    {
      for i := 0 to |names|
        invariant forall k, d :: 0 <= k < i && d in deps[names[k]] ==> d in deps
      {
        assert names[i] in Elems(names);
        var ds := deps[names[i]];
        for j := 0 to |ds|
          invariant forall k :: 0 <= k < j ==> ds[k] in deps
        {
          if ds[j] !in deps {
            return Some((names[i], ds[j]));
          }
        }
      }
      forall n, d | n in deps && d in deps[n] ensures d in deps {
        assert n in Elems(names);
      }
      return None;
    }
  }

  /** Two plugins that depend on each other: the core loader returns an order
      all the same, and no order of them is dependency-first. */
  method CyclicPairIsOrdered(a: Id, b: Id) returns (r: Result<seq<Id>, LoadError>)
    requires a != b
    ensures r.Ok? && Elems(r.value) == {a, b} && !IsTopological(map[a := [b], b := [a]], r.value)
  {
    var g: Deps := map[a := [b], b := [a]];
    assert IsWalk(g, [a, b]) && IsCycle(g, [a, b]);
    assert g.Keys == {a, b} && |g| == |g.Keys|;
    assert Elems([a, b]) == g.Keys;
    var core := new CoreLoader([a, b], g);
    r := core.Resolve();
  }

  /** On every closed map without a path of more than 20 edges the three
      algorithms return the identical sequence. */
  method ResolveAllWays(names: seq<Id>, g: Deps, recursionLimit: nat)
    returns (byManager: Result<seq<Id>, LoadError>, bySorter: Result<seq<Id>, LoadError>,
             byCore: Result<seq<Id>, LoadError>)
    requires Elems(names) == g.Keys && recursionLimit > DEPTH_LIMIT
    ensures Closed(g) && Shallow(g) ==> byManager == bySorter == byCore == Ok(LoadOrder(names, g))
  {
    var manager := new LoadOrderResolver(names, g);
    byManager := manager.Resolve();
    var sorter := new DependencySorter(names, g, recursionLimit);
    bySorter := sorter.Sort();
    var core := new CoreLoader(names, g);
    byCore := core.Resolve();
  }

  lemma {:induction false} PostOrderSound(g: Deps, n: Id, order: seq<Id>, fuel: nat)
    requires Closed(g) && Acyclic(g) && n in g && DependencyFirst(g, order) && !Deep(g, n, fuel)
    ensures DependencyFirst(g, PostOrder(g, n, order, fuel)) && n in PostOrder(g, n, order, fuel)
    ensures order <= PostOrder(g, n, order, fuel)
    ensures forall m :: m in PostOrder(g, n, order, fuel) ==> m in order || ReachedFrom(g, n, m)
    decreases fuel, 0
  {
    assert Deep(g, n, 0);
    if n !in order {
      SelfReached(g, n);
      assert forall d :: d in g[n] ==> d in g && !Deep(g, d, fuel - 1);
      hide ReachedFrom, DependencyFirst, Deep, Acyclic, IsWalk, IsCycle;
      PostOrderAllSound(g, g[n], order, fuel - 1);
      var inner := PostOrderAll(g, g[n], order, fuel - 1);
      if n in inner {
        var d :| d in g[n] && ReachedFrom(g, d, n);
        LoopBack(g, n, d);
      }
      OrderExtends(g, inner, n);
      forall m | m in inner && m !in order ensures ReachedFrom(g, n, m) {
        var d :| d in g[n] && ReachedFrom(g, d, m);
        ReachThrough(g, n, d, m);
      }
    }
  }

  lemma SelfReached(g: Deps, n: Id)
    requires n in g
    ensures ReachedFrom(g, n, n)
  {
    assert IsWalk(g, [n]);
  }

  ghost predicate ReachedFrom(g: Deps, n: Id, m: Id) {
    exists w :: w != [] && IsWalk(g, w) && w[0] == n && w[|w| - 1] == m
  }

  lemma LoopBack(g: Deps, n: Id, d: Id)
    requires n in g && d in g[n] && ReachedFrom(g, d, n)
    ensures !Acyclic(g)
  {
    var w :| w != [] && IsWalk(g, w) && w[0] == d && w[|w| - 1] == n;
    assert IsCycle(g, w);
  }

  lemma ReachThrough(g: Deps, n: Id, d: Id, m: Id)
    requires n in g && d in g[n] && ReachedFrom(g, d, m)
    ensures ReachedFrom(g, n, m)
  {
    var w :| w != [] && IsWalk(g, w) && w[0] == d && w[|w| - 1] == m;
    var v := [n] + w;
    assert forall i :: 0 <= i < |w| ==> v[i + 1] == w[i];
    assert IsWalk(g, v);
  }

  lemma {:induction false} PostOrderAllSound(g: Deps, ds: seq<Id>, order: seq<Id>, fuel: nat)
    requires Closed(g) && Acyclic(g) && DependencyFirst(g, order)
    requires forall d :: d in ds ==> d in g && !Deep(g, d, fuel)
    ensures DependencyFirst(g, PostOrderAll(g, ds, order, fuel)) && order <= PostOrderAll(g, ds, order, fuel)
    ensures forall d :: d in ds ==> d in PostOrderAll(g, ds, order, fuel)
    ensures forall m :: m in PostOrderAll(g, ds, order, fuel) ==>
              m in order || exists d :: d in ds && ReachedFrom(g, d, m)
    decreases fuel, |ds| + 1
  {
    hide DependencyFirst, Acyclic, Deep, ReachedFrom, Closed;
    if ds != [] {
      var k := |ds| - 1;
      var sofar := PostOrderAll(g, ds[..k], order, fuel);
      PostOrderAllSound(g, ds[..k], order, fuel);
      PostOrderSound(g, ds[k], sofar, fuel);
      hide PostOrder;
      assert forall d :: d in ds ==> d == ds[k] || d in ds[..k];
      assert PostOrderAll(g, ds, order, fuel) == PostOrder(g, ds[k], sofar, fuel);
    }
  }

  lemma ListedKnown(g: Deps, order: seq<Id>)
    requires DependencyFirst(g, order) && forall n :: n in g ==> n in order
    ensures IsTopological(g, order)
  {
  }

  /** The common order is dependency-first and complete. */
  lemma LoadOrderIsTopological(names: seq<Id>, g: Deps)
    requires Elems(names) == g.Keys && Closed(g) && Shallow(g)
    ensures IsTopological(g, LoadOrder(names, g))
  {
    ShallowIsAcyclic(g);
    assert forall n :: n in names <==> n in Elems(names);
    assert forall n :: n in names ==> n in g && !Deep(g, n, DEPTH_LIMIT + 1);
    assert DependencyFirst(g, []);
    hide Deep, Acyclic, Closed, Shallow, DependencyFirst, PostOrderAll, ReachedFrom;
    PostOrderAllSound(g, names, [], DEPTH_LIMIT + 1);
    var order := LoadOrder(names, g);
    assert forall n :: n in g ==> n in order;
    ListedKnown(g, order);
  }

  /** A listing that is already dependency-first is kept as it is, however
      long its paths. */
  lemma {:induction false} SortedIsKept(g: Deps, names: seq<Id>, k: nat)
    requires DependencyFirst(g, names) && k <= |names|
    ensures PostOrderAll(g, names[..k], [], DEPTH_LIMIT + 1) == names[..k]
  {
    if k > 0 {
      SortedIsKept(g, names, k - 1);
      assert names[..k][..k - 1] == names[..k - 1];
      var ds := g[names[k - 1]];
      assert forall d :: d in ds ==> d in names[..k - 1];
      AllListed(g, ds, names[..k - 1], DEPTH_LIMIT);
      assert names[k - 1] !in names[..k - 1];
    }
  }

  lemma SortedNext(g: Deps, names: seq<Id>, k: nat)
    requires DependencyFirst(g, names) && k < |names|
    ensures var order := PostOrderAll(g, names[..k], [], DEPTH_LIMIT + 1);
            names[k] in g && names[k] !in Elems(order) && DepsWithin(g, names[k], Elems(order))
  {
    SortedIsKept(g, names, k);
    ListedNext(g, names, k);
  }

  lemma {:induction false} AllListed(g: Deps, ds: seq<Id>, order: seq<Id>, fuel: nat)
    requires forall d :: d in ds ==> d in order
    ensures PostOrderAll(g, ds, order, fuel) == order
  {
    if ds != [] {
      AllListed(g, ds[..|ds| - 1], order, fuel);
    }
  }
}
