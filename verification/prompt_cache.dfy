/** The prompt cache: a map with access stamps that refines a recency list. */
module PromptCaching {
  import opened Wrappers

  type Hash = string

  /** An entry as the recency list sees it. */
  datatype Item = Item(hash: Hash, provider: string, value: string, createdAt: real, ttl: Option<real>)

  predicate IsExpired(x: Item, now: real) {
    x.ttl.Some? && now - x.createdAt > x.ttl.value
  }

  // ---- the recency list, least recently used first

  function Find(items: seq<Item>, h: Hash): (i: nat)
    ensures i <= |items| && (i < |items| ==> items[i].hash == h)
    ensures forall k :: 0 <= k < i ==> items[k].hash != h
  {
    if items == [] then 0 else if items[0].hash == h then 0 else 1 + Find(items[1..], h)
  }

  predicate Has(items: seq<Item>, h: Hash) {
    Find(items, h) < |items|
  }

  function Without(items: seq<Item>, h: Hash): seq<Item> {
    var i := Find(items, h);
    if i < |items| then items[..i] + items[i + 1..] else items
  }

  function WithoutProvider(items: seq<Item>, p: string): seq<Item> {
    if items == [] then []
    else WithoutProvider(items[..|items| - 1], p) + if items[|items| - 1].provider == p then []
        else [items[|items| - 1]]
  }

  datatype Spec = Spec(items: seq<Item>, enabled: bool)

  datatype Op = Get(hash: Hash, now: real) | Put(item: Item) | Invalidate(hash: Hash)
                | InvalidateProvider(provider: string)
              | Clear | Enable | Disable

  function Hit(s: Spec, op: Op): (r: Option<string>) {
    if op.Get? && s.enabled && Find(s.items, op.hash) < |s.items| && !IsExpired(s.items[Find(s.items, op.hash)], op.now)
    then Some(s.items[Find(s.items, op.hash)].value) else None
  }

  function Evict(maxSize: int, items: seq<Item>): seq<Item> {
    if |items| >= maxSize && items != [] then items[1..] else items
  }

  function Apply(maxSize: int, s: Spec, op: Op): Spec {
    match op
    case Get(h, now) =>
      var i := Find(s.items, h);
      if !s.enabled || i == |s.items| then s
      else if IsExpired(s.items[i], now) then s.(items := Without(s.items, h))
      else s.(items := Without(s.items, h) + [s.items[i]])
    case Put(x) =>
      if !s.enabled then s else s.(items := Without(Evict(maxSize, s.items), x.hash) + [x])
    case Invalidate(h) => s.(items := Without(s.items, h))
    case InvalidateProvider(p) => s.(items := WithoutProvider(s.items, p))
    case Clear => s.(items := [])
    case Enable => s.(enabled := true)
    case Disable => s.(enabled := false)
  }

  ghost function Run(maxSize: int, ops: seq<Op>): Spec {
    if ops == [] then Spec([], true)
    else Apply(maxSize, Run(maxSize, ops[..|ops| - 1]), ops[|ops| - 1])
  }

  ghost predicate Unique(items: seq<Item>) {
    forall i, j :: 0 <= i < j < |items| ==> items[i].hash != items[j].hash
  }

  lemma WithoutAt(items: seq<Item>, h: Hash)
    ensures var i, r := Find(items, h), Without(items, h);
            if i == |items| then r == items
            else |r| == |items| - 1 && forall k :: 0 <= k < |r| ==> r[k] == items[if k < i then k else k + 1]
  {
    hide Find;
  }

  lemma WithoutUnique(items: seq<Item>, h: Hash)
    requires Unique(items)
    ensures Unique(Without(items, h))
  {
    WithoutAt(items, h);
    hide Without, Find;
  }

  lemma WithoutKeeps(items: seq<Item>, h: Hash)
    requires Unique(items)
    ensures Unique(Without(items, h))
    ensures forall x :: x in Without(items, h) <==> x in items && x.hash != h
    ensures |Without(items, h)| == |items| - if Find(items, h) < |items| then 1 else 0
  {
    WithoutUnique(items, h);
    WithoutAt(items, h);
    hide Without, Unique, Find;
    forall x ensures x in Without(items, h) <==> x in items && x.hash != h {
    }
  }

  lemma {:induction false} WithoutProviderKeeps(items: seq<Item>, p: string)
    requires Unique(items)
    ensures Unique(WithoutProvider(items, p)) && |WithoutProvider(items, p)| <= |items|
    ensures forall x :: x in WithoutProvider(items, p) <==> x in items && x.provider != p
  {
    if items != [] {
      WithoutProviderKeeps(items[..|items| - 1], p);
      assert items == items[..|items| - 1] + [items[|items| - 1]];
    }
  }

  function Bound(maxSize: int): nat {
    if maxSize >= 1 then maxSize else 1
  }

  lemma ApplyBounded(maxSize: int, s: Spec, op: Op)
    requires Unique(s.items) && |s.items| <= Bound(maxSize)
    ensures Unique(Apply(maxSize, s, op).items) && |Apply(maxSize, s, op).items| <= Bound(maxSize)
  {
    match op
    case Get(h, _) => WithoutKeeps(s.items, h);
    case Put(x) => WithoutKeeps(Evict(maxSize, s.items), x.hash);
    case Invalidate(h) => WithoutKeeps(s.items, h);
    case InvalidateProvider(p) => WithoutProviderKeeps(s.items, p);
    case _ =>
  }

  /** The cache never holds more than max_size entries, or one when max_size
      is not positive. */
  lemma {:induction false} SizeBound(maxSize: int, ops: seq<Op>)
    ensures Unique(Run(maxSize, ops).items) && |Run(maxSize, ops).items| <= Bound(maxSize)
  {
    hide Apply;
    if ops != [] {
      SizeBound(maxSize, ops[..|ops| - 1]);
      ApplyBounded(maxSize, Run(maxSize, ops[..|ops| - 1]), ops[|ops| - 1]);
    }
  }

  /** A cache whose max_size is not positive holds exactly what was put last. */
  lemma NonPositiveSizeKeepsOne(maxSize: int, ops: seq<Op>, x: Item)
    requires maxSize <= 0 && Run(maxSize, ops).enabled
    ensures Run(maxSize, ops + [Put(x)]).items == [x]
  {
    SizeBound(maxSize, ops);
    assert (ops + [Put(x)])[..|ops|] == ops;
    var items := Run(maxSize, ops).items;
    assert Evict(maxSize, items) == [];
  }

  /** The item of the last put of h that reached the enabled cache. */
  ghost function LatestPut(maxSize: int, ops: seq<Op>, h: Hash): Option<Item> {
    if ops == [] then None
    else
      var op := ops[|ops| - 1];
      if op.Put? && op.item.hash == h && Run(maxSize, ops[..|ops| - 1]).enabled then Some(op.item)
      else LatestPut(maxSize, ops[..|ops| - 1], h)
  }

  /** Only a put brings an item in. */
  lemma NothingNew(maxSize: int, s: Spec, op: Op)
    requires Unique(s.items)
    ensures forall x :: x in Apply(maxSize, s, op).items ==> x in s.items || (op.Put? && s.enabled && x == op.item)
    ensures op.Put? && s.enabled ==> forall x :: x in Apply(maxSize, s, op).items && x.hash == op.item.hash ==>
              x == op.item
  {
    match op
    case Get(h, _) => WithoutKeeps(s.items, h);
    case Put(x) => WithoutKeeps(Evict(maxSize, s.items), x.hash);
    case Invalidate(h) => WithoutKeeps(s.items, h);
    case InvalidateProvider(p) => WithoutProviderKeeps(s.items, p);
    case _ =>
  }

  /** Whatever the cache holds under a hash is what was last put there; so a
      hit returns the value of the latest put. */
  lemma {:induction false} HoldsLatestPut(maxSize: int, ops: seq<Op>, x: Item)
    requires x in Run(maxSize, ops).items
    ensures LatestPut(maxSize, ops, x.hash) == Some(x)
  {
    hide Apply;
    var init, op := ops[..|ops| - 1], ops[|ops| - 1];
    var s := Run(maxSize, init);
    SizeBound(maxSize, init);
    NothingNew(maxSize, s, op);
    if !(op.Put? && op.item.hash == x.hash && s.enabled) {
      HoldsLatestPut(maxSize, init, x);
    }
  }

  lemma HitReturnsLatestPut(maxSize: int, ops: seq<Op>, get: Op)
    requires Hit(Run(maxSize, ops), get).Some?
    ensures LatestPut(maxSize, ops, get.hash).Some?
    ensures Hit(Run(maxSize, ops), get).value == LatestPut(maxSize, ops, get.hash).value.value
  {
    var s := Run(maxSize, ops);
    HoldsLatestPut(maxSize, ops, s.items[Find(s.items, get.hash)]);
  }

  lemma FindsHeld(items: seq<Item>, x: Item)
    requires Unique(items) && x in items
    ensures Find(items, x.hash) < |items| && items[Find(items, x.hash)] == x
  {
    var i :| 0 <= i < |items| && items[i] == x;
    assert Find(items, x.hash) == i;
  }

  /** An entry that is held is hit until its time to live is over, that instant
      included; one without a time to live always. A read after that misses and
      drops it. */
  lemma HitUntilExpiry(maxSize: int, ops: seq<Op>, x: Item, now: real)
    requires Run(maxSize, ops).enabled && x in Run(maxSize, ops).items
    ensures var get := Get(x.hash, now);
            && (Hit(Run(maxSize, ops), get) == Some(x.value) <==>
                x.ttl.None? || now <= x.createdAt + x.ttl.value)
            && (Has(Run(maxSize, ops + [get]).items, x.hash) <==> Hit(Run(maxSize, ops), get).Some?)
  {
    var s, get := Run(maxSize, ops), Get(x.hash, now);
    SizeBound(maxSize, ops);
    FindsHeld(s.items, x);
    WithoutKeeps(s.items, x.hash);
    assert (ops + [get])[..|ops|] == ops;
    hide Without, Unique, Run, Find;
    HasMember(Apply(maxSize, s, get).items, x.hash);
    assert Find(s.items, x.hash) < |s.items| && s.items[Find(s.items, x.hash)] == x;
  }

  /** The op puts h, or gets it with a hit. */
  ghost predicate Touches(s: Spec, op: Op, h: Hash) {
    (op.Put? && s.enabled && op.item.hash == h) || (op.Get? && op.hash == h && Hit(s, op).Some?)
  }

  /** How many operations had been applied when h was last touched. */
  ghost function LastTouch(maxSize: int, ops: seq<Op>, h: Hash): nat {
    if ops == [] then 0
    else if Touches(Run(maxSize, ops[..|ops| - 1]), ops[|ops| - 1], h) then |ops|
    else LastTouch(maxSize, ops[..|ops| - 1], h)
  }

  lemma {:induction false} TouchedBefore(maxSize: int, ops: seq<Op>, h: Hash)
    ensures LastTouch(maxSize, ops, h) <= |ops|
  {
    if ops != [] {
      TouchedBefore(maxSize, ops[..|ops| - 1], h);
    }
  }

  // ---- order

  /** The keys of the items grow along the list. */
  ghost predicate Increasing(items: seq<Item>, key: Hash -> int) {
    forall i, j :: 0 <= i < j < |items| ==> key(items[i].hash) < key(items[j].hash)
  }

  lemma WithoutIncreasing(items: seq<Item>, h: Hash, key: Hash -> int)
    requires Increasing(items, key)
    ensures Increasing(Without(items, h), key)
  {
    WithoutAt(items, h);
    hide Without;
  }

  lemma {:induction false} ProviderIncreasing(items: seq<Item>, p: string, key: Hash -> int)
    requires Unique(items) && Increasing(items, key)
    ensures Increasing(WithoutProvider(items, p), key)
  {
    if items != [] {
      var init, last := items[..|items| - 1], items[|items| - 1];
      ProviderIncreasing(init, p, key);
      WithoutProviderKeeps(init, p);
      forall x | x in init ensures key(x.hash) < key(last.hash) {
        var k :| 0 <= k < |init| && init[k] == x;
        assert items[k] == x;
      }
      hide Unique, Increasing;
      AppendIncreasing(WithoutProvider(init, p), last, key, key);
    }
  }

  /** New keys that agree on the old items, and are larger for the one put last. */
  lemma AppendIncreasing(items: seq<Item>, x: Item, key: Hash -> int, later: Hash -> int)
    requires Increasing(items, key)
    requires forall y :: y in items ==> later(y.hash) == key(y.hash) < later(x.hash)
    ensures Increasing(items + [x], later)
  {
    forall i, j | 0 <= i < j < |items| + 1 ensures later((items + [x])[i].hash) < later((items + [x])[j].hash) {
      assert items[i] in items;
      if j < |items| {
        assert items[j] in items;
      }
    }
  }

  lemma SameIncreasing(items: seq<Item>, key: Hash -> int, later: Hash -> int)
    requires Increasing(items, key) && forall y :: y in items ==> later(y.hash) == key(y.hash)
    ensures Increasing(items, later)
  {
    forall i, j | 0 <= i < j < |items| ensures later(items[i].hash) < later(items[j].hash) {
      assert items[i] in items && items[j] in items;
    }
  }

  /** Whatever orders the list before an operation orders it afterwards, once
      the touched hash has the largest key. */
  lemma ApplyIncreasing(maxSize: int, s: Spec, op: Op, key: Hash -> int, later: Hash -> int)
    requires Unique(s.items) && Increasing(s.items, key)
    requires forall h :: !Touches(s, op, h) ==> later(h) == key(h)
    requires forall x, h :: x in s.items && Touches(s, op, h) ==> key(x.hash) < later(h)
    ensures Increasing(Apply(maxSize, s, op).items, later)
  {
    match op
    case Get(h, _) =>
      WithoutIncreasing(s.items, h, key);
      WithoutKeeps(s.items, h);
      hide Increasing, Without;
      if Hit(s, op).Some? {
        assert Touches(s, op, h);
        AppendIncreasing(Without(s.items, h), s.items[Find(s.items, h)], key, later);
      } else {
        SameIncreasing(s.items, key, later);
        SameIncreasing(Without(s.items, h), key, later);
      }
    case Put(x) =>
      WithoutIncreasing(Evict(maxSize, s.items), x.hash, key);
      WithoutKeeps(Evict(maxSize, s.items), x.hash);
      hide Increasing, Without, Evict;
      if s.enabled {
        assert Touches(s, op, x.hash);
        AppendIncreasing(Without(Evict(maxSize, s.items), x.hash), x, key, later);
      } else {
        SameIncreasing(s.items, key, later);
      }
    case Invalidate(h) =>
      WithoutIncreasing(s.items, h, key);
      SameIncreasing(Without(s.items, h), key, later);
    case InvalidateProvider(p) =>
      ProviderIncreasing(s.items, p, key);
      SameIncreasing(WithoutProvider(s.items, p), key, later);
    case Clear =>
    case _ => SameIncreasing(s.items, key, later);
  }

  /** The list is ordered by last touch, so its head, the victim of an
      eviction, is the entry put or hit longest ago. */
  lemma {:induction false} OrderedByTouch(maxSize: int, ops: seq<Op>)
    ensures Increasing(Run(maxSize, ops).items, h => LastTouch(maxSize, ops, h))
  {
    if ops != [] {
      var init, op := ops[..|ops| - 1], ops[|ops| - 1];
      var s := Run(maxSize, init);
      SizeBound(maxSize, init);
      OrderedByTouch(maxSize, init);
      hide Apply, Touches;
      forall h ensures LastTouch(maxSize, init, h) <= |init| {
        TouchedBefore(maxSize, init, h);
      }
      ApplyIncreasing(maxSize, s, op, h => LastTouch(maxSize, init, h), h => LastTouch(maxSize, ops, h));
    }
  }

  lemma EvictHead(maxSize: int, items: seq<Item>, y: Item)
    requires Unique(items) && y in items
    ensures Unique(Evict(maxSize, items))
    ensures y in Evict(maxSize, items) <==> |items| < maxSize || y != items[0]
  {
    if |items| >= maxSize {
      assert items == [items[0]] + items[1..];
    }
  }

  /** What a put evicts: nothing below capacity, else the head. In particular
      a put of a hash that is cached already costs another entry its place
      exactly when the cache is full and that hash is not the head. */
  lemma PutKeepsOthers(maxSize: int, s: Spec, x: Item, y: Item)
    requires Unique(s.items) && s.enabled && y in s.items && y.hash != x.hash
    ensures y in Apply(maxSize, s, Put(x)).items <==> |s.items| < maxSize || y != s.items[0]
  {
    var kept := Evict(maxSize, s.items);
    EvictHead(maxSize, s.items, y);
    WithoutKeeps(kept, x.hash);
    hide Without, Evict, Unique;
    assert Apply(maxSize, s, Put(x)).items == Without(kept, x.hash) + [x];
  }

  /** What each operation leaves of the cache, over any run: a get drops at most
      the entry it found too old, a put replaces its own hash and costs the head
      its place when the cache is full, the invalidations and clear drop what they
      name, and while the cache is disabled gets and puts do nothing. */
  lemma HeldAfter(maxSize: int, ops: seq<Op>, op: Op, x: Item)
    ensures var before, after := Run(maxSize, ops), Run(maxSize, ops + [op]);
            x in after.items <==>
              match op
              case Get(h, now) =>
                x in before.items && !(before.enabled && x.hash == h && x.ttl.Some? && now > x.createdAt + x.ttl.value)
              case Put(y) =>
                if !before.enabled then x in before.items
                else x == y || (x in before.items && x.hash != y.hash &&
                                (|before.items| < maxSize || x != before.items[0]))
              case Invalidate(h) => x in before.items && x.hash != h
              case InvalidateProvider(p) => x in before.items && x.provider != p
              case Clear => false
              case Enable => x in before.items
              case Disable => x in before.items
    ensures Run(maxSize, ops + [op]).enabled == (op.Enable? || (Run(maxSize, ops).enabled && !op.Disable?))
  {
    var s := Run(maxSize, ops);
    SizeBound(maxSize, ops);
    assert (ops + [op])[..|ops|] == ops;
    hide Run, Unique;
    match op
    case Get(h, now) =>
      WithoutKeeps(s.items, h);
      if x in s.items {
        FindsHeld(s.items, x);
      }
      hide Without;
    case Put(y) =>
      PutHolds(maxSize, s, y, x);
    case Invalidate(h) => WithoutKeeps(s.items, h);
    case InvalidateProvider(p) => WithoutProviderKeeps(s.items, p);
    case _ =>
  }

  lemma PutHolds(maxSize: int, s: Spec, y: Item, x: Item)
    requires Unique(s.items)
    ensures x in Apply(maxSize, s, Put(y)).items <==>
              if !s.enabled then x in s.items
              else x == y || (x in s.items && x.hash != y.hash && (|s.items| < maxSize || x != s.items[0]))
  {
    if s.enabled {
      WithoutKeeps(Evict(maxSize, s.items), y.hash);
      if x in s.items && x.hash != y.hash {
        PutKeepsOthers(maxSize, s, y, x);
      }
      hide Without, Unique;
    }
  }

  // ---- the cache object

  datatype Entry = Entry(provider: string, value: string, createdAt: real, ttl: Option<real>,
                         lastAccessed: int, accessCount: nat)

  function Stamp(cache: map<Hash, Entry>): Hash -> int {
    h => if h in cache then cache[h].lastAccessed else 0
  }

  /** An entry older than its time to live. */
  predicate Expired(e: Entry, now: real) {
    e.ttl.Some? && now - e.createdAt > e.ttl.value
  }

  ghost predicate Stores(e: Entry, x: Item) {
    e.provider == x.provider && e.value == x.value && e.createdAt == x.createdAt && e.ttl == x.ttl
  }

  /** The map and its stamps present the recency list. */
  ghost predicate Presents(cache: map<Hash, Entry>, clock: int, items: seq<Item>) {
    && (forall h :: h in cache <==> Has(items, h))
    && (forall x :: x in items ==> x.hash in cache && Stores(cache[x.hash], x) && cache[x.hash].lastAccessed <= clock)
    && Increasing(items, Stamp(cache)) && Unique(items)
  }

  /** The head has the least stamp. */
  lemma LeastStampIsHead(cache: map<Hash, Entry>, clock: int, items: seq<Item>, h: Hash)
    requires Presents(cache, clock, items) && h in cache
    requires forall j :: j in cache ==> cache[h].lastAccessed <= cache[j].lastAccessed
    ensures items != [] && items[0].hash == h
  {
    var i := Find(items, h);
    hide Find, Unique;
    assert items[0] in items && items[i] in items;
    assert forall k :: 0 < k < |items| ==> Stamp(cache)(items[0].hash) < Stamp(cache)(items[k].hash);
  }

  lemma HasMember(items: seq<Item>, h: Hash)
    ensures Has(items, h) <==> exists x :: x in items && x.hash == h
  {
    if Has(items, h) {
      assert items[Find(items, h)] in items;
    }
  }

  /** Dropping a set of entries from the map and the same ones from the list. */
  lemma DropPresents(cache: map<Hash, Entry>, clock: int, items: seq<Item>, drop: set<Hash>, left: seq<Item>)
    requires Presents(cache, clock, items)
    requires forall x :: x in left <==> x in items && x.hash !in drop
    requires Unique(left) && Increasing(left, Stamp(cache))
    ensures Presents(cache - drop, clock, left)
  {
    var less := cache - drop;
    hide Increasing, Unique, Find;
    forall j ensures j in less <==> Has(left, j) {
      HasMember(items, j);
      HasMember(left, j);
    }
    hide Has;
    SameIncreasing(left, Stamp(cache), Stamp(less));
  }

  lemma PresentsInOrder(cache: map<Hash, Entry>, clock: int, items: seq<Item>)
    requires Presents(cache, clock, items)
    ensures Unique(items) && Increasing(items, Stamp(cache))
  {
  }

  lemma RemovePresents(cache: map<Hash, Entry>, clock: int, items: seq<Item>, h: Hash)
    requires Presents(cache, clock, items)
    ensures Presents(cache - {h}, clock, Without(items, h))
  {
    hide *;
    PresentsInOrder(cache, clock, items);
    WithoutKeeps(items, h);
    WithoutIncreasing(items, h, Stamp(cache));
    DropPresents(cache, clock, items, {h}, Without(items, h));
  }

  lemma RemoveProviderPresents(cache: map<Hash, Entry>, clock: int, items: seq<Item>, p: string, drop: set<Hash>)
    requires Presents(cache, clock, items)
    requires forall h :: h in drop <==> h in cache && cache[h].provider == p
    ensures Presents(cache - drop, clock, WithoutProvider(items, p))
  {
    PresentsInOrder(cache, clock, items);
    hide Presents, WithoutProvider, Increasing, Unique, Stamp;
    WithoutProviderKeeps(items, p);
    ProviderIncreasing(items, p, Stamp(cache));
    DropPresents(cache, clock, items, drop, WithoutProvider(items, p));
  }

  lemma {:induction false} CountKeys(items: seq<Item>, keys: set<Hash>)
    requires Unique(items) && forall h :: h in keys <==> Has(items, h)
    ensures |keys| == |items|
  {
    if items == [] {
      assert keys == {};
    } else {
      var h := items[0].hash;
      assert items[0] in items;
      forall j ensures j in keys - {h} <==> Has(items[1..], j) {
      }
      CountKeys(items[1..], keys - {h});
    }
  }

  lemma CountPresents(cache: map<Hash, Entry>, clock: int, items: seq<Item>)
    requires Presents(cache, clock, items)
    ensures |cache| == |items|
  {
    CountKeys(items, cache.Keys);
    assert |cache.Keys| == |cache|;
  }

  lemma StoreKeys(items: seq<Item>, x: Item, h: Hash)
    ensures Has(items + [x], h) <==> h == x.hash || Has(items, h)
  {
    HasMember(items, h);
    HasMember(items + [x], h);
    hide Has;
    if h == x.hash {
      assert x in items + [x];
    }
    if y :| y in items && y.hash == h {
      assert y in items + [x];
    }
  }

  /** Storing an item with a new stamp under a hash the list does not hold. */
  lemma StorePresents(cache: map<Hash, Entry>, clock: int, items: seq<Item>, x: Item, e: Entry)
    requires Presents(cache, clock, items) && x.hash !in cache && Stores(e, x) && e.lastAccessed == clock + 1
    ensures Presents(cache[x.hash := e], clock + 1, items + [x])
  {
    hide Has, Increasing;
    var more := cache[x.hash := e];
    forall h ensures Has(items + [x], h) <==> h == x.hash || Has(items, h) {
      StoreKeys(items, x, h);
    }
    forall i | 0 <= i < |items| ensures items[i].hash != x.hash {
    }
    AppendIncreasing(items, x, Stamp(cache), Stamp(more));
  }

  lemma DroppedCount(cache: map<Hash, Entry>, clock: int, items: seq<Item>, p: string, drop: set<Hash>)
    requires Presents(cache, clock, items)
    requires forall h :: h in drop <==> h in cache && cache[h].provider == p
    ensures |drop| == |items| - |WithoutProvider(items, p)|
  {
    RemoveProviderPresents(cache, clock, items, p, drop);
    hide Presents, WithoutProvider;
    CountPresents(cache, clock, items);
    CountPresents(cache - drop, clock, WithoutProvider(items, p));
    assert (cache - drop).Keys == cache.Keys - drop;
    assert |cache.Keys| == |cache| && |(cache - drop).Keys| == |cache - drop|;
  }

  lemma EmptyPresents(clock: int)
    ensures Presents(map[], clock, [])
  {
  }

  lemma LookUp(cache: map<Hash, Entry>, clock: int, items: seq<Item>, h: Hash)
    requires Presents(cache, clock, items)
    ensures h in cache <==> Has(items, h)
    ensures h in cache ==> var x := items[Find(items, h)]; x.hash == h && Stores(cache[h], x)
  {
    hide Increasing, Unique;
    if h in cache {
      assert items[Find(items, h)] in items;
    }
  }

  /** Refreshing the entry under a hash, or replacing it: out of its place,
      and in at the end. */
  lemma RefreshPresents(cache: map<Hash, Entry>, clock: int, items: seq<Item>, x: Item, e: Entry)
    requires Presents(cache, clock, items) && Stores(e, x) && e.lastAccessed == clock + 1
    ensures Presents(cache[x.hash := e], clock + 1, Without(items, x.hash) + [x])
  {
    hide Presents, Without, Stores;
    var less := cache - {x.hash};
    RemovePresents(cache, clock, items, x.hash);
    StorePresents(less, clock, Without(items, x.hash), x, e);
    assert less[x.hash := e] == cache[x.hash := e];
  }

  lemma HeadPresents(cache: map<Hash, Entry>, clock: int, items: seq<Item>, lru: Hash)
    requires Presents(cache, clock, items) && lru in cache
    requires forall j :: j in cache ==> cache[lru].lastAccessed <= cache[j].lastAccessed
    ensures items != [] && Presents(cache - {lru}, clock, items[1..])
  {
    LeastStampIsHead(cache, clock, items, lru);
    RemovePresents(cache, clock, items, lru);
    WithoutHead(items);
    hide Presents, Without, Find;
  }

  lemma WithoutHead(items: seq<Item>)
    requires items != []
    ensures Without(items, items[0].hash) == items[1..]
  {
    assert items[..0] + items[1..] == items[1..];
  }

  class PromptCache {
    var cache: map<Hash, Entry>
    var clock: int
    var enabled: bool
    var hitCount: nat
    var missCount: nat
    const maxSize: int
    const ttl: Option<real>
    ghost var items: seq<Item>

    ghost predicate Valid() reads this {
      Presents(cache, clock, items)
    }

    ghost function View(): Spec reads this {
      Spec(items, enabled)
    }

    constructor (maxSize: int, ttl: Option<real>, enabled: bool)
      ensures Valid() && View() == Run(maxSize, if enabled then [] else [Op.Disable])
      ensures this.maxSize == maxSize && this.ttl == ttl
      ensures hitCount == missCount == 0
    {
      EmptyPresents(0);
      cache, clock, hitCount, missCount, items := map[], 0, 0, 0, [];
      this.enabled := enabled;
      this.maxSize, this.ttl := maxSize, ttl;
    }

    method Enable()
      requires Valid()
      modifies this
      ensures Valid() && View() == Apply(maxSize, old(View()), Op.Enable)
      ensures hitCount == old(hitCount) && missCount == old(missCount)
    {
      enabled := true;
    }

    method Disable()
      requires Valid()
      modifies this
      ensures Valid() && View() == Apply(maxSize, old(View()), Op.Disable)
      ensures hitCount == old(hitCount) && missCount == old(missCount)
    {
      enabled := false;
    }

    method Get(h: Hash, now: real) returns (r: Option<string>)
      requires Valid()
      modifies this
      ensures Valid() && View() == Apply(maxSize, old(View()), Op.Get(h, now))
      ensures r == Hit(old(View()), Op.Get(h, now))
      ensures hitCount == old(hitCount) + (if r.Some? then 1 else 0)
      ensures missCount == old(missCount) + (if old(enabled) && r.None? then 1 else 0)
    {
      hide Presents, Unique, Increasing, Without, WithoutProvider, Stamp;
      if !enabled {
        return None;
      }
      LookUp(cache, clock, items, h);
      if h !in cache {
        missCount := missCount + 1;
        return None;
      }
      ghost var x := items[Find(items, h)];
      if Expired(cache[h], now) {
        RemovePresents(cache, clock, items, h);
        cache, items := cache - {h}, Without(items, h);
        missCount := missCount + 1;
        return None;
      }
      var entry := cache[h].(accessCount := cache[h].accessCount + 1, lastAccessed := clock + 1);
      RefreshPresents(cache, clock, items, x, entry);
      hitCount, clock := hitCount + 1, clock + 1;
      cache, items := cache[h := entry], Without(items, h) + [x];
      return Some(entry.value);
    }

    method Put(h: Hash, provider: string, value: string, now: real, entryTtl: Option<real>)
      requires Valid()
      modifies this
      ensures Valid()
      ensures View() == Apply(maxSize, old(View()),
                              Op.Put(Item(h, provider, value, now, if entryTtl.Some? then entryTtl else ttl)))
      ensures hitCount == old(hitCount) && missCount == old(missCount)
    {
      hide Presents, Unique, Increasing, Without, WithoutProvider, Stamp;
      if !enabled {
        return;
      }
      CountPresents(cache, clock, items);
      if |cache| >= maxSize {
        EvictLru();
      }
      assert items == Evict(maxSize, old(items));
      var entry := Entry(provider, value, now, if entryTtl.Some? then entryTtl else ttl, clock + 1, 0);
      ghost var x := Item(h, provider, value, now, entry.ttl);
      RefreshPresents(cache, clock, items, x, entry);
      clock := clock + 1;
      cache, items := cache[h := entry], Without(items, h) + [x];
    }

    /** Removes the entry with the least stamp. */
    method EvictLru()
      requires Valid()
      modifies this`cache, this`items
      ensures Valid() && items == if old(items) == [] then [] else old(items)[1..]
    {
      hide Presents, Unique, Increasing, Without, WithoutProvider, Stamp;
      CountPresents(cache, clock, items);
      if |cache| == 0 {
        return;
      }
      var rest := cache.Keys;
      var lru :| lru in rest;
      rest := rest - {lru};
      while rest != {}
        invariant rest <= cache.Keys && lru in cache
        invariant forall j :: j in cache && j !in rest ==> cache[lru].lastAccessed <= cache[j].lastAccessed
      {
        var h :| h in rest;
        rest := rest - {h};
        if cache[h].lastAccessed < cache[lru].lastAccessed {
          lru := h;
        }
      }
      HeadPresents(cache, clock, items, lru);
      cache, items := cache - {lru}, items[1..];
    }

    method Invalidate(h: Hash) returns (found: bool)
      requires Valid()
      modifies this
      ensures Valid() && View() == Apply(maxSize, old(View()), Op.Invalidate(h)) && found == Has(old(items), h)
      ensures hitCount == old(hitCount) && missCount == old(missCount)
    {
      hide Presents, Unique, Increasing, Without, WithoutProvider, Stamp;
      LookUp(cache, clock, items, h);
      found := h in cache;
      RemovePresents(cache, clock, items, h);
      cache, items := cache - {h}, Without(items, h);
    }

    method InvalidateProvider(p: string) returns (n: nat)
      requires Valid()
      modifies this
      ensures Valid() && View() == Apply(maxSize, old(View()), Op.InvalidateProvider(p))
      ensures n == |old(items)| - |items|
      ensures hitCount == old(hitCount) && missCount == old(missCount)
    {
      hide Presents, Unique, Increasing, Without, WithoutProvider, Stamp;
      var toRemove := set h | h in cache && cache[h].provider == p;
      RemoveProviderPresents(cache, clock, items, p, toRemove);
      DroppedCount(cache, clock, items, p, toRemove);
      n := |toRemove|;
      DeleteAll(toRemove);
      items := WithoutProvider(items, p);
    }

    method DeleteAll(toRemove: set<Hash>)
      modifies this`cache
      ensures cache == old(cache) - toRemove
    {
      var rest := toRemove;
      while rest != {}
        invariant rest <= toRemove
        invariant cache == old(cache) - (toRemove - rest)
      {
        var h :| h in rest;
        rest, cache := rest - {h}, cache - {h};
      }
    }

    method Clear() returns (n: nat)
      requires Valid()
      modifies this
      ensures Valid() && View() == Apply(maxSize, old(View()), Op.Clear) && n == |old(items)|
      ensures hitCount == old(hitCount) && missCount == old(missCount)
    {
      hide Presents, Unique, Increasing, Without, WithoutProvider, Stamp;
      CountPresents(cache, clock, items);
      EmptyPresents(clock);
      n := |cache|;
      cache, items := map[], [];
    }
  }
}
