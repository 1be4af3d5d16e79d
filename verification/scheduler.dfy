/** The scheduler's fire protocol: ticks start fires, fires advance their
    schedule and then release their slot, in any interleaving. */
module Scheduler {
  import opened Digraph
  import opened Wrappers

  /** next_cron_match is a parameter; None when it raises. */
  datatype Trigger = OneShot(runAt: Option<int>) | Interval(seconds: nat) | CronTrigger(next: int -> Option<int>)

  datatype Schedule = Schedule(id: Id, trigger: Trigger, maxConcurrent: nat, enabled: bool,
                               nextRunAt: Option<int>, lastRunAt: Option<int>)

  /** A fire task; advanced once _advance has saved the schedule's progress. */
  datatype Fire = Fire(spec: Schedule, scheduledAt: int, advanced: bool)

  datatype Firing = Firing(id: Id, at: int)

  /** fires is the history of started fires. ids lists the store's keys. */
  datatype State = State(ids: seq<Id>, store: map<Id, Schedule>, active: map<Id, nat>, tasks: seq<Fire>,
                         fires: seq<Firing>)

  function Active(st: State, id: Id): nat {
    if id in st.active then st.active[id] else 0
  }

  /** sum(_active_runs.values()) */
  function Total(ids: seq<Id>, active: map<Id, nat>): nat {
    if ids == [] then 0
    else
      var last := ids[|ids| - 1];
      Total(ids[..|ids| - 1], active) + (if last in active then active[last] else 0)
  }

  predicate CanStart(cap: int, st: State, spec: Schedule) {
    Total(st.ids, st.active) < cap && Active(st, spec.id) < spec.maxConcurrent
  }

  function StartFire(st: State, spec: Schedule, now: int): State {
    st.(active := st.active[spec.id := Active(st, spec.id) + 1],
        tasks := st.tasks + [Fire(spec, now, false)],
        fires := st.fires + [Firing(spec.id, now)])
  }

  function StartDue(cap: int, st: State, due: seq<Schedule>, now: int): State
    decreases |due|
  {
    if due == [] then st
    else StartDue(cap, if CanStart(cap, st, due[0]) then StartFire(st, due[0], now) else st, due[1..], now)
  }

  predicate IsDue(spec: Schedule, now: int) {
    spec.enabled && spec.nextRunAt.Some? && spec.nextRunAt.value <= now
  }

  ghost predicate DueIn(st: State, due: seq<Schedule>, now: int) {
    forall i :: 0 <= i < |due| ==> due[i].id in st.store && st.store[due[i].id] == due[i] && IsDue(due[i], now)
  }

  /** The schedule after a fire at `at`; None when the cron search raises. */
  function Progress(spec: Schedule, at: int): Option<Schedule> {
    match spec.trigger
    case OneShot(_) => Some(spec.(enabled := false, lastRunAt := Some(at), nextRunAt := None))
    case Interval(d) => Some(spec.(lastRunAt := Some(at), nextRunAt := Some(at + d)))
    case CronTrigger(next) =>
      if next(at).None? then None else Some(spec.(lastRunAt := Some(at), nextRunAt := next(at)))
  }

  function AdvanceTask(st: State, k: nat): State
    requires k < |st.tasks|
  {
    var t := st.tasks[k];
    match Progress(t.spec, t.scheduledAt)
    case Some(spec) => st.(store := st.store[spec.id := spec], tasks := st.tasks[k := t.(advanced := true)])
    case None => st
  }

  /** The finally clause: only after _advance, or when _advance raised. */
  predicate MayRelease(t: Fire) {
    t.advanced || Progress(t.spec, t.scheduledAt).None?
  }

  function ReleaseTask(st: State, k: nat): State
    requires k < |st.tasks|
  {
    var id := st.tasks[k].spec.id;
    var active := Active(st, id) - 1;
    st.(active := if active <= 0 then map j | j in st.active && j != id :: st.active[j] else st.active[id := active],
        tasks := st.tasks[..k] + st.tasks[k + 1..])
  }

  /** _restore_schedule. */
  function RestoreSchedule(spec: Schedule, now: int): Schedule {
    match spec.trigger
    case OneShot(runAt) =>
      if spec.lastRunAt.Some? then spec.(enabled := false, nextRunAt := None)
      else if runAt.Some? then spec.(nextRunAt := runAt)
      else spec
    case Interval(d) =>
      if spec.lastRunAt.None? then spec.(nextRunAt := Some(now + d))
      else spec.(nextRunAt := Some(if spec.lastRunAt.value + d >= now then spec.lastRunAt.value + d else now))
    case CronTrigger(next) =>
      spec.(nextRunAt := next(now))
  }

  /** The cron search raises out of the whole restore. */
  predicate RestoreRaises(spec: Schedule, now: int) {
    spec.trigger.CronTrigger? && spec.trigger.next(now).None?
  }

  /** restore serves the schedules in turn, up to the first that raises. */
  function RestoreList(ids: seq<Id>, store: map<Id, Schedule>, now: int): map<Id, Schedule>
    requires forall id :: id in ids ==> id in store
  {
    if ids == [] then store
    else
      var served := RestoreList(ids[..|ids| - 1], store, now);
      var last := ids[|ids| - 1];
      if exists i :: 0 <= i < |ids| && RestoreRaises(store[ids[i]], now) then served
      else served[last := RestoreSchedule(store[last], now)]
  }

  lemma {:induction false} RestoredEach(ids: seq<Id>, store: map<Id, Schedule>, now: int)
    requires forall id :: id in ids ==> id in store
    ensures RestoreList(ids, store, now).Keys == store.Keys
    ensures forall id :: id in store ==>
              RestoreList(ids, store, now)[id] in {store[id], RestoreSchedule(store[id], now)}
  {
    if ids != [] {
      RestoredEach(ids[..|ids| - 1], store, now);
    }
  }

  function RestoreAll(st: State, now: int): State
    requires forall id :: id in st.ids ==> id in st.store
  {
    st.(store := RestoreList(st.ids, st.store, now))
  }

  datatype Event = Tick(now: int, due: seq<Schedule>) | Advance(k: nat) | Release(k: nat) | Restart(now: int)

  /** A tick serves any list of schedules that are due; a restart may find
      fires in flight, since start restores before it looks for its loop. */
  ghost predicate Possible(st: State, e: Event) {
    match e
    case Tick(now, due) => DueIn(st, due, now)
    case Advance(k) => k < |st.tasks| && !st.tasks[k].advanced
    case Release(k) => k < |st.tasks| && MayRelease(st.tasks[k])
    case Restart(_) => forall id :: id in st.ids ==> id in st.store
  }

  ghost function Step(cap: int, st: State, e: Event): State
    requires Possible(st, e)
  {
    match e
    case Tick(now, due) => StartDue(cap, st, due, now)
    case Advance(k) => AdvanceTask(st, k)
    case Release(k) => ReleaseTask(st, k)
    case Restart(now) => RestoreAll(st, now)
  }

  /** states is a run of the protocol. */
  ghost predicate IsRun(cap: int, states: seq<State>, events: seq<Event>) {
    && |states| == |events| + 1
    && forall i :: 0 <= i < |events| ==>
        Possible(states[i], events[i]) && states[i + 1] == Step(cap, states[i], events[i])
  }

  // ---- counters

  function CountOf(tasks: seq<Fire>, id: Id): nat {
    if tasks == [] then 0
    else CountOf(tasks[..|tasks| - 1], id) + if tasks[|tasks| - 1].spec.id == id then 1 else 0
  }

  /** Slots are counted exactly, per schedule and in total, and both caps hold. */
  ghost predicate Counted(cap: int, st: State) {
    && Distinct(st.ids)
    && (forall id :: id in st.active ==> id in st.ids && st.active[id] > 0)
    && (forall id :: Active(st, id) == CountOf(st.tasks, id))
    && Total(st.ids, st.active) == |st.tasks|
    && (|st.tasks| == 0 || |st.tasks| <= cap)
    && (forall k :: 0 <= k < |st.tasks| ==> CountOf(st.tasks, st.tasks[k].spec.id) <= st.tasks[k].spec.maxConcurrent)
  }

  lemma {:induction false} TotalUpdate(ids: seq<Id>, active: map<Id, nat>, updated: map<Id, nat>, id: Id, was: nat,
                                       becomes: nat)
    requires Distinct(ids) && id in ids
    requires was == (if id in active then active[id] else 0) && becomes == (if id in updated then updated[id] else 0)
    requires forall j :: j != id ==> (j in active <==> j in updated) && (j in active ==> active[j] == updated[j])
    ensures Total(ids, updated) == Total(ids, active) - was + becomes
  {
    var last, init := ids[|ids| - 1], ids[..|ids| - 1];
    if last == id {
      TotalSame(init, active, updated, id);
    } else {
      TotalUpdate(init, active, updated, id, was, becomes);
    }
  }

  lemma {:induction false} TotalSame(ids: seq<Id>, active: map<Id, nat>, updated: map<Id, nat>, id: Id)
    requires id !in ids
    requires forall j :: j != id ==> (j in active <==> j in updated) && (j in active ==> active[j] == updated[j])
    ensures Total(ids, updated) == Total(ids, active)
  {
    if ids != [] {
      TotalSame(ids[..|ids| - 1], active, updated, id);
    }
  }

  lemma {:induction false} CountWithout(tasks: seq<Fire>, k: nat, id: Id)
    requires k < |tasks|
    ensures CountOf(tasks[..k] + tasks[k + 1..], id) == CountOf(tasks, id) - if tasks[k].spec.id == id then 1 else 0
  {
    var last, rest := |tasks| - 1, tasks[..k] + tasks[k + 1..];
    if k == last {
      assert rest == tasks[..last];
    } else {
      CountWithout(tasks[..last], k, id);
      assert rest[..|rest| - 1] == tasks[..last][..k] + tasks[..last][k + 1..];
    }
  }

  lemma {:induction false} CountMarked(tasks: seq<Fire>, k: nat, t: Fire, id: Id)
    requires k < |tasks| && t.spec.id == tasks[k].spec.id
    ensures CountOf(tasks[k := t], id) == CountOf(tasks, id)
  {
    var last := |tasks| - 1;
    if k == last {
      assert tasks[k := t][..last] == tasks[..last];
    } else {
      assert tasks[k := t][..last] == tasks[..last][k := t];
      CountMarked(tasks[..last], k, t, id);
    }
  }

  lemma CountAppend(tasks: seq<Fire>, t: Fire)
    ensures forall id :: CountOf(tasks + [t], id) == CountOf(tasks, id) + if t.spec.id == id then 1 else 0
  {
    assert (tasks + [t])[..|tasks|] == tasks;
  }

  lemma {:induction false} CountPositive(tasks: seq<Fire>, k: nat)
    requires k < |tasks|
    ensures CountOf(tasks, tasks[k].spec.id) > 0
  {
    if k < |tasks| - 1 {
      CountPositive(tasks[..|tasks| - 1], k);
    }
  }

  lemma {:induction false} CountZero(tasks: seq<Fire>, id: Id)
    requires forall k :: 0 <= k < |tasks| ==> tasks[k].spec.id != id
    ensures CountOf(tasks, id) == 0
  {
    if tasks != [] {
      CountZero(tasks[..|tasks| - 1], id);
    }
  }

  ghost predicate StoreOk(st: State) {
    && (forall id :: id in st.ids <==> id in st.store)
    && (forall id :: id in st.store ==> st.store[id].id == id)
    && (forall k :: 0 <= k < |st.tasks| ==> TaskOk(st, st.tasks[k]))
  }

  /** A task's snapshot has the trigger and the cap of the stored schedule. */
  ghost predicate TaskOk(st: State, t: Fire) {
    && t.spec.id in st.store
    && t.spec.trigger == st.store[t.spec.id].trigger
    && t.spec.maxConcurrent == st.store[t.spec.id].maxConcurrent
  }

  lemma StartCounted(cap: int, st: State, spec: Schedule, now: int)
    requires Counted(cap, st) && CanStart(cap, st, spec) && spec.id in st.ids
    requires forall k :: 0 <= k < |st.tasks| && st.tasks[k].spec.id == spec.id ==>
              st.tasks[k].spec.maxConcurrent == spec.maxConcurrent
    ensures Counted(cap, StartFire(st, spec, now))
  {
    hide CountOf, Total;
    var next := StartFire(st, spec, now);
    TotalUpdate(st.ids, st.active, next.active, spec.id, Active(st, spec.id), Active(st, spec.id) + 1);
    CountAppend(st.tasks, Fire(spec, now, false));
    assert Active(st, spec.id) == CountOf(st.tasks, spec.id);
    forall k | 0 <= k < |next.tasks|
      ensures CountOf(next.tasks, next.tasks[k].spec.id) <= next.tasks[k].spec.maxConcurrent {
      if k < |st.tasks| {
        assert next.tasks[k] == st.tasks[k];
      }
    }
  }

  lemma ReleaseCounted(cap: int, st: State, k: nat)
    requires Counted(cap, st) && k < |st.tasks| && st.tasks[k].spec.id in st.ids
    ensures Counted(cap, ReleaseTask(st, k))
  {
    hide CountOf, Total;
    var next, id := ReleaseTask(st, k), st.tasks[k].spec.id;
    CountPositive(st.tasks, k);
    forall j ensures CountOf(next.tasks, j) == CountOf(st.tasks, j) - if id == j then 1 else 0 {
      CountWithout(st.tasks, k, j);
    }
    assert Active(st, id) == CountOf(st.tasks, id);
    TotalUpdate(st.ids, st.active, next.active, id, Active(st, id), Active(st, id) - 1);
    forall j ensures Active(next, j) == CountOf(next.tasks, j) {
      assert Active(st, j) == CountOf(st.tasks, j);
    }
    forall j | 0 <= j < |next.tasks|
      ensures CountOf(next.tasks, next.tasks[j].spec.id) <= next.tasks[j].spec.maxConcurrent {
      assert next.tasks[j] == st.tasks[if j < k then j else j + 1];
    }
  }

  lemma AdvanceCounted(cap: int, st: State, k: nat)
    requires Counted(cap, st) && k < |st.tasks|
    ensures Counted(cap, AdvanceTask(st, k))
  {
    var next := AdvanceTask(st, k);
    if Progress(st.tasks[k].spec, st.tasks[k].scheduledAt).Some? {
      forall id ensures CountOf(next.tasks, id) == CountOf(st.tasks, id) {
        CountMarked(st.tasks, k, st.tasks[k].(advanced := true), id);
      }
      hide CountOf, Total, Progress;
      forall id ensures Active(next, id) == CountOf(next.tasks, id) {
        assert Active(st, id) == CountOf(st.tasks, id);
      }
      forall j | 0 <= j < |next.tasks|
        ensures CountOf(next.tasks, next.tasks[j].spec.id) <= next.tasks[j].spec.maxConcurrent {
        assert next.tasks[j].spec == st.tasks[j].spec;
      }
    }
  }

  // ---- spacing

  /** Firings of id are at least d apart, in order of firing. */
  ghost predicate Spaced(fires: seq<Firing>, id: Id, d: nat) {
    forall i, j :: 0 <= i < j < |fires| && fires[i].id == id && fires[j].id == id ==> fires[j].at - fires[i].at >= d
  }

  ghost predicate FiresOnce(fires: seq<Firing>, id: Id) {
    forall i, j :: 0 <= i < j < |fires| && fires[i].id == id ==> fires[j].id != id
  }

  /** A later match lies after the given time, and does not come earlier for a
      later time. */
  ghost predicate CronLike(next: int -> Option<int>) {
    && (forall t :: next(t).Some? ==> next(t).value > t)
    && forall t, u :: t <= u && next(t).Some? && next(u).Some? ==> next(t).value <= next(u).value
  }

  ghost predicate NeverRaises(next: int -> Option<int>) {
    forall t :: next(t).Some?
  }

  /** After a fire the next one is not before the next match. */
  ghost predicate OnMatches(fires: seq<Firing>, id: Id, next: int -> Option<int>) {
    forall i, j :: 0 <= i < j < |fires| && fires[i].id == id && fires[j].id == id ==>
      next(fires[i].at).Some? && fires[j].at >= next(fires[i].at).value
  }

  ghost function LastFire(fires: seq<Firing>, id: Id): (r: Option<int>)
    ensures r.None? <==> forall i :: 0 <= i < |fires| ==> fires[i].id != id
  {
    if fires == [] then None
    else
      var last := fires[|fires| - 1];
      if last.id == id then Some(last.at) else LastFire(fires[..|fires| - 1], id)
  }

  /** The stored progress rules out a too early fire after one at t. */
  ghost predicate Settled(spec: Schedule, t: int) {
    match spec.trigger
    case OneShot(_) => !spec.enabled && spec.lastRunAt.Some?
    case Interval(d) => spec.lastRunAt == Some(t) && (spec.nextRunAt.Some? ==> spec.nextRunAt.value >= t + d)
    case CronTrigger(next) =>
      next(t).Some? && (spec.nextRunAt.Some? ==> spec.nextRunAt.value >= next(t).value)
  }

  /** Either the last fire of id is still in flight, or its progress is
      stored; an advanced task has stored it already. */
  ghost predicate Protected(st: State, id: Id)
    requires id in st.store
  {
    LastFire(st.fires, id).Some? ==>
      var t := LastFire(st.fires, id).value;
      && (forall k :: 0 <= k < |st.tasks| && st.tasks[k].spec.id == id ==>
            st.tasks[k].scheduledAt == t && (st.tasks[k].advanced ==> Settled(st.store[id], t)))
      && (CountOf(st.tasks, id) == 0 ==> Settled(st.store[id], t))
  }

  ghost predicate History(st: State, id: Id)
    requires id in st.store
  {
    match st.store[id].trigger
    case Interval(d) => Spaced(st.fires, id, d)
    case OneShot(_) => FiresOnce(st.fires, id)
    case CronTrigger(next) => OnMatches(st.fires, id, next)
  }

  /** Fires of the schedule cannot overlap. */
  predicate Single(cap: int, spec: Schedule) {
    cap <= 1 || spec.maxConcurrent <= 1
  }

  /** A schedule whose fires are kept apart: they cannot overlap, and for a cron
      schedule the search never raises and, as ahead says, no restore reads a
      clock behind its fires. */
  ghost predicate Watched(cap: int, ahead: bool, spec: Schedule) {
    && Single(cap, spec)
    && (spec.trigger.CronTrigger? ==> ahead && CronLike(spec.trigger.next) && NeverRaises(spec.trigger.next))
  }

  /** What every run keeps. */
  ghost predicate Inv(cap: int, ahead: bool, st: State) {
    && Counted(cap, st) && StoreOk(st)
    && (forall id :: id in st.store && Watched(cap, ahead, st.store[id]) ==> Protected(st, id) && History(st, id))
  }

  /** In an interval history nothing fired after the last fire. */
  lemma {:induction false} LastIsLatest(fires: seq<Firing>, id: Id, d: nat)
    requires Spaced(fires, id, d) && LastFire(fires, id).Some?
    ensures forall i :: 0 <= i < |fires| && fires[i].id == id ==> fires[i].at <= LastFire(fires, id).value
  {
    var k := |fires| - 1;
    if fires[k].id != id {
      assert Spaced(fires[..k], id, d);
      LastIsLatest(fires[..k], id, d);
    }
  }

  lemma {:induction false} LastMatchIsLatest(fires: seq<Firing>, id: Id, next: int -> Option<int>)
    requires OnMatches(fires, id, next) && LastFire(fires, id).Some? && CronLike(next)
    ensures forall i :: 0 <= i < |fires| && fires[i].id == id ==> fires[i].at <= LastFire(fires, id).value
  {
    var k := |fires| - 1;
    if fires[k].id != id {
      assert OnMatches(fires[..k], id, next);
      LastMatchIsLatest(fires[..k], id, next);
    }
  }

  lemma StartKeepsHistory(cap: int, ahead: bool, st: State, spec: Schedule, now: int)
    requires Inv(cap, ahead, st) && CanStart(cap, st, spec) && Watched(cap, ahead, spec)
    requires spec.id in st.store && st.store[spec.id] == spec && IsDue(spec, now)
    ensures History(StartFire(st, spec, now), spec.id)
  {
    var id := spec.id;
    assert Active(st, id) == CountOf(st.tasks, id) == 0;
    assert Protected(st, id) && History(st, id);
    hide Counted, CountOf, Total;
    if LastFire(st.fires, id).Some? {
      if spec.trigger.Interval? {
        LastIsLatest(st.fires, id, spec.trigger.seconds);
      } else if spec.trigger.CronTrigger? {
        LastMatchIsLatest(st.fires, id, spec.trigger.next);
        hide Protected;
      }
    }
  }

  lemma LastAfterStart(fires: seq<Firing>, f: Firing, id: Id)
    ensures LastFire(fires + [f], id) == if f.id == id then Some(f.at) else LastFire(fires, id)
  {
    assert (fires + [f])[..|fires|] == fires;
  }

  lemma StartKeepsOthers(cap: int, st: State, spec: Schedule, now: int, id: Id)
    requires id in st.store && id != spec.id && Protected(st, id) && History(st, id)
    ensures Protected(StartFire(st, spec, now), id) && History(StartFire(st, spec, now), id)
  {
    var next := StartFire(st, spec, now);
    LastAfterStart(st.fires, Firing(spec.id, now), id);
    assert next.tasks[..|st.tasks|] == st.tasks;
    assert CountOf(next.tasks, id) == CountOf(st.tasks, id);
    hide CountOf, Settled, LastFire;
    assert forall k :: 0 <= k < |next.tasks| && next.tasks[k].spec.id == id ==>
        k < |st.tasks| && next.tasks[k] == st.tasks[k];
  }

  lemma NewlyStartedIsProtected(cap: int, ahead: bool, st: State, spec: Schedule, now: int)
    requires Counted(cap, st) && CanStart(cap, st, spec) && Watched(cap, ahead, spec) && spec.id in st.store
    ensures Protected(StartFire(st, spec, now), spec.id)
  {
    var next, id := StartFire(st, spec, now), spec.id;
    LastAfterStart(st.fires, Firing(id, now), id);
    assert CountOf(st.tasks, id) == 0;
    forall k | 0 <= k < |st.tasks| ensures st.tasks[k].spec.id != id {
      CountPositive(st.tasks, k);
    }
    CountPositive(next.tasks, |st.tasks|);
  }

  lemma StartKeeps(cap: int, ahead: bool, st: State, spec: Schedule, now: int)
    requires Inv(cap, ahead, st) && CanStart(cap, st, spec)
    requires spec.id in st.store && st.store[spec.id] == spec && IsDue(spec, now)
    ensures Inv(cap, ahead, StartFire(st, spec, now))
  {
    var next := StartFire(st, spec, now);
    assert forall k :: 0 <= k < |st.tasks| ==> TaskOk(st, st.tasks[k]);
    StartCounted(cap, st, spec, now);
    forall id | id in next.store && Watched(cap, ahead, next.store[id])
      ensures Protected(next, id) && History(next, id)
    {
      if id == spec.id {
        StartKeepsHistory(cap, ahead, st, spec, now);
        NewlyStartedIsProtected(cap, ahead, st, spec, now);
      } else {
        StartKeepsOthers(cap, st, spec, now, id);
      }
    }
    hide Counted, Protected, History;
    assert StoreOk(next);
  }

  lemma {:induction false} TickKeeps(cap: int, ahead: bool, st: State, due: seq<Schedule>, now: int)
    requires Inv(cap, ahead, st) && DueIn(st, due, now)
    ensures Inv(cap, ahead, StartDue(cap, st, due, now))
    decreases |due|
  {
    hide Inv, CanStart;
    if due != [] {
      if CanStart(cap, st, due[0]) {
        StartKeeps(cap, ahead, st, due[0], now);
        assert StartFire(st, due[0], now).store == st.store;
        TickKeeps(cap, ahead, StartFire(st, due[0], now), due[1..], now);
      } else {
        TickKeeps(cap, ahead, st, due[1..], now);
      }
    }
  }

  lemma ProgressIsSettled(spec: Schedule, at: int)
    requires Progress(spec, at).Some?
    ensures var p := Progress(spec, at).value;
            p.id == spec.id && p.trigger == spec.trigger && p.maxConcurrent == spec.maxConcurrent && Settled(p, at)
  {
  }

  lemma AdvanceKeepsProtected(cap: int, ahead: bool, st: State, k: nat, id: Id)
    requires Inv(cap, ahead, st) && k < |st.tasks| && id in st.store
    requires Protected(st, id) && History(st, id) && Watched(cap, ahead, st.store[id])
    ensures id in AdvanceTask(st, k).store && Protected(AdvanceTask(st, k), id) && History(AdvanceTask(st, k), id)
  {
    var t, next := st.tasks[k], AdvanceTask(st, k);
    assert TaskOk(st, t);
    if Progress(t.spec, t.scheduledAt).Some? {
      ProgressIsSettled(t.spec, t.scheduledAt);
      CountMarked(st.tasks, k, t.(advanced := true), id);
      hide Counted, CountOf, Progress, Settled, StoreOk, LastFire;
      assert forall j :: 0 <= j < |st.tasks| && j != k ==> next.tasks[j] == st.tasks[j];
    }
  }

  lemma AdvanceKeeps(cap: int, ahead: bool, st: State, k: nat)
    requires Inv(cap, ahead, st) && k < |st.tasks|
    ensures Inv(cap, ahead, AdvanceTask(st, k))
  {
    var t, next := st.tasks[k], AdvanceTask(st, k);
    AdvanceCounted(cap, st, k);
    assert TaskOk(st, t);
    if Progress(t.spec, t.scheduledAt).Some? {
      ProgressIsSettled(t.spec, t.scheduledAt);
    }
    forall id | id in next.store && Watched(cap, ahead, next.store[id])
      ensures Protected(next, id) && History(next, id)
    {
      AdvanceKeepsProtected(cap, ahead, st, k, id);
    }
    hide Counted, Protected, History, Progress, Settled;
    forall j | 0 <= j < |next.tasks| ensures TaskOk(next, next.tasks[j]) {
      assert TaskOk(st, st.tasks[j]);
    }
  }

  /** Advance comes before release, so the slot is given back only when the
      progress is stored. */
  lemma ReleaseKeepsProtected(cap: int, ahead: bool, st: State, k: nat, id: Id)
    requires Inv(cap, ahead, st) && k < |st.tasks| && MayRelease(st.tasks[k])
    requires id in st.store && Watched(cap, ahead, st.store[id])
    ensures Protected(ReleaseTask(st, k), id)
  {
    hide Counted, CountOf, LastFire;
    var t, next := st.tasks[k], ReleaseTask(st, k);
    assert TaskOk(st, t) && Protected(st, id);
    CountWithout(st.tasks, k, id);
    hide Inv, CountOf, LastFire, TaskOk, Settled, Counted, StoreOk;
    assert forall j :: 0 <= j < |next.tasks| ==> next.tasks[j] == st.tasks[if j < k then j else j + 1];
    if t.spec.id == id && CountOf(next.tasks, id) == 0 && LastFire(st.fires, id).Some? {
      assert t.advanced;
    }
  }

  lemma ReleaseKeeps(cap: int, ahead: bool, st: State, k: nat)
    requires Inv(cap, ahead, st) && k < |st.tasks| && MayRelease(st.tasks[k])
    ensures Inv(cap, ahead, ReleaseTask(st, k))
  {
    var next := ReleaseTask(st, k);
    assert TaskOk(st, st.tasks[k]);
    ReleaseCounted(cap, st, k);
    forall id | id in next.store && Watched(cap, ahead, next.store[id])
      ensures Protected(next, id) && History(next, id)
    {
      assert History(st, id);
      ReleaseKeepsProtected(cap, ahead, st, k, id);
    }
    hide Counted, Protected, History, Progress, Settled;
    forall j | 0 <= j < |next.tasks| ensures TaskOk(next, next.tasks[j]) {
      assert TaskOk(st, st.tasks[if j < k then j else j + 1]);
    }
  }

  /** What a restore at now may do to a stored schedule. */
  ghost predicate Keeps(before: Schedule, after: Schedule, now: int) {
    && after.id == before.id && after.trigger == before.trigger && after.maxConcurrent == before.maxConcurrent
    && forall t :: Settled(before, t) && Trusted(before.trigger, t, now) ==> Settled(after, t)
  }

  ghost predicate Trusted(trigger: Trigger, t: int, now: int) {
    trigger.CronTrigger? ==> t <= now && CronLike(trigger.next) && NeverRaises(trigger.next)
  }

  lemma RestoreScheduleKeeps(spec: Schedule, now: int)
    ensures Keeps(spec, spec, now) && Keeps(spec, RestoreSchedule(spec, now), now)
  {
  }

  /** No fire is later than now. */
  ghost predicate NotBehind(fires: seq<Firing>, now: int) {
    forall i :: 0 <= i < |fires| ==> fires[i].at <= now
  }

  lemma {:induction false} LastNotBehind(fires: seq<Firing>, id: Id, now: int)
    requires NotBehind(fires, now) && LastFire(fires, id).Some?
    ensures LastFire(fires, id).value <= now
  {
    if fires[|fires| - 1].id != id {
      LastNotBehind(fires[..|fires| - 1], id, now);
    }
  }

  lemma ProtectedStays(st: State, store: map<Id, Schedule>, id: Id, now: int)
    requires id in st.store && id in store && Keeps(st.store[id], store[id], now)
    requires Protected(st, id) && History(st, id)
    requires LastFire(st.fires, id).Some? ==> Trusted(st.store[id].trigger, LastFire(st.fires, id).value, now)
    ensures Protected(st.(store := store), id) && History(st.(store := store), id)
  {
    hide CountOf, LastFire, Settled, Trusted;
  }

  lemma StoreChangeKeeps(cap: int, ahead: bool, st: State, store: map<Id, Schedule>, now: int)
    requires Inv(cap, ahead, st) && store.Keys == st.store.Keys && (ahead ==> NotBehind(st.fires, now))
    requires forall id :: id in store ==> Keeps(st.store[id], store[id], now)
    ensures Inv(cap, ahead, st.(store := store))
  {
    var next := st.(store := store);
    hide CountOf, LastFire, Settled, Protected, History, Total, CronLike, NeverRaises, NotBehind;
    forall id | id in store && Watched(cap, ahead, store[id])
      ensures Protected(next, id) && History(next, id)
    {
      if LastFire(st.fires, id).Some? && ahead {
        LastNotBehind(st.fires, id, now);
      }
      ProtectedStays(st, store, id, now);
    }
    forall k | 0 <= k < |st.tasks| ensures TaskOk(next, st.tasks[k]) {
      assert TaskOk(st, st.tasks[k]);
    }
    assert Counted(cap, next);
  }

  lemma RestoreKeeps(cap: int, ahead: bool, st: State, now: int)
    requires Inv(cap, ahead, st) && (ahead ==> NotBehind(st.fires, now))
    ensures Inv(cap, ahead, RestoreAll(st, now))
  {
    var store := RestoreList(st.ids, st.store, now);
    RestoredEach(st.ids, st.store, now);
    forall id | id in store ensures Keeps(st.store[id], store[id], now) {
      RestoreScheduleKeeps(st.store[id], now);
    }
    hide Inv, Keeps;
    StoreChangeKeeps(cap, ahead, st, store, now);
  }

  lemma StepKeeps(cap: int, ahead: bool, st: State, e: Event)
    requires Inv(cap, ahead, st) && Possible(st, e)
    requires ahead && e.Restart? ==> NotBehind(st.fires, e.now)
    ensures Inv(cap, ahead, Step(cap, st, e))
  {
    hide Inv;
    match e
    case Tick(now, due) => TickKeeps(cap, ahead, st, due, now);
    case Advance(k) => AdvanceKeeps(cap, ahead, st, k);
    case Release(k) => ReleaseKeeps(cap, ahead, st, k);
    case Restart(now) => RestoreKeeps(cap, ahead, st, now);
  }

  /** A scheduler that has not fired yet, over any stored schedules. */
  ghost predicate Initial(st: State) {
    && Distinct(st.ids) && (forall id :: id in st.ids <==> id in st.store) &&
        (forall id :: id in st.store ==> st.store[id].id == id)
    && st.active == map[] && st.tasks == [] && st.fires == []
  }

  lemma {:induction false} EmptyTotal(ids: seq<Id>)
    ensures Total(ids, map[]) == 0
  {
    if ids != [] {
      EmptyTotal(ids[..|ids| - 1]);
    }
  }

  /** No restore reads a clock behind the fires so far. */
  ghost predicate RestartsAhead(states: seq<State>, events: seq<Event>)
    requires |states| == |events| + 1
  {
    forall i :: 0 <= i < |events| && events[i].Restart? ==> NotBehind(states[i].fires, events[i].now)
  }

  /** The scheduler's protocol, for every interleaving of ticks, completions
      and restores: the active counters are exactly the in-flight fires, both
      caps hold, and the fires of every watched schedule are kept apart. */
  lemma {:induction false} ProtocolSafe(cap: int, ahead: bool, states: seq<State>, events: seq<Event>, n: nat)
    requires IsRun(cap, states, events) && Initial(states[0]) && n <= |events|
    requires ahead ==> RestartsAhead(states, events)
    ensures Inv(cap, ahead, states[n])
  {
    if n == 0 {
      EmptyTotal(states[0].ids);
    } else {
      ProtocolSafe(cap, ahead, states, events, n - 1);
      hide Inv, Initial, Step, NotBehind;
      StepKeeps(cap, ahead, states[n - 1], events[n - 1]);
    }
  }

  /** The guarantees of a run, spelled out for its n-th state. */
  lemma RunGuarantees(cap: int, states: seq<State>, events: seq<Event>, n: nat)
    requires IsRun(cap, states, events) && Initial(states[0]) && n <= |events|
    ensures var st := states[n];
            && (forall id :: Active(st, id) == CountOf(st.tasks, id))
            && (st.tasks != [] ==> |st.tasks| <= cap)
            && (forall id :: id in st.store && CountOf(st.tasks, id) > 0 ==>
                CountOf(st.tasks, id) <= st.store[id].maxConcurrent)
            && (forall id :: id in st.store && Single(cap, st.store[id]) && st.store[id].trigger.Interval? ==>
                  Spaced(st.fires, id, st.store[id].trigger.seconds))
            && (forall id :: id in st.store && Single(cap, st.store[id]) && st.store[id].trigger.OneShot? ==>
                  FiresOnce(st.fires, id))
    ensures var st := states[n];
            RestartsAhead(states, events) ==>
              forall id :: id in st.store && Single(cap, st.store[id]) && st.store[id].trigger.CronTrigger? &&
                           CronLike(st.store[id].trigger.next) && NeverRaises(st.store[id].trigger.next) ==>
                OnMatches(st.fires, id, st.store[id].trigger.next)
  {
    ProtocolSafe(cap, false, states, events, n);
    if RestartsAhead(states, events) {
      ProtocolSafe(cap, true, states, events, n);
    }
    var st := states[n];
    hide IsRun, Protected, CountOf, Total, CronLike, NeverRaises;
    forall id | id in st.store && CountOf(st.tasks, id) > 0
      ensures CountOf(st.tasks, id) <= st.store[id].maxConcurrent
    {
      var k := TaskOfCounted(st.tasks, id);
      assert TaskOk(st, st.tasks[k]);
    }
  }

  lemma {:induction false} TaskOfCounted(tasks: seq<Fire>, id: Id) returns (k: nat)
    requires CountOf(tasks, id) > 0
    ensures k < |tasks| && tasks[k].spec.id == id
  {
    k := |tasks| - 1;
    if tasks[k].spec.id != id {
      k := TaskOfCounted(tasks[..k], id);
    }
  }

  // ---- clocks

  /** The clock reading of a tick or a restore. */
  function Clock(e: Event): Option<int> {
    match e
    case Tick(now, _) => Some(now)
    case Restart(now) => Some(now)
    case _ => None
  }

  ghost predicate ClockForward(events: seq<Event>) {
    forall i, j :: 0 <= i < j < |events| && Clock(events[i]).Some? && Clock(events[j]).Some? ==>
      Clock(events[i]).value <= Clock(events[j]).value
  }

  lemma {:induction false} TickFires(cap: int, st: State, due: seq<Schedule>, now: int)
    ensures st.fires <= StartDue(cap, st, due, now).fires
    ensures forall i :: |st.fires| <= i < |StartDue(cap, st, due, now).fires| ==>
              StartDue(cap, st, due, now).fires[i].at == now
    decreases |due|
  {
    hide CanStart;
    if due != [] {
      TickFires(cap, if CanStart(cap, st, due[0]) then StartFire(st, due[0], now) else st, due[1..], now);
    }
  }

  /** With a clock that runs forward, fires are in time order and no later
      reading is behind them. */
  lemma {:induction false} FiresInTime(cap: int, states: seq<State>, events: seq<Event>, n: nat)
    requires IsRun(cap, states, events) && Initial(states[0]) && ClockForward(events) && n <= |events|
    ensures forall m :: n <= m < |events| && Clock(events[m]).Some? ==>
              NotBehind(states[n].fires, Clock(events[m]).value)
    ensures forall i, j :: 0 <= i < j < |states[n].fires| ==> states[n].fires[i].at <= states[n].fires[j].at
  {
    if n > 0 {
      FiresInTime(cap, states, events, n - 1);
      var st, e := states[n - 1], events[n - 1];
      assert Possible(st, e) && states[n] == Step(cap, st, e);
      if e.Tick? {
        TickFires(cap, st, e.due, e.now);
        assert Clock(e) == Some(e.now);
      } else {
        assert states[n].fires == st.fires;
      }
    }
  }

  lemma ForwardRestartsAhead(cap: int, states: seq<State>, events: seq<Event>)
    requires IsRun(cap, states, events) && Initial(states[0]) && ClockForward(events)
    ensures RestartsAhead(states, events)
  {
    forall i | 0 <= i < |events| && events[i].Restart? ensures NotBehind(states[i].fires, events[i].now) {
      FiresInTime(cap, states, events, i);
      assert Clock(events[i]) == Some(events[i].now);
    }
  }

  // ---- when a schedule fires again

  /** Every fire in flight is of a schedule that was enabled, and in the history. */
  ghost predicate Launched(st: State) {
    forall k :: 0 <= k < |st.tasks| ==> LaunchedFire(st.fires, st.tasks[k])
  }

  ghost predicate LaunchedFire(fires: seq<Firing>, t: Fire) {
    t.spec.enabled && Firing(t.spec.id, t.scheduledAt) in fires
  }

  lemma {:induction false} TickLaunched(cap: int, st: State, due: seq<Schedule>, now: int)
    requires Launched(st) && forall i :: 0 <= i < |due| ==> due[i].enabled
    ensures Launched(StartDue(cap, st, due, now))
    decreases |due|
  {
    hide CanStart;
    if due != [] {
      var next := StartFire(st, due[0], now);
      assert next.fires[|st.fires|] == Firing(due[0].id, now);
      TickLaunched(cap, if CanStart(cap, st, due[0]) then next else st, due[1..], now);
    }
  }

  lemma {:induction false} AllLaunched(cap: int, states: seq<State>, events: seq<Event>, n: nat)
    requires IsRun(cap, states, events) && Initial(states[0]) && n <= |events|
    ensures Launched(states[n])
  {
    if n > 0 {
      AllLaunched(cap, states, events, n - 1);
      var st, e := states[n - 1], events[n - 1];
      assert Possible(st, e) && states[n] == Step(cap, st, e);
      hide IsRun, Initial, LaunchedFire;
      match e
      case Tick(now, due) =>
        assert forall i :: 0 <= i < |due| ==> IsDue(due[i], now);
        TickLaunched(cap, st, due, now);
      case Advance(k) => MarkedLaunched(st.fires, st.tasks[k]);
      case Release(k) =>
      case Restart(_) =>
    }
  }

  lemma MarkedLaunched(fires: seq<Firing>, t: Fire)
    ensures LaunchedFire(fires, t.(advanced := true)) == LaunchedFire(fires, t)
  {
  }

  /** When a schedule that fired at `at` is to fire again: an interval once it is
      over, a cron schedule at the next match, a one-shot never. */
  ghost predicate DueAgain(trigger: Trigger, at: int, now: int) {
    match trigger
    case OneShot(_) => false
    case Interval(d) => now >= at + d
    case CronTrigger(next) => next(at).Some? && now >= next(at).value
  }

  /** The stored schedule makes that decision at now. */
  ghost predicate Awaits(spec: Schedule, at: int, now: int) {
    spec.lastRunAt == Some(at) && (IsDue(spec, now) <==> DueAgain(spec.trigger, at, now))
  }

  lemma AdvanceAwaits(st: State, k: nat, now: int)
    requires k < |st.tasks| && st.tasks[k].spec.enabled
    requires var t := st.tasks[k]; t.spec.trigger.CronTrigger? ==> t.spec.trigger.next(t.scheduledAt).Some?
    ensures var t, next := st.tasks[k], AdvanceTask(st, k);
            && t.spec.id in next.store && next.store[t.spec.id].trigger == t.spec.trigger
            && Awaits(next.store[t.spec.id], t.scheduledAt, now)
  {
  }

  /** The fire's progress is stored: the schedule is due again exactly when it
      should be, unless the cron search raised. */
  ghost predicate StoresTurn(st: State, t: Fire) {
    (t.spec.trigger.CronTrigger? ==> t.spec.trigger.next(t.scheduledAt).Some?) ==>
      && t.spec.id in st.store && st.store[t.spec.id].trigger == t.spec.trigger
      && forall now :: Awaits(st.store[t.spec.id], t.scheduledAt, now)
  }

  lemma AdvanceStoresTurn(st: State, k: nat)
    requires k < |st.tasks| && st.tasks[k].spec.enabled
    ensures StoresTurn(AdvanceTask(st, k), st.tasks[k])
  {
    var t := st.tasks[k];
    if t.spec.trigger.CronTrigger? ==> t.spec.trigger.next(t.scheduledAt).Some? {
      hide Awaits;
      forall now ensures t.spec.id in AdvanceTask(st, k).store &&
                         AdvanceTask(st, k).store[t.spec.id].trigger == t.spec.trigger &&
                         Awaits(AdvanceTask(st, k).store[t.spec.id], t.scheduledAt, now)
      {
        AdvanceAwaits(st, k, now);
      }
    }
  }

  /** A restore at now neither loses nor moves a later turn of a one-shot or
      interval schedule that has fired. */
  lemma RestoreAwaits(spec: Schedule, at: int, now: int, later: int)
    requires Awaits(spec, at, later) && now <= later && !spec.trigger.CronTrigger?
    ensures Awaits(RestoreSchedule(spec, now), at, later)
  {
  }

  /** When a restored schedule is due: a one-shot at its time unless it has run,
      an interval one interval after its last run, or after the restore if it
      has not run, and a cron schedule at the first match after the restore. */
  lemma RestoredDueIff(spec: Schedule, now: int, later: int)
    requires now <= later && spec.enabled
    ensures IsDue(RestoreSchedule(spec, now), later) <==>
              match spec.trigger
              case OneShot(runAt) =>
                spec.lastRunAt.None? && (if runAt.Some? then later >= runAt.value else IsDue(spec, later))
              case Interval(d) => later >= (if spec.lastRunAt.Some? then spec.lastRunAt.value else now) + d
              case CronTrigger(next) => next(now).Some? && later >= next(now).value
  {
  }

  /** Between two points of a run nothing moves the schedule on: no fire of it is
      advanced, and no restore recomputes it, except for restores before now if
      the trigger is no cron trigger. */
  ghost predicate Undisturbed(states: seq<State>, events: seq<Event>, i: nat, j: nat, id: Id, trigger: Trigger,
                              now: int)
    requires i <= j <= |events| < |states|
  {
    forall n :: i <= n < j ==> LeavesAlone(states[n], events[n], id, trigger, now)
  }

  ghost predicate LeavesAlone(st: State, e: Event, id: Id, trigger: Trigger, now: int) {
    && (e.Advance? && e.k < |st.tasks| ==> st.tasks[e.k].spec.id != id)
    && (e.Restart? ==> e.now <= now && !trigger.CronTrigger?)
  }

  lemma {:induction false} TickStores(cap: int, st: State, due: seq<Schedule>, now: int)
    ensures StartDue(cap, st, due, now).store == st.store
    decreases |due|
  {
    hide CanStart;
    if due != [] {
      TickStores(cap, if CanStart(cap, st, due[0]) then StartFire(st, due[0], now) else st, due[1..], now);
    }
  }

  lemma StepAwaits(cap: int, st: State, e: Event, id: Id, at: int, now: int)
    requires Possible(st, e) && id in st.store && LeavesAlone(st, e, id, st.store[id].trigger, now)
    requires Awaits(st.store[id], at, now)
    requires forall k :: 0 <= k < |st.tasks| ==> st.tasks[k].spec.id in st.store
    ensures var t := Step(cap, st, e);
            id in t.store && t.store[id].trigger == st.store[id].trigger && Awaits(t.store[id], at, now)
  {
    match e
    case Tick(clock, due) => TickStores(cap, st, due, clock);
    case Restart(clock) =>
      RestoredEach(st.ids, st.store, clock);
      RestoreAwaits(st.store[id], at, clock, now);
      RestoreScheduleKeeps(st.store[id], clock);
    case Advance(_) => hide IsDue, DueAgain;
    case Release(_) =>
  }

  lemma TasksStored(cap: int, st: State)
    requires Inv(cap, false, st)
    ensures forall k :: 0 <= k < |st.tasks| ==> st.tasks[k].spec.id in st.store
  {
    forall k | 0 <= k < |st.tasks| ensures st.tasks[k].spec.id in st.store {
      assert TaskOk(st, st.tasks[k]);
    }
  }

  lemma {:induction false} AwaitsUntil(cap: int, states: seq<State>, events: seq<Event>, i: nat, j: nat, id: Id,
                                       at: int, now: int)
    requires IsRun(cap, states, events) && Initial(states[0]) && i <= j <= |events|
    requires id in states[i].store && Awaits(states[i].store[id], at, now)
    requires Undisturbed(states, events, i, j, id, states[i].store[id].trigger, now)
    ensures id in states[j].store && states[j].store[id].trigger == states[i].store[id].trigger
    ensures Awaits(states[j].store[id], at, now)
  {
    if i < j {
      AwaitsUntil(cap, states, events, i, j - 1, id, at, now);
      ProtocolSafe(cap, false, states, events, j - 1);
      TasksStored(cap, states[j - 1]);
      hide Initial, Awaits, Step, Possible, Inv, LeavesAlone;
      StepAwaits(cap, states[j - 1], events[j - 1], id, at, now);
    }
  }

  /** A tick serves every due schedule, each once. */
  ghost predicate ServesAll(st: State, due: seq<Schedule>, now: int) {
    && (forall id :: id in st.store && IsDue(st.store[id], now) ==> st.store[id] in due)
    && (forall i, j :: 0 <= i < j < |due| ==> due[i].id != due[j].id)
  }

  /** A slot is left for the schedule when the tick comes to it. */
  ghost predicate SlotFree(cap: int, st: State, due: seq<Schedule>, spec: Schedule) {
    && CountOf(st.tasks, spec.id) < spec.maxConcurrent
    && forall i :: 0 <= i < |due| && due[i] == spec ==> |st.tasks| + i < cap
  }

  ghost predicate FiresIn(before: State, after: State, id: Id) {
    exists f :: |before.fires| <= f < |after.fires| && after.fires[f].id == id
  }

  ghost predicate NewFiresAt(before: State, after: State, now: int) {
    forall f :: |before.fires| <= f < |after.fires| ==> after.fires[f].at == now
  }

  lemma {:induction false} TickFiresDue(cap: int, st: State, due: seq<Schedule>, now: int, id: Id)
    requires forall i :: 0 <= i < |due| ==> due[i].id != id
    ensures !FiresIn(st, StartDue(cap, st, due, now), id)
    decreases |due|
  {
    hide CanStart;
    if due != [] {
      var next := if CanStart(cap, st, due[0]) then StartFire(st, due[0], now) else st;
      TickFiresDue(cap, next, due[1..], now, id);
      TickFires(cap, next, due[1..], now);
      var last := StartDue(cap, next, due[1..], now);
      assert forall f :: |st.fires| <= f < |next.fires| ==> last.fires[f] == next.fires[f];
    }
  }

  /** A started fire stays in the history. */
  lemma StartedFires(cap: int, st: State, spec: Schedule, due: seq<Schedule>, now: int)
    ensures FiresIn(st, StartDue(cap, StartFire(st, spec, now), due, now), spec.id)
  {
    var next := StartFire(st, spec, now);
    TickFires(cap, next, due, now);
    assert next.fires[|st.fires|] == Firing(spec.id, now);
    assert StartDue(cap, next, due, now).fires[|st.fires|] == next.fires[|st.fires|];
  }

  /** Serving another schedule takes at most one slot, and none of this one's. */
  lemma ServesAnother(cap: int, st: State, spec: Schedule, now: int, id: Id)
    requires Inv(cap, false, st) && spec.id in st.store && st.store[spec.id] == spec && IsDue(spec, now)
    requires spec.id != id
    ensures var next := if CanStart(cap, st, spec) then StartFire(st, spec, now) else st;
            && Inv(cap, false, next) && next.store == st.store && st.fires <= next.fires
            && |next.tasks| <= |st.tasks| + 1 && CountOf(next.tasks, id) == CountOf(st.tasks, id)
  {
    if CanStart(cap, st, spec) {
      StartKeeps(cap, false, st, spec, now);
      CountAppend(st.tasks, Fire(spec, now, false));
    }
    hide Inv, CanStart, CountOf;
  }

  lemma MayStart(cap: int, st: State, spec: Schedule)
    requires Inv(cap, false, st) && CountOf(st.tasks, spec.id) < spec.maxConcurrent && |st.tasks| < cap
    ensures CanStart(cap, st, spec)
  {
    assert Active(st, spec.id) == CountOf(st.tasks, spec.id);
  }

  lemma {:induction false} TickStartsDue(cap: int, st: State, due: seq<Schedule>, now: int, i: nat)
    requires i < |due| && Inv(cap, false, st) && DueIn(st, due, now)
    requires forall m, n :: 0 <= m < n < |due| ==> due[m].id != due[n].id
    requires CountOf(st.tasks, due[i].id) < due[i].maxConcurrent && |st.tasks| + i < cap
    ensures FiresIn(st, StartDue(cap, st, due, now), due[i].id)
    decreases |due|
  {
    hide Inv, CountOf, CanStart, IsDue;
    if i == 0 {
      MayStart(cap, st, due[0]);
      StartedFires(cap, st, due[0], due[1..], now);
    } else {
      ServesAnother(cap, st, due[0], now, due[i].id);
      var next := if CanStart(cap, st, due[0]) then StartFire(st, due[0], now) else st;
      assert due[1..][i - 1] == due[i];
      TickStartsDue(cap, next, due[1..], now, i - 1);
    }
  }

  /** A tick that has a slot for the schedule fires it exactly if it is due. */
  lemma TickFiresIff(cap: int, st: State, due: seq<Schedule>, now: int, id: Id)
    requires Inv(cap, false, st) && id in st.store && DueIn(st, due, now) && ServesAll(st, due, now)
    requires SlotFree(cap, st, due, st.store[id])
    ensures FiresIn(st, StartDue(cap, st, due, now), id) <==> IsDue(st.store[id], now)
  {
    assert StoreOk(st);
    if IsDue(st.store[id], now) {
      var i :| 0 <= i < |due| && due[i] == st.store[id];
      TickStartsDue(cap, st, due, now, i);
    } else {
      TickFiresDue(cap, st, due, now, id);
    }
  }

  /** A fire that has stored its progress: the schedule fires again at the first
      tick with a free slot at which its interval is over or its next match has
      come, and not before; a one-shot does not. An interval schedule that is
      ticked d after its last fire fires then. */
  lemma FiresAgainIff(cap: int, states: seq<State>, events: seq<Event>, i: nat, j: nat)
    requires IsRun(cap, states, events) && Initial(states[0]) && i < j < |events|
    requires events[i].Advance? && events[j].Tick?
    requires var t := states[i].tasks[events[i].k];
             && (t.spec.trigger.CronTrigger? ==> t.spec.trigger.next(t.scheduledAt).Some?)
             && Undisturbed(states, events, i + 1, j, t.spec.id, t.spec.trigger, events[j].now)
             && ServesAll(states[j], events[j].due, events[j].now)
             && (t.spec.id in states[j].store ==>
                   SlotFree(cap, states[j], events[j].due, states[j].store[t.spec.id]))
    ensures var t := states[i].tasks[events[i].k];
            && Firing(t.spec.id, t.scheduledAt) in states[i].fires
            && (FiresIn(states[j], states[j + 1], t.spec.id) <==>
                DueAgain(t.spec.trigger, t.scheduledAt, events[j].now))
    ensures NewFiresAt(states[j], states[j + 1], events[j].now)
  {
    var k, now := events[i].k, events[j].now;
    var t := states[i].tasks[k];
    AllLaunched(cap, states, events, i);
    assert LaunchedFire(states[i].fires, t);
    assert states[i + 1] == AdvanceTask(states[i], k);
    AdvanceAwaits(states[i], k, now);
    AwaitsUntil(cap, states, events, i + 1, j, t.spec.id, t.scheduledAt, now);
    ProtocolSafe(cap, false, states, events, j);
    assert Possible(states[j], events[j]) && states[j + 1] == Step(cap, states[j], events[j]);
    TickFires(cap, states[j], events[j].due, now);
    hide IsRun, Initial, Inv, Undisturbed, SlotFree, ServesAll, IsDue, DueAgain, DueIn, FiresIn, AdvanceTask, StartDue;
    TickFiresIff(cap, states[j], events[j].due, now, t.spec.id);
  }

  // ---- when fires are kept apart

  ghost predicate RunTo(cap: int, forward: bool, states: seq<State>, events: seq<Event>, st: State) {
    && IsRun(cap, states, events) && Initial(states[0]) && st == states[|events|]
    && (forward ==> ClockForward(events))
  }

  /** Reached by some run, or by some run with a clock that runs forward. */
  ghost predicate Reachable(cap: int, forward: bool, st: State) {
    exists states, events :: RunTo(cap, forward, states, events, st)
  }

  ghost predicate Stores(st: State, id: Id, maxConcurrent: nat, trigger: Trigger)
    requires id in st.store
  {
    st.store[id].maxConcurrent == maxConcurrent && st.store[id].trigger == trigger
  }

  /** In every such run the fires of a schedule with this cap and trigger are
      kept apart. */
  ghost predicate AlwaysGuarded(cap: int, maxConcurrent: nat, trigger: Trigger, forward: bool) {
    forall st, id :: Reachable(cap, forward, st) && id in st.store && Stores(st, id, maxConcurrent, trigger) ==>
      History(st, id)
  }

  /** When that is so. Overlap breaks everything but an interval of zero, for
      which it takes a clock that runs backward; a cron schedule that can fire
      at all also needs a search that never raises, and the forward clock. */
  ghost predicate KeptApart(cap: int, maxConcurrent: nat, trigger: Trigger, forward: bool) {
    var single := cap <= 1 || maxConcurrent <= 1;
    match trigger
    case OneShot(_) => single
    case Interval(d) => single || (forward && d == 0)
    case CronTrigger(next) => cap <= 0 || maxConcurrent == 0 || (forward && single && NeverRaises(next))
  }

  /** Nothing fired that has no slot. */
  ghost predicate HadSlot(cap: int, st: State) {
    forall i :: 0 <= i < |st.fires| ==>
      cap >= 1 && st.fires[i].id in st.store && st.store[st.fires[i].id].maxConcurrent >= 1
  }

  lemma StepHadSlot(cap: int, st: State, e: Event)
    requires Inv(cap, false, st) && Possible(st, e) && HadSlot(cap, st)
    ensures HadSlot(cap, Step(cap, st, e))
  {
    match e
    case Tick(now, due) => TickHadSlot(cap, st, due, now);
    case Advance(k) => assert TaskOk(st, st.tasks[k]);
    case Release(_) =>
    case Restart(now) =>
      RestoredEach(st.ids, st.store, now);
      hide Inv;
  }

  lemma {:induction false} FiredHadSlot(cap: int, states: seq<State>, events: seq<Event>, n: nat)
    requires IsRun(cap, states, events) && Initial(states[0]) && n <= |events|
    ensures HadSlot(cap, states[n])
  {
    if n > 0 {
      FiredHadSlot(cap, states, events, n - 1);
      ProtocolSafe(cap, false, states, events, n - 1);
      hide Inv, HadSlot, Step, Initial;
      StepHadSlot(cap, states[n - 1], events[n - 1]);
    }
  }

  lemma {:induction false} TickHadSlot(cap: int, st: State, due: seq<Schedule>, now: int)
    requires DueIn(st, due, now) && HadSlot(cap, st) && (forall k :: k in st.active ==> st.active[k] > 0)
    ensures HadSlot(cap, StartDue(cap, st, due, now))
    decreases |due|
  {
    hide IsDue;
    if due != [] {
      if CanStart(cap, st, due[0]) {
        TickHadSlot(cap, StartFire(st, due[0], now), due[1..], now);
      } else {
        TickHadSlot(cap, st, due[1..], now);
      }
    }
  }

  lemma ApartWhenKept(cap: int, maxConcurrent: nat, trigger: Trigger, forward: bool, states: seq<State>,
                      events: seq<Event>, st: State, id: Id)
    requires KeptApart(cap, maxConcurrent, trigger, forward) && RunTo(cap, forward, states, events, st)
    requires id in st.store && Stores(st, id, maxConcurrent, trigger)
    requires trigger.CronTrigger? ==> CronLike(trigger.next)
    ensures History(st, id)
  {
    var n := |events|;
    hide Initial, CronLike, NeverRaises, ClockForward, IsRun, Protected;
    ProtocolSafe(cap, false, states, events, n);
    FiredHadSlot(cap, states, events, n);
    if forward {
      FiresInTime(cap, states, events, n);
      ForwardRestartsAhead(cap, states, events);
      hide RestartsAhead;
      ProtocolSafe(cap, true, states, events, n);
    }
  }

  // ---- when they are not

  /** A store of one schedule, due at `at`, before anything has fired. */
  function Begin(id: Id, trigger: Trigger, maxConcurrent: nat, at: int): State {
    State([id], map[id := Schedule(id, trigger, maxConcurrent, true, Some(at), None)], map[], [], [])
  }

  lemma BeginIsInitial(id: Id, trigger: Trigger, maxConcurrent: nat, at: int)
    ensures Initial(Begin(id, trigger, maxConcurrent, at))
  {
  }

  lemma OneId(id: Id, active: map<Id, nat>)
    ensures Total([id], active) == if id in active then active[id] else 0
  {
    assert [id][..0] == [];
  }

  lemma StartsOne(cap: int, st: State, spec: Schedule, now: int)
    requires CanStart(cap, st, spec)
    ensures StartDue(cap, st, [spec], now) == StartFire(st, spec, now)
  {
    assert [spec][1..] == [];
  }

  /** A tick serves the only schedule while it has a slot. */
  lemma TickStarts(cap: int, st: State, id: Id, now: int)
    requires st.ids == [id] && id in st.store && st.store[id].id == id && IsDue(st.store[id], now)
    requires Active(st, id) < st.store[id].maxConcurrent && Active(st, id) < cap
    ensures Possible(st, Tick(now, [st.store[id]]))
    ensures Step(cap, st, Tick(now, [st.store[id]])) == StartFire(st, st.store[id], now)
  {
    OneId(id, st.active);
    StartsOne(cap, st, st.store[id], now);
  }

  /** Once two fires may overlap, the second tick meets the schedule before the
      first fire has moved it on: at the same instant, and for an interval of
      zero at an earlier one. */
  lemma OverlapRefires(cap: int, maxConcurrent: nat, trigger: Trigger, id: Id)
      returns (states: seq<State>, events: seq<Event>)
    requires cap >= 2 && maxConcurrent >= 2 && (trigger.CronTrigger? ==> CronLike(trigger.next))
    ensures IsRun(cap, states, events) && Initial(states[0]) && |events| == 2 && id in states[2].store
    ensures Stores(states[2], id, maxConcurrent, trigger) && !History(states[2], id)
    ensures trigger != Interval(0) ==>
              (exists due :: events == [Tick(1, due), Tick(1, due)]) && ClockForward(events)
  {
    var again := if trigger == Interval(0) then 0 else 1;
    var s0 := Begin(id, trigger, maxConcurrent, 0);
    var spec := s0.store[id];
    var s1 := StartFire(s0, spec, 1);
    var s2 := StartFire(s1, spec, again);
    TickStarts(cap, s0, id, 1);
    TickStarts(cap, s1, id, again);
    assert s2.fires[0] == Firing(id, 1) && s2.fires[1] == Firing(id, again);
    hide Step, Possible;
    states, events := [s0, s1, s2], [Tick(1, [spec]), Tick(again, [spec])];
  }

  lemma AdvancesTo(st: State, spec: Schedule)
    requires |st.tasks| == 1 && Progress(st.tasks[0].spec, st.tasks[0].scheduledAt) == Some(spec)
    ensures AdvanceTask(st, 0) == st.(store := st.store[spec.id := spec], tasks := [st.tasks[0].(advanced := true)])
  {
  }

  /** Giving the only slot back. */
  lemma ReleasesOnly(st: State, id: Id)
    requires |st.tasks| == 1 && st.tasks[0].spec.id == id && st.active == map[id := 1]
    ensures ReleaseTask(st, 0) == st.(active := map[], tasks := [])
  {
    assert Active(st, id) == 1;
    assert st.tasks[..0] + st.tasks[1..] == [];
  }

  /** A cron search that raises leaves the schedule due when the slot is given
      back: the next tick fires it again. */
  lemma RaisingRefires(cap: int, maxConcurrent: nat, next: int -> Option<int>, t: int, id: Id)
      returns (states: seq<State>, events: seq<Event>)
    requires cap >= 1 && maxConcurrent >= 1 && next(t).None?
    ensures IsRun(cap, states, events) && Initial(states[0]) && |events| == 3 && id in states[3].store
    ensures Stores(states[3], id, maxConcurrent, CronTrigger(next)) && !History(states[3], id)
    ensures ClockForward(events)
    ensures exists due :: events == [Tick(t, due), Release(0), Tick(t + 1, due)]
  {
    var s0 := Begin(id, CronTrigger(next), maxConcurrent, t);
    var spec := s0.store[id];
    var s1 := StartFire(s0, spec, t);
    TickStarts(cap, s0, id, t);
    var s2 := s1.(active := map[], tasks := []);
    ReleasesOnly(s1, id);
    var s3 := StartFire(s2, spec, t + 1);
    TickStarts(cap, s2, id, t + 1);
    assert Possible(s1, Release(0));
    assert s3.fires[0] == Firing(id, t) && s3.fires[1] == Firing(id, t + 1);
    states, events := [s0, s1, s2, s3], [Tick(t, [spec]), Release(0), Tick(t + 1, [spec])];
    hide Step, Possible;
  }

  lemma RestoresOnly(st: State, id: Id, now: int)
    requires st.ids == [id] && id in st.store && !RestoreRaises(st.store[id], now)
    ensures RestoreAll(st, now) == st.(store := st.store[id := RestoreSchedule(st.store[id], now)])
  {
    assert [id][..0] == [];
    assert RestoreList([], st.store, now) == st.store;
  }

  /** A restore that reads an earlier clock than a fire makes a cron schedule
      due for the same match again. */
  lemma EarlierRestoreRefires(cap: int, maxConcurrent: nat, next: int -> Option<int>, id: Id)
      returns (states: seq<State>, events: seq<Event>)
    requires cap >= 1 && maxConcurrent >= 1 && CronLike(next) && NeverRaises(next)
    ensures IsRun(cap, states, events) && Initial(states[0]) && |events| == 5 && id in states[5].store
    ensures Stores(states[5], id, maxConcurrent, CronTrigger(next)) && !History(states[5], id)
  {
    var t := next(0).value;
    var s0 := Begin(id, CronTrigger(next), maxConcurrent, t);
    var spec := s0.store[id];
    var s1 := StartFire(s0, spec, t);
    TickStarts(cap, s0, id, t);
    var moved := spec.(lastRunAt := Some(t), nextRunAt := next(t));
    var s2 := s1.(store := map[id := moved], tasks := [Fire(spec, t, true)]);
    AdvancesTo(s1, moved);
    assert s1.store[id := moved] == map[id := moved];
    var s3 := s2.(active := map[], tasks := []);
    ReleasesOnly(s2, id);
    var due := moved.(nextRunAt := Some(t));
    var s4 := s3.(store := map[id := due]);
    RestoresOnly(s3, id, 0);
    assert s3.store[id := due] == map[id := due];
    var s5 := StartFire(s4, due, t);
    TickStarts(cap, s4, id, t);
    assert Possible(s1, Advance(0)) && Possible(s2, Release(0)) && Possible(s3, Restart(0));
    assert s5.fires[0] == Firing(id, t) && s5.fires[1] == Firing(id, t);
    states := [s0, s1, s2, s3, s4, s5];
    events := [Tick(t, [spec]), Advance(0), Release(0), Restart(0), Tick(t, [due])];
    hide Possible, CronLike, NeverRaises;
  }

  /** The plain run of an interval schedule: two fires exactly one interval apart. */
  lemma IntervalOnTheDot(cap: int, maxConcurrent: nat, d: nat, t: int, id: Id)
      returns (states: seq<State>, events: seq<Event>)
    requires cap >= 1 && maxConcurrent >= 1
    ensures IsRun(cap, states, events) && states[0] == Begin(id, Interval(d), maxConcurrent, t) && |events| == 4
    ensures events[0].Tick? && events[1] == Advance(0) && events[2] == Release(0) && events[3].Tick?
    ensures events[0].now == t && events[3].now == t + d
    ensures states[4].fires == [Firing(id, t), Firing(id, t + d)]
  {
    var s0 := Begin(id, Interval(d), maxConcurrent, t);
    var spec := s0.store[id];
    var s1 := StartFire(s0, spec, t);
    TickStarts(cap, s0, id, t);
    var moved := spec.(lastRunAt := Some(t), nextRunAt := Some(t + d));
    var s2 := s1.(store := map[id := moved], tasks := [Fire(spec, t, true)]);
    AdvancesTo(s1, moved);
    assert s1.store[id := moved] == map[id := moved];
    var s3 := s2.(active := map[], tasks := []);
    ReleasesOnly(s2, id);
    var s4 := StartFire(s3, moved, t + d);
    TickStarts(cap, s3, id, t + d);
    assert Possible(s1, Advance(0)) && Possible(s2, Release(0));
    states, events := [s0, s1, s2, s3, s4], [Tick(t, [spec]), Advance(0), Release(0), Tick(t + d, [moved])];
    hide Possible, StartDue;
  }

  lemma NotApartUnlessKept(cap: int, maxConcurrent: nat, trigger: Trigger, forward: bool)
    requires !KeptApart(cap, maxConcurrent, trigger, forward) && (trigger.CronTrigger? ==> CronLike(trigger.next))
    ensures exists st, id :: Reachable(cap, forward, st) && id in st.store && Stores(st, id, maxConcurrent, trigger) &&
                             !History(st, id)
  {
    hide Initial, ClockForward, History, Stores, CronLike, Step, Possible;
    var states: seq<State>, events: seq<Event>;
    if cap >= 2 && maxConcurrent >= 2 {
      states, events := OverlapRefires(cap, maxConcurrent, trigger, "");
    } else if !NeverRaises(trigger.next) {
      var t :| trigger.next(t).None?;
      states, events := RaisingRefires(cap, maxConcurrent, trigger.next, t, "");
    } else {
      states, events := EarlierRestoreRefires(cap, maxConcurrent, trigger.next, "");
    }
    assert RunTo(cap, forward, states, events, states[|events|]);
    assert Reachable(cap, forward, states[|events|]) && "" in states[|events|].store;
  }

  /** Fires are kept apart in every run, or in every run with a forward clock,
      exactly under the condition above. */
  lemma GuardedIff(cap: int, maxConcurrent: nat, trigger: Trigger, forward: bool)
    requires trigger.CronTrigger? ==> CronLike(trigger.next)
    ensures AlwaysGuarded(cap, maxConcurrent, trigger, forward) <==> KeptApart(cap, maxConcurrent, trigger, forward)
  {
    hide KeptApart, History, Stores, RunTo, CronLike;
    if KeptApart(cap, maxConcurrent, trigger, forward) {
      forall st, id | Reachable(cap, forward, st) && id in st.store && Stores(st, id, maxConcurrent, trigger)
        ensures History(st, id)
      {
        var states, events :| RunTo(cap, forward, states, events, st);
        ApartWhenKept(cap, maxConcurrent, trigger, forward, states, events, st, id);
      }
    } else {
      NotApartUnlessKept(cap, maxConcurrent, trigger, forward);
    }
  }

  // ---- the scheduler object

  /** due.sort by next_run_at, stable. */
  function InsertByNext(sorted: seq<Schedule>, x: Schedule): (r: seq<Schedule>)
    requires x.nextRunAt.Some? && forall y :: y in sorted ==> y.nextRunAt.Some?
    ensures |r| == |sorted| + 1 && forall y :: y in r <==> y == x || y in sorted
  {
    if sorted == [] then [x]
    else
      var last, init := sorted[|sorted| - 1], sorted[..|sorted| - 1];
      assert sorted == init + [last];
      if last.nextRunAt.value <= x.nextRunAt.value then sorted + [x] else InsertByNext(init, x) + [last]
  }

  /** Earlier next run first, and the store's order among equals. */
  ghost predicate Before(ids: seq<Id>, x: Schedule, y: Schedule) {
    && x.nextRunAt.Some? && y.nextRunAt.Some?
    && (x.nextRunAt.value < y.nextRunAt.value ||
        (x.nextRunAt.value == y.nextRunAt.value && Rank(ids, x.id) < Rank(ids, y.id)))
  }

  /** Strictly so: no schedule is listed twice. */
  ghost predicate ByNext(ids: seq<Id>, s: seq<Schedule>) {
    && (forall i :: 0 <= i < |s| ==> s[i].nextRunAt.Some?)
    && (forall i, j :: 0 <= i < j < |s| ==> Before(ids, s[i], s[j]))
  }

  lemma {:induction false} InsertKeepsOrder(ids: seq<Id>, sorted: seq<Schedule>, x: Schedule)
    requires x.nextRunAt.Some? && ByNext(ids, sorted)
    requires forall y :: y in sorted ==> Rank(ids, y.id) < Rank(ids, x.id)
    ensures ByNext(ids, InsertByNext(sorted, x))
  {
    hide Rank;
    if sorted != [] {
      var init, last := sorted[..|sorted| - 1], sorted[|sorted| - 1];
      assert last in sorted;
      if last.nextRunAt.value <= x.nextRunAt.value {
        AppendByNext(ids, sorted, x);
      } else {
        InsertKeepsOrder(ids, init, x);
        var r := InsertByNext(init, x);
        forall i | 0 <= i < |r| ensures Before(ids, r[i], last) {
          assert r[i] in r;
          if r[i] in init {
            var j :| 0 <= j < |init| && init[j] == r[i];
            assert sorted[j] == init[j];
          }
        }
      }
    }
  }

  lemma AppendByNext(ids: seq<Id>, sorted: seq<Schedule>, x: Schedule)
    requires sorted != [] && ByNext(ids, sorted) && x.nextRunAt.Some?
    requires sorted[|sorted| - 1].nextRunAt.value <= x.nextRunAt.value
    requires forall y :: y in sorted ==> Rank(ids, y.id) < Rank(ids, x.id)
    ensures ByNext(ids, sorted + [x])
  {
    hide Rank;
    forall i | 0 <= i < |sorted| ensures Before(ids, sorted[i], x) {
      assert sorted[i] in sorted;
      assert i < |sorted| - 1 ==> Before(ids, sorted[i], sorted[|sorted| - 1]);
    }
  }

  class WorkflowScheduler {
    const ids: seq<Id>
    const maxConcurrentRuns: int
    var store: map<Id, Schedule>
    var activeRuns: map<Id, nat>
    var tasks: seq<Fire>
    ghost var fires: seq<Firing>

    ghost function Abs(): State
      reads this
    {
      State(ids, store, activeRuns, tasks, fires)
    }

    constructor (keys: seq<Id>, schedules: map<Id, Schedule>, cap: int)
      requires Distinct(keys) && (forall id :: id in keys <==> id in schedules)
      requires forall id :: id in schedules ==> schedules[id].id == id
      ensures Initial(Abs()) && store == schedules && maxConcurrentRuns == cap
    {
      ids, store, maxConcurrentRuns := keys, schedules, cap;
      activeRuns, tasks, fires := map[], [], [];
    }

    /** Enabled schedules whose time has come, each once, earliest first and
        in the store's order among equals. */
    method DueSchedules(now: int) returns (due: seq<Schedule>)
      requires Distinct(ids)
      requires forall id :: id in ids ==> id in store
      requires forall id :: id in store ==> id in ids && store[id].id == id
      ensures DueIn(Abs(), due, now) && ByNext(ids, due)
      ensures forall id :: id in store && IsDue(store[id], now) ==> store[id] in due
    {
      due := [];
      for i := 0 to |ids|
        invariant ByNext(ids, due)
        invariant forall x :: x in due ==> Rank(ids, x.id) < i
        invariant forall x :: x in due ==> x.id in store && store[x.id] == x && IsDue(x, now)
        invariant forall k :: 0 <= k < i && IsDue(store[ids[k]], now) ==> store[ids[k]] in due
      {
        var spec := store[ids[i]];
        if IsDue(spec, now) {
          assert Rank(ids, spec.id) == i;
          InsertKeepsOrder(ids, due, spec);
          due := InsertByNext(due, spec);
        }
      }
    }

    predicate CanStartNow(spec: Schedule)
      reads this
      ensures CanStartNow(spec) <==> CanStart(maxConcurrentRuns, Abs(), spec)
    {
      Total(ids, activeRuns) < maxConcurrentRuns &&
      (if spec.id in activeRuns then activeRuns[spec.id] else 0) < spec.maxConcurrent
    }

    /** The loop of tick. */
    method StartAll(due: seq<Schedule>, now: int) returns (fired: seq<Schedule>)
      modifies this
      ensures Abs() == StartDue(maxConcurrentRuns, old(Abs()), due, now)
      ensures tasks == old(tasks) + seq(|fired|, i requires 0 <= i < |fired| => Fire(fired[i], now, false))
    {
      hide CanStart;
      fired := [];
      assert due[0..] == due;
      for i := 0 to |due|
        invariant StartDue(maxConcurrentRuns, old(Abs()), due, now) == StartDue(maxConcurrentRuns, Abs(), due[i..], now)
        invariant tasks == old(tasks) + seq(|fired|, k requires 0 <= k < |fired| => Fire(fired[k], now, false))
      {
        assert due[i..][1..] == due[i + 1..];
        var spec := due[i];
        if CanStartNow(spec) {
          activeRuns := activeRuns[spec.id := (if spec.id in activeRuns then activeRuns[spec.id] else 0) + 1];
          tasks := tasks + [Fire(spec, now, false)];
          fires := fires + [Firing(spec.id, now)];
          fired := fired + [spec];
        }
      }
    }

    /** Starts a fire for every due schedule that a slot is free for, the
        earliest due first. */
    method TickNow(now: int) returns (fired: seq<Schedule>, ghost due: seq<Schedule>)
      requires Inv(maxConcurrentRuns, false, Abs())
      modifies this
      ensures Possible(old(Abs()), Tick(now, due)) && Abs() == Step(maxConcurrentRuns, old(Abs()), Tick(now, due))
      ensures ByNext(ids, due) && ServesAll(old(Abs()), due, now)
      ensures tasks == old(tasks) + seq(|fired|, i requires 0 <= i < |fired| => Fire(fired[i], now, false))
      ensures Inv(maxConcurrentRuns, false, Abs())
    {
      var schedules := DueSchedules(now);
      due := schedules;
      hide Inv, DueIn, ByNext, StartDue;
      StepKeeps(maxConcurrentRuns, false, Abs(), Tick(now, due));
      fired := StartAll(schedules, now);
    }

    /** _advance for the k-th task in flight. */
    method AdvanceFire(k: nat)
      requires Inv(maxConcurrentRuns, false, Abs()) && Possible(Abs(), Advance(k))
      modifies this
      ensures Abs() == Step(maxConcurrentRuns, old(Abs()), Advance(k)) && Inv(maxConcurrentRuns, false, Abs())
      ensures old(tasks)[k].spec.enabled ==> StoresTurn(Abs(), old(tasks)[k])
    {
      if tasks[k].spec.enabled {
        AdvanceStoresTurn(Abs(), k);
      }
      StepKeeps(maxConcurrentRuns, false, Abs(), Advance(k));
      hide Inv, StoresTurn;
      var t := tasks[k];
      var progress := Progress(t.spec, t.scheduledAt);
      if progress.Some? {
        store := store[progress.value.id := progress.value];
        tasks := tasks[k := t.(advanced := true)];
      }
    }

    /** The finally clause of the k-th task in flight. */
    method ReleaseFire(k: nat)
      requires Inv(maxConcurrentRuns, false, Abs()) && Possible(Abs(), Release(k))
      modifies this
      ensures Abs() == Step(maxConcurrentRuns, old(Abs()), Release(k)) && Inv(maxConcurrentRuns, false, Abs())
    {
      StepKeeps(maxConcurrentRuns, false, Abs(), Release(k));
      hide Inv;
      var id := tasks[k].spec.id;
      var running: int := if id in activeRuns then activeRuns[id] else 0;
      var active := running - 1;
      if active <= 0 {
        activeRuns := map j | j in activeRuns && j != id :: activeRuns[j];
      } else {
        activeRuns := activeRuns[id := active];
      }
      tasks := tasks[..k] + tasks[k + 1..];
    }

    /** restore, whether or not fires are in flight; whole is false when a cron
        search raises out of it. */
    method Restore(now: int) returns (whole: bool)
      requires Inv(maxConcurrentRuns, false, Abs())
      modifies this
      ensures Abs() == Step(maxConcurrentRuns, old(Abs()), Restart(now)) && Inv(maxConcurrentRuns, false, Abs())
      ensures whole <==> forall i :: 0 <= i < |ids| ==> !RestoreRaises(old(store)[ids[i]], now)
    {
      StepKeeps(maxConcurrentRuns, false, Abs(), Restart(now));
      assert Distinct(ids);
      hide Inv;
      store, whole := RestoreStore(ids, store, now);
    }
  }

  /** The loop of restore over the store's listing. */
  method RestoreStore(ids: seq<Id>, store: map<Id, Schedule>, now: int)
      returns (restored: map<Id, Schedule>, whole: bool)
    requires Distinct(ids) && forall id :: id in ids ==> id in store
    ensures restored == RestoreList(ids, store, now)
    ensures whole <==> forall i :: 0 <= i < |ids| ==> !RestoreRaises(store[ids[i]], now)
  {
    hide RestoreSchedule, RestoreRaises;
    restored := store;
    for i := 0 to |ids|
      invariant restored == RestoreList(ids[..i], store, now)
      invariant forall k :: i <= k < |ids| ==> ids[k] in restored && restored[ids[k]] == store[ids[k]]
      invariant forall k :: 0 <= k < i ==> !RestoreRaises(store[ids[k]], now)
    {
      assert ids[..i + 1][..i] == ids[..i];
      if RestoreRaises(restored[ids[i]], now) {
        RaisedStops(ids, store, now, i);
        return restored, false;
      }
      restored := restored[ids[i] := RestoreSchedule(restored[ids[i]], now)];
    }
    assert ids[..|ids|] == ids;
    return restored, true;
  }

  /** What is served is what comes before the first that raises. */
  lemma {:induction false} RaisedStops(ids: seq<Id>, store: map<Id, Schedule>, now: int, i: nat)
    requires (forall id :: id in ids ==> id in store) && i < |ids| && RestoreRaises(store[ids[i]], now)
    ensures RestoreList(ids, store, now) == RestoreList(ids[..i], store, now)
  {
    if i < |ids| - 1 {
      RaisedStops(ids[..|ids| - 1], store, now, i);
      assert ids[..|ids| - 1][..i] == ids[..i];
    }
  }
}
