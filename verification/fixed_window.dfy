/** The server's fixed-window limiter per request identity. */
module FixedWindow {

  type Identity = string

  datatype Call = Call(id: Identity, at: real)

  datatype Window = Window(start: real, count: int)

  /** The window a call at `now` falls into, before it is counted. */
  function Current(hits: map<Identity, Window>, width: real, id: Identity, now: real): Window {
    var w := if id in hits then hits[id] else Window(now, 0);
    if now - w.start >= width then Window(now, 0) else w
  }

  /** The stored windows after a log of calls, denied calls included. */
  ghost function After(width: real, log: seq<Call>): map<Identity, Window> {
    if log == [] then map[]
    else
      var hits, c := After(width, log[..|log| - 1]), log[|log| - 1];
      var w := Current(hits, width, c.id, c.at);
      hits[c.id := w.(count := w.count + 1)]
  }

  /** The answer to a call after a log. */
  ghost predicate Allows(limit: int, width: real, log: seq<Call>, c: Call) {
    Current(After(width, log), width, c.id, c.at).count + 1 <= limit
  }

  ghost function RetryAfter(width: real, log: seq<Call>, c: Call): real {
    var left := Current(After(width, log), width, c.id, c.at).start + width - c.at;
    if left > 0.0 then left else 0.0
  }

  ghost predicate InOrder(log: seq<Call>) {
    forall i, j :: 0 <= i < j < |log| ==> log[i].at <= log[j].at
  }

  /** Allowed calls of id made from time a on, and before time b. */
  ghost function AllowedIn(limit: int, width: real, log: seq<Call>, id: Identity, a: real, b: real): nat {
    if log == [] then 0
    else
      var init, c := log[..|log| - 1], log[|log| - 1];
      AllowedIn(limit, width, init, id, a, b) +
        if c.id == id && a <= c.at < b && Allows(limit, width, init, c) then 1 else 0
  }

  ghost function Min(a: int, b: int): int {
    if a <= b then a else b
  }

  ghost function Cap(limit: int): nat {
    if limit > 0 then limit else 0
  }

  /** In the current window at most limit calls were allowed, and no more in
      any stretch of the same length just before it. */
  ghost predicate WindowOk(limit: int, width: real, log: seq<Call>, id: Identity) {
    var hits := After(width, log);
    if id !in hits then forall i :: 0 <= i < |log| ==> log[i].id != id
    else
      var w := hits[id];
      && w.count >= 1
      && (forall i :: 0 <= i < |log| && log[i].id == id ==> log[i].at < w.start + width)
      && (log != [] ==> w.start <= log[|log| - 1].at)
      && AllowedIn(limit, width, log, id, w.start, w.start + width) == Min(w.count, Cap(limit))
      && (forall a, b :: w.start - width <= a && b <= w.start ==> AllowedIn(limit, width, log, id, a, b) <= Cap(limit))
  }

  lemma {:induction false} NoCallsNoneAllowed(limit: int, width: real, log: seq<Call>, id: Identity, a: real, b: real)
    requires forall i :: 0 <= i < |log| && log[i].id == id ==> !(a <= log[i].at < b)
    ensures AllowedIn(limit, width, log, id, a, b) == 0
  {
    if log != [] {
      NoCallsNoneAllowed(limit, width, log[..|log| - 1], id, a, b);
    }
  }

  /** Counts over adjoining stretches add up; smaller stretches count less. */
  lemma {:induction false} SplitStretch(limit: int, width: real, log: seq<Call>, id: Identity, a: real, m: real,
                                        b: real)
    requires a <= m <= b
    ensures AllowedIn(limit, width, log, id, a, b) ==
              AllowedIn(limit, width, log, id, a, m) + AllowedIn(limit, width, log, id, m, b)
  {
    if log != [] {
      SplitStretch(limit, width, log[..|log| - 1], id, a, m, b);
    }
  }

  lemma Within(limit: int, width: real, log: seq<Call>, id: Identity, a: real, b: real, lo: real, hi: real)
    requires lo <= a && b <= hi
    ensures AllowedIn(limit, width, log, id, a, b) <= AllowedIn(limit, width, log, id, lo, hi)
  {
    if a <= b {
      SplitStretch(limit, width, log, id, lo, a, hi);
      SplitStretch(limit, width, log, id, a, b, hi);
    } else {
      NoCallsNoneAllowed(limit, width, log, id, a, b);
    }
  }

  lemma OneMore(limit: int, width: real, log: seq<Call>, c: Call)
    ensures forall a, b :: AllowedIn(limit, width, log + [c], c.id, a, b) ==
              AllowedIn(limit, width, log, c.id, a, b) + if a <= c.at < b && Allows(limit, width, log, c) then 1 else 0
    ensures c.id in After(width, log + [c])
    ensures var w := Current(After(width, log), width, c.id, c.at);
            After(width, log + [c])[c.id] == w.(count := w.count + 1)
  {
    assert (log + [c])[..|log|] == log;
  }

  /** A call that opens a new window. */
  lemma NewWindow(limit: int, width: real, log: seq<Call>, c: Call)
    requires WindowOk(limit, width, log, c.id) && InOrder(log + [c]) && width > 0.0
    requires c.id in After(width, log) ==> c.at - After(width, log)[c.id].start >= width
    ensures WindowOk(limit, width, log + [c], c.id)
  {
    hide AllowedIn, After;
    OneMore(limit, width, log, c);
    NoCallsNoneAllowed(limit, width, log, c.id, c.at, c.at + width);
    forall i | 0 <= i < |log| ensures log[i].at <= c.at {
      assert (log + [c])[i] == log[i] && (log + [c])[|log|] == c;
    }
    forall a, b | c.at - width <= a && b <= c.at ensures AllowedIn(limit, width, log + [c], c.id, a, b) <= Cap(limit) {
      if c.id in After(width, log) {
        var w := After(width, log)[c.id];
        EndsWithWindow(limit, width, log, c.id, w.start, width, a, b);
      } else {
        NoCallsNoneAllowed(limit, width, log, c.id, a, b);
      }
    }
  }

  /** From the start of the window on, all calls are in the window. */
  lemma EndsWithWindow(limit: int, width: real, log: seq<Call>, id: Identity, start: real, w: real, a: real, b: real)
    requires forall i :: 0 <= i < |log| && log[i].id == id ==> log[i].at < start + w
    requires start <= a
    ensures AllowedIn(limit, width, log, id, a, b) <= AllowedIn(limit, width, log, id, start, start + w)
  {
    if b <= start + w {
      Within(limit, width, log, id, a, b, start, start + w);
    } else if a <= start + w {
      SplitStretch(limit, width, log, id, a, start + w, b);
      NoCallsNoneAllowed(limit, width, log, id, start + w, b);
      Within(limit, width, log, id, a, start + w, start, start + w);
    } else {
      NoCallsNoneAllowed(limit, width, log, id, a, b);
    }
  }

  lemma {:induction false} WindowsOk(limit: int, width: real, log: seq<Call>, id: Identity)
    requires InOrder(log) && width > 0.0
    ensures WindowOk(limit, width, log, id)
  {
    if log != [] {
      var init, c := log[..|log| - 1], log[|log| - 1];
      assert log == init + [c];
      WindowsOk(limit, width, init, id);
      if c.id != id {
      } else if c.id in After(width, init) && c.at - After(width, init)[c.id].start < width {
      } else {
        NewWindow(limit, width, init, c);
      }
    }
  }

  /** Two windows at most meet any interval no longer than the window: it
      holds at most twice the limit of allowed calls of one identity. */
  lemma {:induction false} FixedWindowBound(limit: int, width: real, log: seq<Call>, id: Identity, a: real, b: real)
    requires InOrder(log) && width > 0.0 && b - a <= width
    ensures AllowedClosed(limit, width, log, id, a, b) <= 2 * Cap(limit)
  {
    if log != [] {
      var init, c := log[..|log| - 1], log[|log| - 1];
      assert log == init + [c];
      FixedWindowBound(limit, width, init, id, a, b);
      if c.id == id && a <= c.at <= b {
        WindowsOk(limit, width, log, id);
        OneMore(limit, width, init, c);
        LastWindows(limit, width, log, id, a, b);
      }
    }
  }

  /** Allowed calls of id in the closed interval from a to b. */
  ghost function AllowedClosed(limit: int, width: real, log: seq<Call>, id: Identity, a: real, b: real): nat {
    if log == [] then 0
    else
      var init, c := log[..|log| - 1], log[|log| - 1];
      AllowedClosed(limit, width, init, id, a, b) +
        if c.id == id && a <= c.at <= b && Allows(limit, width, init, c) then 1 else 0
  }

  lemma {:induction false} ClosedWithinOpen(limit: int, width: real, log: seq<Call>, id: Identity, a: real, b: real,
                                            hi: real)
    requires b < hi || forall i :: 0 <= i < |log| && log[i].id == id ==> log[i].at < hi
    ensures AllowedClosed(limit, width, log, id, a, b) <= AllowedIn(limit, width, log, id, a, hi)
  {
    if log != [] {
      ClosedWithinOpen(limit, width, log[..|log| - 1], id, a, b, hi);
    }
  }

  /** The stretch from width before now meets only the current window and the
      one before it. */
  lemma LastWindows(limit: int, width: real, log: seq<Call>, id: Identity, a: real, b: real)
    requires InOrder(log) && width > 0.0 && WindowOk(limit, width, log, id) && id in After(width, log)
    requires log != [] && log[|log| - 1].id == id && a <= log[|log| - 1].at <= b && b - a <= width
    ensures AllowedClosed(limit, width, log, id, a, b) <= 2 * Cap(limit)
  {
    hide AllowedIn, After, AllowedClosed;
    var w := After(width, log)[id];
    ClosedWithinOpen(limit, width, log, id, a, b, w.start + width);
    if a <= w.start {
      SplitStretch(limit, width, log, id, a, w.start, w.start + width);
      assert AllowedIn(limit, width, log, id, a, w.start) <= Cap(limit);
    } else {
      Within(limit, width, log, id, a, w.start + width, w.start, w.start + width);
    }
  }

  function Burst(id: Identity, at: real, n: nat): (r: seq<Call>)
    ensures |r| == n && forall i :: 0 <= i < n ==> r[i] == Call(id, at)
  {
    seq(n, _ => Call(id, at))
  }

  lemma OneAllowed(limit: int, width: real, log: seq<Call>, c: Call, a: real, b: real)
    requires width > 0.0 && a <= c.at <= b && Allows(limit, width, log, c)
    ensures AllowedClosed(limit, width, log + [c], c.id, a, b) == AllowedClosed(limit, width, log, c.id, a, b) + 1
    ensures var w := Current(After(width, log), width, c.id, c.at);
            Current(After(width, log + [c]), width, c.id, c.at) == w.(count := w.count + 1)
  {
    assert (log + [c])[..|log|] == log;
  }

  /** The calls of a burst into a new window are allowed up to the limit. */
  lemma {:induction false} BurstAllowed(limit: int, width: real, log: seq<Call>, id: Identity, at: real, n: nat,
                                        a: real, b: real)
    requires width > 0.0 && n <= limit && a <= at <= b
    requires Current(After(width, log), width, id, at) == Window(at, 0)
    ensures AllowedClosed(limit, width, log + Burst(id, at, n), id, a, b) ==
              AllowedClosed(limit, width, log, id, a, b) + n
    ensures Current(After(width, log + Burst(id, at, n)), width, id, at) == Window(at, n)
  {
    hide AllowedClosed, After;
    if n == 0 {
      assert log + Burst(id, at, 0) == log;
    } else {
      BurstAllowed(limit, width, log, id, at, n - 1, a, b);
      var short, c := log + Burst(id, at, n - 1), Call(id, at);
      assert log + Burst(id, at, n) == short + [c];
      OneAllowed(limit, width, short, c, a, b);
    }
  }

  /** The bound is reached: two bursts, one window apart, put twice the limit
      of allowed calls into an interval as long as the window. */
  lemma BoundIsReached(limit: nat, width: real, id: Identity) returns (log: seq<Call>)
    requires width > 0.0
    ensures InOrder(log) && AllowedClosed(limit, width, log, id, 0.0, width) == 2 * limit
  {
    var first := [] + Burst(id, 0.0, limit);
    BurstAllowed(limit, width, [], id, 0.0, limit, 0.0, width);
    BurstAllowed(limit, width, first, id, width, limit, 0.0, width) by {
      assert Current(After(width, first), width, id, 0.0) == Window(0.0, limit);
    }
    log := first + Burst(id, width, limit);
    assert AllowedClosed(limit, width, [], id, 0.0, width) == 0;
  }

  ghost function CallsOf(log: seq<Call>, id: Identity): seq<Call> {
    if log == [] then []
    else CallsOf(log[..|log| - 1], id) + if log[|log| - 1].id == id then [log[|log| - 1]] else []
  }

  lemma {:induction false} OwnWindowOnly(width: real, log: seq<Call>, id: Identity)
    ensures id in After(width, log) <==> id in After(width, CallsOf(log, id))
    ensures id in After(width, log) ==> After(width, log)[id] == After(width, CallsOf(log, id))[id]
  {
    if log != [] {
      var init, c := log[..|log| - 1], log[|log| - 1];
      OwnWindowOnly(width, init, id);
      if c.id == id {
        assert (CallsOf(init, id) + [c])[..|CallsOf(init, id)|] == CallsOf(init, id);
      } else {
        assert CallsOf(init, id) + [] == CallsOf(init, id);
      }
    }
  }

  /** Calls of other identities never change an answer. */
  lemma Independent(limit: int, width: real, log: seq<Call>, c: Call)
    ensures Allows(limit, width, log, c) == Allows(limit, width, CallsOf(log, c.id), c)
    ensures RetryAfter(width, log, c) == RetryAfter(width, CallsOf(log, c.id), c)
  {
    OwnWindowOnly(width, log, c.id);
  }

  /** A denied call that comes back exactly retry_after later, with no call of
      its identity in between, is allowed if any call can be; and one that
      comes back earlier is denied. */
  lemma RetryAfterIsExact(limit: int, width: real, log: seq<Call>, c: Call, between: seq<Call>, at: real)
    requires InOrder(log + [c]) && !Allows(limit, width, log, c) && width > 0.0
    requires forall i :: 0 <= i < |between| ==> between[i].id != c.id
    ensures limit >= 1 && at == c.at + RetryAfter(width, log, c) ==>
              Allows(limit, width, log + [c] + between, Call(c.id, at))
    ensures c.at <= at < c.at + RetryAfter(width, log, c) ==> !Allows(limit, width, log + [c] + between, Call(c.id, at))
  {
    WindowStays(width, log + [c], between, c.id);
    assert (log + [c])[..|log|] == log;
    WindowsOk(limit, width, log + [c], c.id);
  }

  lemma {:induction false} WindowStays(width: real, log: seq<Call>, between: seq<Call>, id: Identity)
    requires forall i :: 0 <= i < |between| ==> between[i].id != id
    ensures id in After(width, log + between) <==> id in After(width, log)
    ensures id in After(width, log) ==> After(width, log + between)[id] == After(width, log)[id]
  {
    if between == [] {
      assert log + between == log;
    } else {
      assert (log + between)[..|log + between| - 1] == log + between[..|between| - 1];
      WindowStays(width, log, between[..|between| - 1], id);
    }
  }

  class RateLimiter {
    const limit: int
    const windowS: real
    var hits: map<Identity, Window>
    ghost var log: seq<Call>

    ghost predicate Valid()
      reads this
    {
      hits == After(windowS, log)
    }

    constructor (maxCalls: int, window: real)
      ensures Valid() && limit == maxCalls && windowS == window && log == []
    {
      limit, windowS, hits, log := maxCalls, window, map[], [];
    }

    method Consume(identity: Identity, now: real) returns (allowed: bool, retryAfter: real)
      requires Valid()
      modifies this
      ensures Valid() && log == old(log) + [Call(identity, now)]
      ensures allowed <==> Allows(limit, windowS, old(log), Call(identity, now))
      ensures retryAfter == if allowed then 0.0 else RetryAfter(windowS, old(log), Call(identity, now))
    {
      log := log + [Call(identity, now)];
      assert log[..|log| - 1] == old(log);
      var w := if identity in hits then hits[identity] else Window(now, 0);
      if now - w.start >= windowS {
        w := Window(now, 0);
      }
      w := w.(count := w.count + 1);
      hits := hits[identity := w];
      if w.count > limit {
        var left := w.start + windowS - now;
        return false, if left > 0.0 then left else 0.0;
      }
      return true, 0.0;
    }

    method Clear()
      modifies this
      ensures Valid() && log == []
    {
      hits, log := map[], [];
    }
  }
}
