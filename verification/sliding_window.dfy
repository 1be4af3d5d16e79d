/** The per-provider sliding-window limiter against the full grant history. */
module SlidingWindow {
  import opened Wrappers

  const WINDOW := 60.0

  datatype Grant = Grant(at: real, tokens: int)

  /** Requests granted within the window that ends now. */
  ghost function RecentRequests(h: seq<Grant>, now: real): nat {
    if h == [] then 0
    else RecentRequests(h[..|h| - 1], now) + if now - h[|h| - 1].at < WINDOW then 1 else 0
  }

  /** Only positive amounts are counted. */
  function Charge(tokens: int): nat {
    if tokens > 0 then tokens else 0
  }

  ghost function RecentTokens(h: seq<Grant>, now: real): nat {
    if h == [] then 0
    else RecentTokens(h[..|h| - 1], now) + if now - h[|h| - 1].at < WINDOW then Charge(h[|h| - 1].tokens) else 0
  }

  /** The decision on the full history; a limit of zero is no limit. */
  ghost predicate Admits(rpm: nat, tpm: nat, h: seq<Grant>, now: real, tokens: int) {
    && (rpm > 0 ==> RecentRequests(h, now) < rpm)
    && (tpm > 0 && tokens > 0 ==> RecentTokens(h, now) + tokens <= tpm)
  }

  /** Grants in time order, each admitted by the ones before it. */
  ghost predicate Granted(rpm: nat, tpm: nat, h: seq<Grant>) {
    && (forall i, j :: 0 <= i < j < |h| ==> h[i].at <= h[j].at)
    && (forall i :: 0 <= i < |h| ==> Admits(rpm, tpm, h[..i], h[i].at, h[i].tokens))
  }

  ghost function GrantsIn(h: seq<Grant>, a: real, b: real): nat {
    if h == [] then 0
    else GrantsIn(h[..|h| - 1], a, b) + if a <= h[|h| - 1].at <= b then 1 else 0
  }

  ghost function TokensIn(h: seq<Grant>, a: real, b: real): nat {
    if h == [] then 0
    else
      var last := h[|h| - 1];
      TokensIn(h[..|h| - 1], a, b) + if a <= last.at <= b && last.tokens > 0 then last.tokens else 0
  }

  lemma {:induction false} IntervalIsRecent(h: seq<Grant>, a: real, b: real, now: real)
    requires now - a < WINDOW
    ensures GrantsIn(h, a, b) <= RecentRequests(h, now)
    ensures TokensIn(h, a, b) <= RecentTokens(h, now)
  {
    if h != [] {
      IntervalIsRecent(h[..|h| - 1], a, b, now);
    }
  }

  lemma GrantedPrefix(rpm: nat, tpm: nat, h: seq<Grant>, k: nat)
    requires Granted(rpm, tpm, h) && k <= |h|
    ensures Granted(rpm, tpm, h[..k])
  {
    forall i | 0 <= i < k ensures Admits(rpm, tpm, h[..k][..i], h[..k][i].at, h[..k][i].tokens) {
      assert h[..k][..i] == h[..i];
    }
  }

  /** Any interval shorter than the window holds at most requests_per_minute
      grants and at most tokens_per_minute granted tokens. */
  lemma {:induction false} WindowBound(rpm: nat, tpm: nat, h: seq<Grant>, a: real, b: real)
    requires Granted(rpm, tpm, h) && b - a < WINDOW
    ensures rpm > 0 ==> GrantsIn(h, a, b) <= rpm
    ensures tpm > 0 ==> TokensIn(h, a, b) <= tpm
  {
    if h != [] {
      var init, last := h[..|h| - 1], h[|h| - 1];
      GrantedPrefix(rpm, tpm, h, |h| - 1);
      assert Admits(rpm, tpm, init, last.at, last.tokens);
      hide Granted, RecentRequests, RecentTokens;
      WindowBound(rpm, tpm, init, a, b);
      if a <= last.at <= b {
        IntervalIsRecent(init, a, b, last.at);
      }
    }
  }

  // ---- pruned lists

  function Keep(times: seq<real>, now: real): seq<real> {
    if times == [] then []
    else Keep(times[..|times| - 1], now) + if now - times[|times| - 1] < WINDOW then [times[|times| - 1]] else []
  }

  function KeepEvents(events: seq<(real, nat)>, now: real): seq<(real, nat)> {
    if events == [] then []
    else KeepEvents(events[..|events| - 1], now) + if now - events[|events| - 1].0 < WINDOW then
        [events[|events| - 1]] else []
  }

  function Sum(events: seq<(real, nat)>): nat {
    if events == [] then 0 else Sum(events[..|events| - 1]) + events[|events| - 1].1
  }

  ghost function Times(h: seq<Grant>): seq<real> {
    if h == [] then [] else Times(h[..|h| - 1]) + [h[|h| - 1].at]
  }

  /** What the limiter notes in _token_events, when it has a token limit. */
  ghost function Charged(h: seq<Grant>): seq<(real, nat)> {
    if h == [] then []
    else Charged(h[..|h| - 1]) + if h[|h| - 1].tokens > 0 then [(h[|h| - 1].at, Charge(h[|h| - 1].tokens))] else []
  }

  lemma {:induction false} KeepTwice(times: seq<real>, t: real, now: real)
    requires t <= now
    ensures Keep(Keep(times, t), now) == Keep(times, now)
  {
    if times != [] {
      var init, last := times[..|times| - 1], times[|times| - 1];
      KeepTwice(init, t, now);
      assert Keep(init, t) + [] == Keep(init, t) && Keep(init, now) + [] == Keep(init, now);
      if t - last < WINDOW {
        KeepAppend(Keep(init, t), last, now);
      }
    }
  }

  lemma KeepAppend(times: seq<real>, x: real, now: real)
    ensures Keep(times + [x], now) == Keep(times, now) + if now - x < WINDOW then [x] else []
  {
    assert (times + [x])[..|times|] == times;
  }

  lemma {:induction false} KeepEventsTwice(events: seq<(real, nat)>, t: real, now: real)
    requires t <= now
    ensures KeepEvents(KeepEvents(events, t), now) == KeepEvents(events, now)
  {
    if events != [] {
      var init, last := events[..|events| - 1], events[|events| - 1];
      KeepEventsTwice(init, t, now);
      assert KeepEvents(init, t) + [] == KeepEvents(init, t) && KeepEvents(init, now) + [] == KeepEvents(init, now);
      if t - last.0 < WINDOW {
        KeepEventsAppend(KeepEvents(init, t), last, now);
      }
    }
  }

  lemma KeepEventsAppend(events: seq<(real, nat)>, x: (real, nat), now: real)
    ensures KeepEvents(events + [x], now) == KeepEvents(events, now) + if now - x.0 < WINDOW then [x] else []
  {
    assert (events + [x])[..|events|] == events;
  }

  lemma SumAppend(events: seq<(real, nat)>, x: (real, nat))
    ensures Sum(events + [x]) == Sum(events) + x.1
  {
    assert (events + [x])[..|events|] == events;
  }

  lemma {:induction false} RequestsByList(h: seq<Grant>, now: real)
    ensures |Keep(Times(h), now)| == RecentRequests(h, now)
  {
    if h != [] {
      RequestsByList(h[..|h| - 1], now);
      KeepAppend(Times(h[..|h| - 1]), h[|h| - 1].at, now);
    }
  }

  lemma {:induction false} TokensByList(h: seq<Grant>, now: real)
    ensures Sum(KeepEvents(Charged(h), now)) == RecentTokens(h, now)
  {
    if h != [] {
      TokensByList(h[..|h| - 1], now);
      TokensStep(h, now);
    }
  }

  lemma TokensStep(h: seq<Grant>, now: real)
    requires h != []
    ensures Sum(KeepEvents(Charged(h), now)) == Sum(KeepEvents(Charged(h[..|h| - 1]), now)) +
              if now - h[|h| - 1].at < WINDOW then Charge(h[|h| - 1].tokens) else 0
  {
    hide KeepEvents, Sum;
    var before, last := Charged(h[..|h| - 1]), h[|h| - 1];
    if last.tokens > 0 {
      KeepEventsAppend(before, (last.at, Charge(last.tokens)), now);
      if now - last.at < WINDOW {
        SumAppend(KeepEvents(before, now), (last.at, Charge(last.tokens)));
      } else {
        assert KeepEvents(before, now) + [] == KeepEvents(before, now);
      }
    } else {
      assert before + [] == before;
    }
  }

  /** Length and sum of the recent parts are the counts of the history. */
  lemma RecentByLists(h: seq<Grant>, now: real)
    ensures |Keep(Times(h), now)| == RecentRequests(h, now)
    ensures Sum(KeepEvents(Charged(h), now)) == RecentTokens(h, now)
  {
    RequestsByList(h, now);
    TokensByList(h, now);
  }

  lemma HistoryAppend(h: seq<Grant>, g: Grant)
    ensures Times(h + [g]) == Times(h) + [g.at]
    ensures Charged(h + [g]) == Charged(h) + if g.tokens > 0 then [(g.at, Charge(g.tokens))] else []
  {
    assert (h + [g])[..|h|] == h;
  }

  /** The pruned lists show the same window as the whole history, now and later. */
  ghost predicate Shows(times: seq<real>, events: seq<(real, nat)>, tpm: nat, h: seq<Grant>, clock: real) {
    && (forall now :: now >= clock ==> Keep(times, now) == Keep(Times(h), now))
    && (tpm > 0 ==> forall now :: now >= clock ==> KeepEvents(events, now) == KeepEvents(Charged(h), now))
  }

  lemma PruneTimes(times: seq<real>, events: seq<(real, nat)>, tpm: nat, h: seq<Grant>, clock: real, now: real)
    requires Shows(times, events, tpm, h, clock) && now >= clock
    ensures Shows(Keep(times, now), events, tpm, h, now) && |Keep(times, now)| == RecentRequests(h, now)
  {
    forall later | later >= now ensures Keep(Keep(times, now), later) == Keep(Times(h), later) {
      KeepTwice(times, now, later);
    }
    RecentByLists(h, now);
  }

  lemma PruneEvents(times: seq<real>, events: seq<(real, nat)>, tpm: nat, h: seq<Grant>, clock: real)
    requires Shows(times, events, tpm, h, clock) && tpm > 0
    ensures Shows(times, KeepEvents(events, clock), tpm, h, clock) &&
              Sum(KeepEvents(events, clock)) == RecentTokens(h, clock)
  {
    forall later | later >= clock
      ensures KeepEvents(KeepEvents(events, clock), later) == KeepEvents(Charged(h), later) {
      KeepEventsTwice(events, clock, later);
    }
    RecentByLists(h, clock);
  }

  lemma ShowsGrant(times: seq<real>, events: seq<(real, nat)>, tpm: nat, h: seq<Grant>, now: real, tokens: int)
    requires Shows(times, events, tpm, h, now)
    ensures Shows(times + [now], if tokens > 0 && tpm > 0 then events + [(now, Charge(tokens))] else events,
                  tpm, h + [Grant(now, tokens)], now)
  {
    HistoryAppend(h, Grant(now, tokens));
    hide Keep, KeepEvents, Times, Charged;
    forall later | later >= now
      ensures Keep(times + [now], later) == Keep(Times(h + [Grant(now, tokens)]), later)
    {
      KeepAppend(times, now, later);
      KeepAppend(Times(h), now, later);
    }
    if tpm > 0 {
      forall later | later >= now
        ensures KeepEvents(if tokens > 0 then events + [(now, Charge(tokens))] else events, later) ==
                KeepEvents(Charged(h + [Grant(now, tokens)]), later)
      {
        if tokens > 0 {
          KeepEventsAppend(events, (now, Charge(tokens)), later);
          KeepEventsAppend(Charged(h), (now, Charge(tokens)), later);
        } else {
          assert Charged(h) + [] == Charged(h);
        }
      }
    }
  }

  lemma GrantedAppend(rpm: nat, tpm: nat, h: seq<Grant>, g: Grant)
    requires Granted(rpm, tpm, h) && Admits(rpm, tpm, h, g.at, g.tokens)
    requires forall i :: 0 <= i < |h| ==> h[i].at <= g.at
    ensures Granted(rpm, tpm, h + [g])
  {
    var next := h + [g];
    forall i | 0 <= i < |next| ensures Admits(rpm, tpm, next[..i], next[i].at, next[i].tokens) {
      assert next[..i] == h[..i];
      assert h[..|h|] == h;
    }
  }

  // ---- refusing no more than it must

  ghost predicate InLimits(rpm: nat, tpm: nat, h: seq<Grant>, a: real, b: real) {
    && (rpm > 0 ==> GrantsIn(h, a, b) <= rpm)
    && (tpm > 0 ==> TokensIn(h, a, b) <= tpm)
  }

  /** The recent grants are those from some time on, less than a window ago. */
  lemma {:induction false} Cutoff(h: seq<Grant>, now: real) returns (a: real)
    requires forall i :: 0 <= i < |h| ==> h[i].at <= now
    ensures now - a < WINDOW && forall i :: 0 <= i < |h| ==> (now - h[i].at < WINDOW <==> a <= h[i].at)
  {
    a := now;
    if h != [] {
      var last := h[|h| - 1];
      a := Cutoff(h[..|h| - 1], now);
      if now - last.at < WINDOW && last.at < a {
        a := last.at;
      }
    }
  }

  lemma {:induction false} CutoffCounts(h: seq<Grant>, a: real, now: real)
    requires forall i :: 0 <= i < |h| ==> h[i].at <= now && (now - h[i].at < WINDOW <==> a <= h[i].at)
    ensures GrantsIn(h, a, now) == RecentRequests(h, now) && TokensIn(h, a, now) == RecentTokens(h, now)
  {
    if h != [] {
      CutoffCounts(h[..|h| - 1], a, now);
    }
  }

  /** The limiter refuses no more than it must: a request is admitted exactly if
      granting it leaves every interval shorter than the window within both
      limits. */
  lemma AdmitsIff(rpm: nat, tpm: nat, h: seq<Grant>, now: real, tokens: int)
    requires Granted(rpm, tpm, h) && forall i :: 0 <= i < |h| ==> h[i].at <= now
    ensures Admits(rpm, tpm, h, now, tokens) <==>
              forall a, b :: b - a < WINDOW ==> InLimits(rpm, tpm, h + [Grant(now, tokens)], a, b)
  {
    var next := h + [Grant(now, tokens)];
    if Admits(rpm, tpm, h, now, tokens) {
      GrantedAppend(rpm, tpm, h, Grant(now, tokens));
      forall a, b | b - a < WINDOW ensures InLimits(rpm, tpm, next, a, b) {
        WindowBound(rpm, tpm, next, a, b);
      }
    } else {
      var a := Cutoff(h, now);
      a := if a <= now then a else now;
      CutoffCounts(h, a, now);
      assert next[..|h|] == h;
      assert !InLimits(rpm, tpm, next, a, now);
    }
  }

  // ---- waiting

  lemma {:induction false} LongerHistory(h: seq<Grant>, more: seq<Grant>, now: real)
    ensures RecentRequests(h + more, now) >= RecentRequests(h, now)
    ensures RecentTokens(h + more, now) >= RecentTokens(h, now)
  {
    if more == [] {
      assert h + more == h;
    } else {
      assert (h + more)[..|h + more| - 1] == h + more[..|more| - 1];
      LongerHistory(h, more[..|more| - 1], now);
    }
  }

  lemma {:induction false} StillRecent(times: seq<real>, now: real, later: real)
    requires now <= later && forall t :: t in Keep(times, now) ==> later - t < WINDOW
    ensures Keep(times, later) == Keep(times, now)
  {
    if times != [] {
      var init, last := times[..|times| - 1], times[|times| - 1];
      assert forall t :: t in Keep(init, now) ==> t in Keep(times, now);
      StillRecent(init, now, later);
      if now - last < WINDOW {
        assert last in Keep(times, now);
      }
    }
  }

  lemma {:induction false} StillRecentEvents(events: seq<(real, nat)>, now: real, later: real)
    requires now <= later && forall e :: e in KeepEvents(events, now) ==> later - e.0 < WINDOW
    ensures KeepEvents(events, later) == KeepEvents(events, now)
  {
    if events != [] {
      var init, last := events[..|events| - 1], events[|events| - 1];
      assert forall e :: e in KeepEvents(init, now) ==> e in KeepEvents(events, now);
      StillRecentEvents(init, now, later);
      if now - last.0 < WINDOW {
        assert last in KeepEvents(events, now);
      }
    }
  }

  /** No retry before `later` ends is admitted, whatever else is granted meanwhile. */
  ghost predicate BlockedUntil(rpm: nat, tpm: nat, h: seq<Grant>, now: real, until: real, tokens: int) {
    forall later, more :: now <= later < until ==> !Admits(rpm, tpm, h + more, later, tokens)
  }

  lemma BlockedByRequests(rpm: nat, tpm: nat, h: seq<Grant>, now: real, oldest: real, tokens: int)
    requires rpm > 0 && RecentRequests(h, now) >= rpm
    requires forall t :: t in Keep(Times(h), now) ==> oldest <= t
    ensures BlockedUntil(rpm, tpm, h, now, oldest + WINDOW, tokens)
  {
    forall later, more: seq<Grant> | now <= later < oldest + WINDOW ensures !Admits(rpm, tpm, h + more, later, tokens) {
      StillRecent(Times(h), now, later);
      RecentByLists(h, now);
      RecentByLists(h, later);
      LongerHistory(h, more, later);
    }
  }

  lemma BlockedByTokens(rpm: nat, tpm: nat, h: seq<Grant>, now: real, oldest: real, tokens: int)
    requires tpm > 0 && tokens > 0 && RecentTokens(h, now) + tokens > tpm
    requires forall e :: e in KeepEvents(Charged(h), now) ==> oldest <= e.0
    ensures BlockedUntil(rpm, tpm, h, now, oldest + WINDOW, tokens)
  {
    forall later, more: seq<Grant> | now <= later < oldest + WINDOW ensures !Admits(rpm, tpm, h + more, later, tokens) {
      StillRecentEvents(Charged(h), now, later);
      RecentByLists(h, now);
      RecentByLists(h, later);
      LongerHistory(h, more, later);
    }
  }

  /** When the oldest recent request leaves the window there is room again:
      the bound never lets more than the limit into it. */
  lemma RoomWhenOldestLeaves(rpm: nat, tpm: nat, h: seq<Grant>, now: real, oldest: real)
    requires rpm > 0 && Granted(rpm, tpm, h) && (forall i :: 0 <= i < |h| ==> h[i].at <= now)
    requires oldest in Keep(Times(h), now) && forall t :: t in Keep(Times(h), now) ==> oldest <= t
    ensures RecentRequests(h, oldest + WINDOW) < rpm
  {
    KeepIsRecent(Times(h), now, oldest);
    RecentIsInterval(h, now, oldest);
    WindowBound(rpm, tpm, h, oldest, now);
    OneLeaves(h, now, oldest);
  }

  lemma {:induction false} KeepIsRecent(times: seq<real>, now: real, t: real)
    requires t in Keep(times, now)
    ensures now - t < WINDOW && t in times
  {
    var init, last := times[..|times| - 1], times[|times| - 1];
    if t in Keep(init, now) {
      KeepIsRecent(init, now, t);
    }
  }

  lemma {:induction false} RecentIsInterval(h: seq<Grant>, now: real, oldest: real)
    requires (forall i :: 0 <= i < |h| ==> h[i].at <= now)
    requires forall t :: t in Keep(Times(h), now) ==> oldest <= t
    ensures RecentRequests(h, now) <= GrantsIn(h, oldest, now)
  {
    if h != [] {
      var init := h[..|h| - 1];
      KeepAppend(Times(init), h[|h| - 1].at, now);
      assert forall t :: t in Keep(Times(init), now) ==> t in Keep(Times(h), now);
      RecentIsInterval(init, now, oldest);
      if now - h[|h| - 1].at < WINDOW {
        assert h[|h| - 1].at in Keep(Times(h), now);
      }
    }
  }

  lemma {:induction false} OneLeaves(h: seq<Grant>, now: real, oldest: real)
    requires oldest in Keep(Times(h), now) && now < oldest + WINDOW
    ensures RecentRequests(h, oldest + WINDOW) < RecentRequests(h, now)
  {
    var init, last := h[..|h| - 1], h[|h| - 1];
    KeepAppend(Times(init), last.at, now);
    if oldest in Keep(Times(init), now) {
      OneLeaves(init, now, oldest);
    } else {
      FewerLater(init, now, oldest + WINDOW);
    }
  }

  lemma {:induction false} FewerLater(h: seq<Grant>, now: real, later: real)
    requires now <= later
    ensures RecentRequests(h, later) <= RecentRequests(h, now)
  {
    if h != [] {
      FewerLater(h[..|h| - 1], now, later);
    }
  }

  /** min of a non-empty list. */
  function Least(times: seq<real>): (m: real)
    requires times != []
    ensures m in times && forall t :: t in times ==> m <= t
  {
    if |times| == 1 then times[0]
    else
      var m := Least(times[1..]);
      assert forall t :: t in times <==> t == times[0] || t in times[1..];
      if times[0] <= m then times[0] else m
  }

  function EventTimes(events: seq<(real, nat)>): (r: seq<real>)
    ensures |r| == |events| && forall i :: 0 <= i < |r| ==> r[i] == events[i].0
  {
    seq(|events|, i requires 0 <= i < |events| => events[i].0)
  }

  class ProviderRateLimiter {
    const requestsPerMinute: nat
    const tokensPerMinute: nat
    var requestTimestamps: seq<real>
    var tokenEvents: seq<(real, nat)>
    ghost var history: seq<Grant>
    ghost var clock: real

    ghost predicate Valid()
      reads this
    {
      && Granted(requestsPerMinute, tokensPerMinute, history)
      && (forall i :: 0 <= i < |history| ==> history[i].at <= clock)
      && Shows(requestTimestamps, tokenEvents, tokensPerMinute, history, clock)
    }

    /** Negative limits count as zero. */
    constructor (rpm: int, tpm: int, ghost now: real)
      ensures Valid() && history == [] && clock == now
      ensures requestsPerMinute == (if rpm > 0 then rpm else 0) && tokensPerMinute == (if tpm > 0 then tpm else 0)
    {
      requestsPerMinute, tokensPerMinute := Charge(rpm), Charge(tpm);
      requestTimestamps, tokenEvents, history, clock := [], [], [], now;
    }

    /** The pruned lists decide as the full grant history would. */
    method CanMakeRequest(now: real, tokens: int) returns (allowed: bool)
      requires Valid() && now >= clock
      modifies this
      ensures Valid() && clock == now
      ensures allowed <==> Admits(requestsPerMinute, tokensPerMinute, old(history), now, tokens)
      ensures history == if allowed then old(history) + [Grant(now, tokens)] else old(history)
    {
      hide Granted, Shows, Keep, KeepEvents, RecentRequests, RecentTokens, Sum;
      PruneTimes(requestTimestamps, tokenEvents, tokensPerMinute, history, clock, now);
      requestTimestamps, clock := Keep(requestTimestamps, now), now;
      if requestsPerMinute > 0 && |requestTimestamps| >= requestsPerMinute {
        return false;
      }
      if tokensPerMinute > 0 && tokens > 0 {
        PruneEvents(requestTimestamps, tokenEvents, tokensPerMinute, history, now);
        tokenEvents := KeepEvents(tokenEvents, now);
        if Sum(tokenEvents) + tokens > tokensPerMinute {
          return false;
        }
      }
      ShowsGrant(requestTimestamps, tokenEvents, tokensPerMinute, history, now, tokens);
      GrantedAppend(requestsPerMinute, tokensPerMinute, history, Grant(now, tokens));
      requestTimestamps := requestTimestamps + [now];
      if tokens > 0 && tokensPerMinute > 0 {
        tokenEvents := tokenEvents + [(now, Charge(tokens))];
      }
      history := history + [Grant(now, tokens)];
      return true;
    }

    /** None stands for the ValueError of min() on an empty window. Otherwise
        the wait is zero exactly when the request would be admitted now, no
        retry with the same tokens succeeds before it is over, and for a
        request that needs no tokens a retry right then succeeds. */
    method WaitTime(now: real, tokens: int) returns (wait: Option<real>)
      requires Valid() && now >= clock
      ensures wait.None? <==>
                && (requestsPerMinute == 0 || RecentRequests(history, now) < requestsPerMinute)
                && tokens > tokensPerMinute > 0 && RecentTokens(history, now) == 0
      ensures wait.Some? ==> wait.value >= 0.0
      ensures wait.Some? ==> (wait.value == 0.0 <==> Admits(requestsPerMinute, tokensPerMinute, history, now, tokens))
      ensures wait.Some? ==> BlockedUntil(requestsPerMinute, tokensPerMinute, history, now, now + wait.value, tokens)
      ensures wait.Some? && (tokens <= 0 || tokensPerMinute == 0) ==>
                Admits(requestsPerMinute, tokensPerMinute, history, now + wait.value, tokens)
    {
      hide Granted, Keep, KeepEvents, RecentRequests, RecentTokens, Sum;
      RecentByLists(history, now);
      if requestsPerMinute > 0 {
        var recent := Keep(requestTimestamps, now);
        assert recent == Keep(Times(history), now);
        if |recent| >= requestsPerMinute {
          var oldest := Least(recent);
          KeepIsRecent(requestTimestamps, now, oldest);
          BlockedByRequests(requestsPerMinute, tokensPerMinute, history, now, oldest, tokens);
          RoomWhenOldestLeaves(requestsPerMinute, tokensPerMinute, history, now, oldest);
          assert now + (oldest + WINDOW - now) == oldest + WINDOW;
          return Some(oldest + WINDOW - now);
        }
      }
      if tokensPerMinute > 0 && tokens > 0 {
        var recent := KeepEvents(tokenEvents, now);
        assert recent == KeepEvents(Charged(history), now);
        if Sum(recent) + tokens > tokensPerMinute {
          if recent == [] {
            EmptySum();
            return None;
          }
          EventsArePositive(history, now);
          var oldest := Least(EventTimes(recent));
          OldestEvent(tokenEvents, now, oldest);
          BlockedByTokens(requestsPerMinute, tokensPerMinute, history, now, oldest, tokens);
          assert now + (oldest + WINDOW - now) == oldest + WINDOW;
          return Some(oldest + WINDOW - now);
        }
      }
      return Some(0.0);
    }

    /** Forgets the window; the history starts anew. */
    method Reset()
      requires Valid()
      modifies this
      ensures Valid() && history == [] && clock == old(clock)
    {
      requestTimestamps, tokenEvents, history := [], [], [];
    }
  }

  lemma {:induction false} EventsArePositive(h: seq<Grant>, now: real)
    requires KeepEvents(Charged(h), now) != []
    ensures RecentTokens(h, now) > 0
  {
    var init, last := h[..|h| - 1], h[|h| - 1];
    assert Charged(init) + [] == Charged(init);
    if KeepEvents(Charged(init), now) != [] {
      EventsArePositive(init, now);
    } else if last.tokens > 0 {
      KeepEventsAppend(Charged(init), (last.at, Charge(last.tokens)), now);
    }
  }

  lemma EmptySum()
    ensures Sum([]) == 0
  {
  }

  lemma OldestEvent(events: seq<(real, nat)>, now: real, oldest: real)
    requires oldest in EventTimes(KeepEvents(events, now))
    requires forall t :: t in EventTimes(KeepEvents(events, now)) ==> oldest <= t
    ensures now - oldest < WINDOW
    ensures forall e :: e in KeepEvents(events, now) ==> oldest <= e.0
  {
    forall e | e in KeepEvents(events, now) ensures oldest <= e.0 {
      var j :| 0 <= j < |KeepEvents(events, now)| && KeepEvents(events, now)[j] == e;
      assert EventTimes(KeepEvents(events, now))[j] == e.0 && e.0 in EventTimes(KeepEvents(events, now));
    }
    var i :| 0 <= i < |KeepEvents(events, now)| && KeepEvents(events, now)[i].0 == oldest;
    EventIsRecent(events, now, KeepEvents(events, now)[i]);
  }

  lemma {:induction false} EventIsRecent(events: seq<(real, nat)>, now: real, e: (real, nat))
    requires e in KeepEvents(events, now)
    ensures now - e.0 < WINDOW
  {
    if e in KeepEvents(events[..|events| - 1], now) {
      EventIsRecent(events[..|events| - 1], now, e);
    }
  }
}
