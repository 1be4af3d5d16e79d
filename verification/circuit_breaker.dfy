/** The three-state circuit breaker of one provider, and what its traces keep. */
module CircuitBreaking {
  import opened Wrappers

  datatype CircuitState = Closed | Open | HalfOpen

  datatype Config = Config(failureThreshold: int, timeout: real, recoveryThreshold: int)

  datatype Breaker = Breaker(state: CircuitState, failures: int, successes: int, openUntil: real, probes: int)

  /** Calls on the breaker with the clock readings they make; a failure reads
      the clock a second time when it opens the circuit. */
  datatype Event =
    | Allow(now: real)
    | Success(now: real)
    | Failure(now: real, counted: bool, later: real)
    | Poll(now: real)
    | Reset(now: real)

  const INITIAL := Breaker(Closed, 0, 0, 0.0, 0)

  function Update(b: Breaker, now: real): Breaker {
    if b.state.Open? && now >= b.openUntil then b.(state := HalfOpen, successes := 0, probes := 0) else b
  }

  /** The breaker after a call. */
  function Step(cfg: Config, before: Breaker, e: Event): Breaker {
    if e.Reset? then INITIAL
    else
      var b := Update(before, e.now);
      match e
      case Poll(_) => b
      case Allow(_) =>
        if b.state.HalfOpen? && b.probes < cfg.recoveryThreshold then b.(probes := b.probes + 1) else b
      case Success(_) =>
        if b.state.HalfOpen?
        then b.(failures := 0, successes := b.successes + 1,
                state := if b.successes + 1 >= cfg.recoveryThreshold then Closed else HalfOpen)
        else b.(failures := 0, successes := 0)
      case Failure(_, counted, later) =>
        if !counted then b
        else if b.state.HalfOpen? || (b.state.Closed? && b.failures + 1 >= cfg.failureThreshold)
        then b.(failures := b.failures + 1, successes := 0, state := Open, openUntil := later + cfg.timeout)
        else b.(failures := b.failures + 1, successes := 0)
  }

  /** Whether a call is a request that the breaker lets through. */
  predicate Admits(cfg: Config, before: Breaker, e: Event) {
    e.Allow? &&
    var b := Update(before, e.now);
    b.state.Closed? || (b.state.HalfOpen? && b.probes < cfg.recoveryThreshold)
  }

  /** The breaker after the first n calls. */
  ghost function At(cfg: Config, es: seq<Event>, n: nat): Breaker
    requires n <= |es|
  {
    if n == 0 then INITIAL else Step(cfg, At(cfg, es, n - 1), es[n - 1])
  }

  ghost predicate Monotone(es: seq<Event>) {
    && (forall i :: 0 <= i < |es| && es[i].Failure? ==> es[i].now <= es[i].later)
    && (forall i, j :: 0 <= i < j < |es| ==> es[i].now <= es[j].now && (es[i].Failure? ==> es[i].later <= es[j].now))
  }

  ghost predicate Positive(cfg: Config) {
    cfg.failureThreshold >= 1 && cfg.recoveryThreshold >= 1
  }

  // ---- the failure count

  /** Counted failures since the last success or reset. */
  ghost function FailuresSince(es: seq<Event>, n: nat): nat
    requires n <= |es|
  {
    if n == 0 || es[n - 1].Success? || es[n - 1].Reset? then 0
    else FailuresSince(es, n - 1) + if es[n - 1].Failure? && es[n - 1].counted then 1 else 0
  }

  lemma {:induction false} CountsFailures(cfg: Config, es: seq<Event>, n: nat)
    requires n <= |es|
    ensures At(cfg, es, n).failures == FailuresSince(es, n)
  {
    if n > 0 {
      CountsFailures(cfg, es, n - 1);
    }
  }

  /** A closed circuit has seen fewer counted failures in a row than the
      threshold. */
  lemma {:induction false} ClosedIsBelowThreshold(cfg: Config, es: seq<Event>, n: nat)
    requires Positive(cfg) && n <= |es| && At(cfg, es, n).state.Closed?
    ensures FailuresSince(es, n) < cfg.failureThreshold
  {
    CountsFailures(cfg, es, n);
    if n > 0 {
      CountsFailures(cfg, es, n - 1);
      if At(cfg, es, n - 1).state.Closed? {
        ClosedIsBelowThreshold(cfg, es, n - 1);
      }
    }
  }

  /** A closed circuit opens exactly at a counted failure that completes the
      threshold; an uncounted one never opens it. */
  lemma OpensExactlyAtThreshold(cfg: Config, es: seq<Event>, n: nat)
    requires n < |es| && At(cfg, es, n).state.Closed?
    ensures At(cfg, es, n + 1).state.Open? <==>
              es[n].Failure? && es[n].counted && FailuresSince(es, n + 1) >= cfg.failureThreshold
    ensures At(cfg, es, n + 1).state.Open? || At(cfg, es, n + 1).state.Closed?
  {
    CountsFailures(cfg, es, n);
  }

  // ---- open circuits

  /** Call i opens the circuit: it was not open when the call looked at it. */
  ghost predicate OpensAt(cfg: Config, es: seq<Event>, i: nat)
    requires i < |es|
  {
    !Update(At(cfg, es, i), es[i].now).state.Open? && At(cfg, es, i + 1).state.Open?
  }

  lemma {:induction false} StaysOpen(cfg: Config, es: seq<Event>, i: nat, j: nat)
    requires i < j <= |es| && OpensAt(cfg, es, i)
    requires forall k :: i < k < j ==> !es[k].Reset? && es[k].now < es[i].later + cfg.timeout
    ensures At(cfg, es, j).state.Open? && At(cfg, es, j).openUntil == es[i].later + cfg.timeout
  {
    if j > i + 1 {
      StaysOpen(cfg, es, i, j - 1);
    }
  }

  /** From the call that opened the circuit until the timeout has passed no
      request is admitted, and the first call after that is, if it is a
      request. */
  lemma OpenBlocksUntilTimeout(cfg: Config, es: seq<Event>, i: nat, j: nat)
    requires Positive(cfg) && Monotone(es) && i < j < |es| && OpensAt(cfg, es, i) && es[j].Allow?
    requires forall k :: i < k < j ==> !es[k].Reset?
    ensures es[j].now < es[i].later + cfg.timeout ==> !Admits(cfg, At(cfg, es, j), es[j])
    ensures (forall k :: i < k < j ==> es[k].now < es[i].later + cfg.timeout) ==>
              (Admits(cfg, At(cfg, es, j), es[j]) <==> es[j].now >= es[i].later + cfg.timeout)
  {
    if forall k :: i < k < j ==> es[k].now < es[i].later + cfg.timeout {
      StaysOpen(cfg, es, i, j);
    }
  }

  // ---- half-open episodes

  /** The call at which the half-open episode that is on after n calls began. */
  ghost function EpisodeStart(cfg: Config, es: seq<Event>, n: nat): (i: nat)
    requires 0 < n <= |es|
    ensures i < n
  {
    if n > 1 && At(cfg, es, n - 1).state.HalfOpen? then EpisodeStart(cfg, es, n - 1) else n - 1
  }

  ghost function Admitted(cfg: Config, es: seq<Event>, i: nat, j: nat): nat
    requires i <= j <= |es|
  {
    if i == j then 0
    else Admitted(cfg, es, i, j - 1) + if Admits(cfg, At(cfg, es, j - 1), es[j - 1]) then 1 else 0
  }

  ghost function Successes(es: seq<Event>, i: nat, j: nat): nat
    requires i <= j <= |es|
  {
    if i == j then 0 else Successes(es, i, j - 1) + if es[j - 1].Success? then 1 else 0
  }

  ghost predicate CountedFailureIn(es: seq<Event>, i: nat, j: nat) {
    exists k :: i <= k < j && k < |es| && es[k].Failure? && es[k].counted
  }

  /** Call i finds the circuit open and its timeout over. */
  ghost predicate Begins(cfg: Config, es: seq<Event>, i: nat) {
    i < |es| && At(cfg, es, i).state.Open? && es[i].now >= At(cfg, es, i).openUntil
  }

  /** What a half-open breaker knows about its episode [i, j). */
  ghost predicate Episode(cfg: Config, es: seq<Event>, i: nat, j: nat)
    requires i <= j <= |es|
  {
    && Begins(cfg, es, i)
    && (forall k :: i < k <= j ==> At(cfg, es, k).state.HalfOpen?)
    && At(cfg, es, j).probes == Admitted(cfg, es, i, j) <= cfg.recoveryThreshold
    && At(cfg, es, j).successes == Successes(es, i, j) < cfg.recoveryThreshold
    && !CountedFailureIn(es, i, j)
  }

  lemma {:induction false} HalfOpenEpisode(cfg: Config, es: seq<Event>, n: nat)
    requires Positive(cfg) && n <= |es| && At(cfg, es, n).state.HalfOpen?
    ensures n > 0 && Episode(cfg, es, EpisodeStart(cfg, es, n), n)
  {
    assert n > 0;
    if At(cfg, es, n - 1).state.HalfOpen? {
      HalfOpenEpisode(cfg, es, n - 1);
    }
  }

  lemma {:induction false} AdmittedPart(cfg: Config, es: seq<Event>, h: nat, i: nat, j: nat)
    requires h <= i <= j <= |es|
    ensures Admitted(cfg, es, i, j) <= Admitted(cfg, es, h, j)
  {
    if i < j {
      AdmittedPart(cfg, es, h, i, j - 1);
    }
  }

  /** While the circuit stays half-open it admits at most recovery_threshold
      requests, counted from the call that made it half-open. */
  lemma ProbesBounded(cfg: Config, es: seq<Event>, i: nat, j: nat)
    requires Positive(cfg) && i <= j <= |es| && forall k :: i < k <= j ==> At(cfg, es, k).state.HalfOpen?
    ensures Admitted(cfg, es, i, j) <= cfg.recoveryThreshold
  {
    if i < j {
      HalfOpenEpisode(cfg, es, j);
      var h := EpisodeStart(cfg, es, j);
      StartsBefore(cfg, es, i, j);
      AdmittedPart(cfg, es, h, i, j);
    }
  }

  /** And it admits a request as long as it has admitted fewer in this episode. */
  lemma ProbesAdmitted(cfg: Config, es: seq<Event>, n: nat)
    requires Positive(cfg) && n < |es| && At(cfg, es, n).state.HalfOpen? && es[n].Allow?
    ensures n > 0
    ensures Admits(cfg, At(cfg, es, n), es[n]) <==>
              Admitted(cfg, es, EpisodeStart(cfg, es, n), n) < cfg.recoveryThreshold
  {
    HalfOpenEpisode(cfg, es, n);
  }

  lemma {:induction false} StartsBefore(cfg: Config, es: seq<Event>, i: nat, j: nat)
    requires i < j <= |es| && forall k :: i < k <= j ==> At(cfg, es, k).state.HalfOpen?
    ensures EpisodeStart(cfg, es, j) <= i
  {
    if i + 1 < j {
      StartsBefore(cfg, es, i, j - 1);
    }
  }

  /** The half-open episode that call i began has, with call n, seen exactly
      the successes it needs and no counted failure. */
  ghost predicate Recovers(cfg: Config, es: seq<Event>, i: nat, n: nat)
    requires i <= n < |es|
  {
    && Begins(cfg, es, i) && (forall k :: i < k <= n ==> At(cfg, es, k).state.HalfOpen?)
    && Successes(es, i, n + 1) == cfg.recoveryThreshold && !CountedFailureIn(es, i, n + 1)
  }

  /** Apart from a reset, the circuit closes only at the success that completes
      recovery_threshold of them in the current half-open episode, with no
      counted failure since the episode began; and then it does close. */
  lemma ClosesExactlyAtRecovery(cfg: Config, es: seq<Event>, n: nat)
    requires Positive(cfg) && n < |es| && !es[n].Reset? && !At(cfg, es, n).state.Closed?
    ensures At(cfg, es, n + 1).state.Closed? <==>
              es[n].Success? && exists i :: 0 <= i <= n && Recovers(cfg, es, i, n)
  {
    var b := At(cfg, es, n);
    if b.state.HalfOpen? {
      HalfOpenEpisode(cfg, es, n);
      var i := EpisodeStart(cfg, es, n);
      hide Admitted, Step;
      if es[n].Success? {
        assert Recovers(cfg, es, i, n) <==> b.successes + 1 == cfg.recoveryThreshold;
        forall h | 0 <= h <= n && Recovers(cfg, es, h, n) ensures h == i {
          OneStart(cfg, es, h, i, n);
        }
      }
    } else {
      hide Step;
      assert Successes(es, n, n) == 0;
      if es[n].Success? {
        forall h | 0 <= h <= n && Recovers(cfg, es, h, n) ensures h == n {
        }
        assert Recovers(cfg, es, n, n) <==> es[n].now >= b.openUntil && cfg.recoveryThreshold == 1;
      }
    }
  }

  lemma OneStart(cfg: Config, es: seq<Event>, h: nat, i: nat, n: nat)
    requires h <= n < |es| && i < n && Begins(cfg, es, h) && Begins(cfg, es, i) && At(cfg, es, n).state.HalfOpen?
    requires forall k :: h < k <= n ==> At(cfg, es, k).state.HalfOpen?
    requires forall k :: i < k <= n ==> At(cfg, es, k).state.HalfOpen?
    ensures h == i
  {
    assert At(cfg, es, i).state.Open? && At(cfg, es, h).state.Open?;
  }

  // ---- lost probes

  /** Half-open with no probe left to give. */
  predicate UsedUp(cfg: Config, b: Breaker) {
    b.state.HalfOpen? && b.probes >= cfg.recoveryThreshold
  }

  /** The calls that end a half-open episode: the success that completes the
      recovery, a counted failure, a reset. */
  predicate EndsEpisode(cfg: Config, b: Breaker, e: Event) {
    || e.Reset?
    || (e.Failure? && e.counted)
    || (e.Success? && b.successes + 1 >= cfg.recoveryThreshold)
  }

  lemma UsedUpStep(cfg: Config, b: Breaker, e: Event)
    requires UsedUp(cfg, b)
    ensures UsedUp(cfg, Step(cfg, b, e)) <==> !EndsEpisode(cfg, b, e)
    ensures !Admits(cfg, b, e)
  {
  }

  /** Used-up probes stay used up, whatever else is called, for as long as no
      call ends the episode; and no request is admitted meanwhile. */
  lemma {:induction false} UsedUpUntilEpisodeEnds(cfg: Config, es: seq<Event>, i: nat, n: nat)
    requires i <= n <= |es| && UsedUp(cfg, At(cfg, es, i))
    requires forall k :: i <= k < n ==> !EndsEpisode(cfg, At(cfg, es, k), es[k])
    ensures UsedUp(cfg, At(cfg, es, n))
    ensures n < |es| ==> !Admits(cfg, At(cfg, es, n), es[n])
  {
    hide UsedUp, EndsEpisode, Step, Admits;
    if i < n {
      UsedUpUntilEpisodeEnds(cfg, es, i, n - 1);
      UsedUpStep(cfg, At(cfg, es, n - 1), es[n - 1]);
    }
    if n < |es| {
      UsedUpStep(cfg, At(cfg, es, n), es[n]);
    }
  }

  /** When the next request is admitted again: right after call n it is exactly
      if that call completed the recovery, was a reset, or was a counted
      failure whose timeout is already over. */
  lemma AdmittedAgainIff(cfg: Config, es: seq<Event>, i: nat, n: nat)
    requires Positive(cfg) && i <= n && n + 1 < |es| && UsedUp(cfg, At(cfg, es, i)) && es[n + 1].Allow?
    requires forall k :: i <= k < n ==> !EndsEpisode(cfg, At(cfg, es, k), es[k])
    ensures Admits(cfg, At(cfg, es, n + 1), es[n + 1]) <==>
              || es[n].Reset?
              || (es[n].Success? && At(cfg, es, n).successes + 1 >= cfg.recoveryThreshold)
              || (es[n].Failure? && es[n].counted && es[n + 1].now >= es[n].later + cfg.timeout)
  {
    UsedUpUntilEpisodeEnds(cfg, es, i, n);
  }

  function Fails(now: real, counted: bool): Event {
    Failure(now, counted, now)
  }

  /** n counted failures at time zero. */
  function Opening(n: nat): (r: seq<Event>)
    ensures |r| == n
  {
    seq(n, _ => Fails(0.0, true))
  }

  /** n requests at time t, each ending in a failure that does not count. */
  function Losing(t: real, n: nat): (r: seq<Event>)
    ensures |r| == 2 * n
  {
    seq(2 * n, i => if i % 2 == 0 then Allow(t) else Fails(t, false))
  }

  lemma {:induction false} OpeningOpens(cfg: Config, es: seq<Event>, n: nat)
    requires Positive(cfg) && n <= cfg.failureThreshold && n <= |es|
    requires forall i :: 0 <= i < n ==> es[i] == Fails(0.0, true)
    ensures At(cfg, es, n).failures == n
    ensures n < cfg.failureThreshold ==> At(cfg, es, n).state.Closed?
    ensures n == cfg.failureThreshold ==> At(cfg, es, n).state.Open? && At(cfg, es, n).openUntil == cfg.timeout
  {
    if n > 0 {
      OpeningOpens(cfg, es, n - 1);
    }
  }

  /** The i-th pair of calls from start on is a request and its loss. */
  ghost predicate LosesOne(es: seq<Event>, start: nat, i: nat, t: real) {
    start + 2 * i + 1 < |es| && es[start + 2 * i] == Allow(t) && es[start + 2 * i + 1] == Fails(t, false)
  }

  lemma {:induction false} LosingLoses(cfg: Config, es: seq<Event>, start: nat, n: nat)
    requires Positive(cfg) && 0 < n <= cfg.recoveryThreshold && start + 2 * n <= |es|
    requires At(cfg, es, start).state.Open? && At(cfg, es, start).openUntil == cfg.timeout
    requires forall i :: 0 <= i < n ==> LosesOne(es, start, i, cfg.timeout)
    ensures At(cfg, es, start + 2 * n).state.HalfOpen? && At(cfg, es, start + 2 * n).probes == n
  {
    var k := start + 2 * (n - 1);
    assert LosesOne(es, start, n - 1, cfg.timeout);
    if n > 1 {
      LosingLoses(cfg, es, start, n - 1);
    }
    assert At(cfg, es, k + 1) == Step(cfg, At(cfg, es, k), Allow(cfg.timeout));
    assert At(cfg, es, k + 2) == Step(cfg, At(cfg, es, k + 1), Fails(cfg.timeout, false));
  }

  lemma PairsLose(es: seq<Event>, start: nat, t: real, n: nat)
    requires |es| == start + 2 * n && es[start..] == Losing(t, n)
    ensures forall i :: 0 <= i < n ==> LosesOne(es, start, i, t)
  {
    forall i | 0 <= i < n ensures LosesOne(es, start, i, t) {
      assert es[start + 2 * i] == es[start..][2 * i] && es[start + 2 * i + 1] == es[start..][2 * i + 1];
    }
  }

  lemma OpeningThenLosing(a: nat, t: real, n: nat)
    ensures var es := Opening(a) + Losing(t, n);
            (forall i :: 0 <= i < a ==> es[i] == Fails(0.0, true)) && es[a..] == Losing(t, n)
  {
    hide Losing;
  }

  lemma LosingTimes(a: nat, t: real, n: nat)
    requires t >= 0.0
    ensures Monotone(Opening(a) + Losing(t, n))
  {
    var es := Opening(a) + Losing(t, n);
    forall i | 0 <= i < |es|
      ensures es[i].now == (if i < a then 0.0 else t) && (es[i].Failure? ==> es[i].later == es[i].now)
    {
      if i >= a {
        assert es[i] == Losing(t, n)[i - a];
      }
    }
  }

  /** Probes can be lost so: a breaker that opened, and whose probes, once its
      timeout is over, all end in failures that do not count, is used up with
      no probe outstanding. */
  lemma ProbesCanBeLost(cfg: Config) returns (es: seq<Event>)
    requires Positive(cfg) && cfg.timeout >= 0.0
    ensures es == Opening(cfg.failureThreshold) + Losing(cfg.timeout, cfg.recoveryThreshold) && Monotone(es)
    ensures UsedUp(cfg, At(cfg, es, |es|))
  {
    var start, t, n := cfg.failureThreshold, cfg.timeout, cfg.recoveryThreshold;
    es := Opening(start) + Losing(t, n);
    LosingTimes(start, t, n);
    OpeningThenLosing(start, t, n);
    hide *;
    PairsLose(es, start, t, n);
    LostAfterOpening(cfg, es);
  }

  lemma LostAfterOpening(cfg: Config, es: seq<Event>)
    requires Positive(cfg) && |es| == cfg.failureThreshold + 2 * cfg.recoveryThreshold
    requires forall i :: 0 <= i < cfg.failureThreshold ==> es[i] == Fails(0.0, true)
    requires forall i :: 0 <= i < cfg.recoveryThreshold ==> LosesOne(es, cfg.failureThreshold, i, cfg.timeout)
    ensures UsedUp(cfg, At(cfg, es, |es|))
  {
    OpeningOpens(cfg, es, cfg.failureThreshold);
    hide At;
    LosingLoses(cfg, es, cfg.failureThreshold, cfg.recoveryThreshold);
  }

  // ---- the breaker object

  class CircuitBreaker {
    const cfg: Config
    var state: CircuitState
    var consecutiveFailures: int
    var consecutiveSuccesses: int
    var openUntil: real
    var halfOpenRequests: int

    function Value(): Breaker reads this {
      Breaker(state, consecutiveFailures, consecutiveSuccesses, openUntil, halfOpenRequests)
    }

    constructor (cfg: Config)
      ensures this.cfg == cfg && Value() == At(cfg, [], 0)
    {
      this.cfg := cfg;
      state, consecutiveFailures, consecutiveSuccesses, openUntil, halfOpenRequests := Closed, 0, 0, 0.0, 0;
    }

    method UpdateState(now: real)
      modifies this
      ensures Value() == Step(cfg, old(Value()), Poll(now))
    {
      if state == Open {
        if now >= openUntil {
          state, consecutiveSuccesses, halfOpenRequests := HalfOpen, 0, 0;
        }
      }
    }

    method AllowRequest(now: real) returns (allowed: bool)
      modifies this
      ensures Value() == Step(cfg, old(Value()), Allow(now))
      ensures allowed <==> Admits(cfg, old(Value()), Allow(now))
    {
      UpdateState(now);
      if state == Open {
        return false;
      }
      if state == HalfOpen {
        if halfOpenRequests < cfg.recoveryThreshold {
          halfOpenRequests := halfOpenRequests + 1;
          return true;
        }
        return false;
      }
      return true;
    }

    method OnSuccess(now: real)
      modifies this
      ensures Value() == Step(cfg, old(Value()), Success(now))
    {
      UpdateState(now);
      consecutiveFailures := 0;
      if state == HalfOpen {
        consecutiveSuccesses := consecutiveSuccesses + 1;
        if consecutiveSuccesses >= cfg.recoveryThreshold {
          state := Closed;
        }
      } else {
        consecutiveSuccesses := 0;
      }
    }

    method OnFailure(now: real, expected: bool, later: real)
      modifies this
      ensures Value() == Step(cfg, old(Value()), Failure(now, expected, later))
    {
      UpdateState(now);
      if !expected {
        return;
      }
      consecutiveFailures := consecutiveFailures + 1;
      consecutiveSuccesses := 0;
      if state == HalfOpen {
        state := Open;
        openUntil := later + cfg.timeout;
      } else if state == Closed && consecutiveFailures >= cfg.failureThreshold {
        state := Open;
        openUntil := later + cfg.timeout;
      }
    }

    method GetOpenUntil(now: real) returns (r: Option<real>)
      modifies this
      ensures Value() == Step(cfg, old(Value()), Poll(now))
      ensures match r
              case Some(t) => old(Value()).state.Open? && t == old(Value()).openUntil > now
              case None => old(Value()).state.Open? ==> now >= old(Value()).openUntil
    {
      UpdateState(now);
      return if state == Open then Some(openUntil) else None;
    }

    method ResetBreaker(now: real)
      modifies this
      ensures Value() == Step(cfg, old(Value()), Reset(now)) == At(cfg, [], 0)
    {
      state, consecutiveFailures, consecutiveSuccesses, openUntil, halfOpenRequests := Closed, 0, 0, 0.0, 0;
    }
  }
}
