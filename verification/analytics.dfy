/** The bounded log of LLM request events and its index by provider. */
module Analytics {
  import opened Wrappers

  /** What a caller reports about one request, stored as it is. */
  datatype Report = Report(model: string, totalTokens: int, latency: real, success: bool, error: Option<string>)

  /** A recorded event; two events are the same only if they are one object. */
  class AnalyticsEvent {
    const providerId: string
    const report: Report

    constructor (providerId: string, report: Report)
      ensures this.providerId == providerId && this.report == report
    {
      this.providerId, this.report := providerId, report;
    }
  }

  function OfProvider(log: seq<AnalyticsEvent>, p: string): seq<AnalyticsEvent> {
    if log == [] then [] else Only(log[0], p) + OfProvider(log[1..], p)
  }

  function Only(e: AnalyticsEvent, p: string): seq<AnalyticsEvent> {
    if e.providerId == p then [e] else []
  }

  lemma {:induction false} OfProviderAppends(log: seq<AnalyticsEvent>, more: seq<AnalyticsEvent>, p: string)
    ensures OfProvider(log + more, p) == OfProvider(log, p) + OfProvider(more, p)
  {
    hide Only;
    if log == [] {
      assert log + more == more;
    } else {
      OfProviderAppends(log[1..], more, p);
      assert (log + more)[1..] == log[1..] + more;
      assert OfProvider(log + more, p) == Only(log[0], p) + (OfProvider(log[1..], p) + OfProvider(more, p));
    }
  }

  /** The scan keeps exactly the events of the provider. */
  lemma {:induction false} OfProviderIsScan(log: seq<AnalyticsEvent>, p: string)
    ensures forall e :: e in OfProvider(log, p) <==> e in log && e.providerId == p
    ensures |OfProvider(log, p)| <= |log|
    ensures (forall e :: e in log ==> e.providerId == p) ==> OfProvider(log, p) == log
  {
    if log != [] {
      OfProviderIsScan(log[1..], p);
      assert log == [log[0]] + log[1..];
    }
  }

  /** The last n of a sequence. */
  function Last<T>(s: seq<T>, n: int): seq<T> {
    if n <= 0 then [] else if n >= |s| then s else s[|s| - n..]
  }

  lemma LastAppends<T>(s: seq<T>, n: int, x: T)
    ensures Last(s + [x], n) == if |Last(s, n)| + 1 > n then (Last(s, n) + [x])[1..] else Last(s, n) + [x]
  {
  }

  /** What is kept is the newest max_events events, in order. */
  lemma KeepsNewest<T>(history: seq<T>, maxEvents: int)
    ensures var n := if maxEvents <= 0 then 0 else if maxEvents < |history| then maxEvents else |history|;
            |Last(history, maxEvents)| == n && Last(history, maxEvents) == history[|history| - n..]
  {
  }

  /** events[-limit:] as the language slices it: a zero or negative limit
      counts from the front. */
  function Tail<T>(s: seq<T>, limit: int): seq<T> {
    if limit > 0 then s[if |s| <= limit then 0 else |s| - limit..]
    else s[if -limit <= |s| then -limit else |s|..]
  }

  /** "At most limit events" holds for a positive limit, and for no other one
      except zero on an empty list; a positive limit gives the latest ones. */
  lemma LimitHolds<T>(s: seq<T>, limit: int)
    ensures |Tail(s, limit)| <= limit <==> limit > 0 || (limit == 0 && s == [])
    ensures limit > 0 ==> Tail(s, limit) == Last(s, limit)
    ensures limit == 0 ==> Tail(s, limit) == s
  {
  }

  type Index = map<string, seq<AnalyticsEvent>>

  function Listed(index: Index, p: string): seq<AnalyticsEvent> {
    if p in index then index[p] else []
  }

  ghost predicate Indexes(index: Index, log: seq<AnalyticsEvent>) {
    forall p :: Listed(index, p) == OfProvider(log, p)
  }

  lemma AppendIndexes(index: Index, log: seq<AnalyticsEvent>, e: AnalyticsEvent)
    requires Indexes(index, log)
    ensures Indexes(index[e.providerId := Listed(index, e.providerId) + [e]], log + [e])
  {
    var more := index[e.providerId := Listed(index, e.providerId) + [e]];
    forall p ensures Listed(more, p) == OfProvider(log + [e], p) {
      OfProviderAppends(log, [e], p);
      assert OfProvider([e], p) == if e.providerId == p then [e] else [];
    }
  }

  /** The first event of the log heads the list of its provider. */
  lemma PopIndexes(index: Index, log: seq<AnalyticsEvent>)
    requires Indexes(index, log) && log != []
    ensures var e := log[0];
            && e.providerId in index && index[e.providerId] != [] && index[e.providerId][0] == e
            && Indexes(index[e.providerId := index[e.providerId][1..]], log[1..])
  {
    var e := log[0];
    assert Listed(index, e.providerId) == [e] + OfProvider(log[1..], e.providerId);
    var less := index[e.providerId := index[e.providerId][1..]];
    forall p ensures Listed(less, p) == OfProvider(log[1..], p) {
      assert Listed(index, p) == OfProvider(log, p);
    }
  }

  class LLMAnalytics {
    const maxEvents: int
    var events: seq<AnalyticsEvent>
    var providerEvents: map<string, seq<AnalyticsEvent>>
    /** Everything recorded since the last clear. */
    ghost var history: seq<AnalyticsEvent>

    ghost predicate Valid() reads this {
      events == Last(history, maxEvents) && Indexes(providerEvents, events)
    }

    constructor (maxEvents: int)
      ensures Valid() && history == [] && this.maxEvents == maxEvents
    {
      this.maxEvents := maxEvents;
      events, providerEvents, history := [], map[], [];
    }

    method Record(providerId: string, report: Report) returns (event: AnalyticsEvent)
      requires Valid()
      modifies this
      ensures Valid() && fresh(event) && event.providerId == providerId && event.report == report
      ensures history == old(history) + [event]
      ensures events == Last(old(history) + [event], maxEvents)
    {
      hide Last, Indexes, OfProvider;
      event := new AnalyticsEvent(providerId, report);
      LastAppends(history, maxEvents, event);
      AppendIndexes(providerEvents, events, event);
      history := history + [event];
      events := events + [event];
      providerEvents := providerEvents[providerId := Listed(providerEvents, providerId) + [event]];
      if |events| > maxEvents {
        PopIndexes(providerEvents, events);
        var removed := events[0];
        events := events[1..];
        if removed.providerId in providerEvents {
          var index := providerEvents[removed.providerId];
          if index != [] && index[0] == removed {
            providerEvents := providerEvents[removed.providerId := index[1..]];
          }
        }
      }
    }

    method Clear()
      requires Valid()
      modifies this
      ensures Valid() && history == [] && events == []
    {
      events, providerEvents, history := [], map[], [];
    }

    /** The index gives what a scan of the log would. */
    method GetEvents(providerId: Option<string>, limit: Option<int>) returns (r: seq<AnalyticsEvent>)
      requires Valid()
      ensures var found := match providerId
                           case Some(p) => OfProvider(Last(history, maxEvents), p)
                           case None => Last(history, maxEvents);
              r == match limit case Some(n) => Tail(found, n) case None => found
    {
      var found := if providerId.Some? then Listed(providerEvents, providerId.value) else events;
      if limit.Some? {
        return Tail(found, limit.value);
      }
      return found;
    }
  }
}
