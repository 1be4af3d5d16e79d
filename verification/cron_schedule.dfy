/** The cron search as the trigger of a schedule. */
module CronSchedules {
  import opened Wrappers
  import opened Cron
  import Scheduler

  /** next answers with the instants that the cron search finds, and with none
      where it raises. */
  ghost predicate Searches(cal: Calendar, s: CronSpec, next: int -> Option<int>) {
    forall t :: Answers(cal, s, t, next(t))
  }

  ghost predicate Answers(cal: Calendar, s: CronSpec, t: int, found: Option<int>) {
    match found
    case Some(v) => v % MINUTE == 0 && NextMatch(cal, s, t, Ok(v / MINUTE))
    case None => NextMatch(cal, s, t, Err(NoOccurrence))
  }

  /** What the scheduler relies on holds of the search: a match lies ahead, and
      searching from later never finds an earlier one. */
  lemma SearchIsCronLike(cal: Calendar, s: CronSpec, next: int -> Option<int>)
    requires Searches(cal, s, next)
    ensures Scheduler.CronLike(next)
  {
    hide Matches;
    forall t | next(t).Some? ensures next(t).value > t {
      assert Answers(cal, s, t, next(t));
    }
    forall t, u | t <= u && next(t).Some? && next(u).Some? ensures next(t).value <= next(u).value {
      assert Answers(cal, s, t, next(t)) && Answers(cal, s, u, next(u));
      var m := next(u).value / MINUTE;
      assert t < m * MINUTE && Matches(cal, s, m);
    }
  }

  /** The search never raises exactly when every stretch of 1830 days has a
      match. */
  lemma SearchNeverRaisesIff(cal: Calendar, s: CronSpec, next: int -> Option<int>)
    requires Searches(cal, s, next)
    ensures Scheduler.NeverRaises(next) <==> forall t :: HorizonHasMatch(cal, s, t)
  {
    hide Matches, NextMatch;
    forall t ensures next(t).Some? <==> HorizonHasMatch(cal, s, t) {
      assert Answers(cal, s, t, next(t));
      FoundIffMatch(cal, s, t, next(t));
    }
  }

  ghost predicate HorizonHasMatch(cal: Calendar, s: CronSpec, t: int) {
    exists m :: t < m * MINUTE && m < At(StartDay(t) + HORIZON, 0, 0) && Matches(cal, s, m)
  }

  lemma FoundIffMatch(cal: Calendar, s: CronSpec, t: int, found: Option<int>)
    requires Answers(cal, s, t, found)
    ensures found.Some? <==> HorizonHasMatch(cal, s, t)
  {
    hide Matches;
  }
}
