/** Five-field cron expressions: the field syntax and the next match. */
module Cron {
  import opened Text
  import opened Wrappers

  datatype CronError = FieldCount | Malformed(field: string) | NoOccurrence

  // ---- integers as the fields write them

  function DigitValue(c: char): (v: Option<nat>)
    ensures v.Some? <==> '0' <= c <= '9'
  {
    if '0' <= c <= '9' then Some((c - '0') as nat) else None
  }

  /** Digits, with single underscores allowed between them. */
  function ParseDigits(s: string): Option<nat> {
    if s == "" then None
    else
      var last, init := DigitValue(s[|s| - 1]), s[..|s| - 1];
      if last.None? then None
      else if init == "" then last
      else
        var high := ParseDigits(if init[|init| - 1] == '_' then init[..|init| - 1] else init);
        if high.None? then None else Some(10 * high.value + last.value)
  }

  /** int(s) for text without white space. */
  function ParseInt(s: string): Option<int> {
    if s != "" && s[0] == '-' then
      var n := ParseDigits(s[1..]);
      if n.None? then None else var v: int := n.value; Some(-v)
    else
      var n := ParseDigits(if s != "" && s[0] == '+' then s[1..] else s);
      if n.None? then None else Some(n.value)
  }

  function Decimal(n: nat): string {
    if n < 10 then ['0' + n as char] else Decimal(n / 10) + ['0' + (n % 10) as char]
  }

  lemma DecimalParses(n: nat)
    ensures Decimal(n) != "" && '0' <= Decimal(n)[0] <= '9'
    ensures ParseDigits(Decimal(n)) == Some(n) && ParseInt(Decimal(n)) == Some(n)
  {
    DecimalDigits(n);
    DecimalBegins(n);
    hide Decimal, ParseDigits;
  }

  lemma {:induction false} DecimalBegins(n: nat)
    ensures Decimal(n) != "" && '0' <= Decimal(n)[0] <= '9'
  {
    if n >= 10 {
      DecimalBegins(n / 10);
    }
  }

  lemma {:induction false} DecimalDigits(n: nat)
    ensures ParseDigits(Decimal(n)) == Some(n) && Decimal(n) != "" && '0' <= Decimal(n)[|Decimal(n)| - 1] <= '9'
  {
    if n >= 10 {
      DecimalDigits(n / 10);
      var s := Decimal(n);
      var init := s[..|s| - 1];
      assert init == Decimal(n / 10);
      assert init[|init| - 1] != '_';
      assert DigitValue(s[|s| - 1]) == Some(n % 10);
    }
  }

  lemma {:induction false} DigitsAreClean(s: string)
    requires ParseDigits(s).Some?
    ensures forall c :: c in s ==> '0' <= c <= '9' || c == '_'
  {
    var init := s[..|s| - 1];
    assert s == init + [s[|s| - 1]];
    if init != "" {
      if init[|init| - 1] == '_' {
        assert init == init[..|init| - 1] + ['_'];
        DigitsAreClean(init[..|init| - 1]);
      } else {
        DigitsAreClean(init);
      }
    }
  }

  lemma IntIsClean(s: string)
    requires ParseInt(s).Some?
    ensures s != "" && '/' !in s && '*' !in s && ',' !in s
    ensures '-' in s ==> s[0] == '-' && ParseInt(s).value <= 0
  {
    if s[0] == '-' || s[0] == '+' {
      DigitsAreClean(s[1..]);
      assert s == [s[0]] + s[1..];
    } else {
      DigitsAreClean(s);
    }
  }

  /** A sign is read as one, and leading zeros do not count. */
  lemma SignedParses(n: nat)
    ensures ParseInt("+" + Decimal(n)) == Some(n)
    ensures var v: int := n; ParseInt("-" + Decimal(n)) == Some(-v)
    ensures ParseInt("0" + Decimal(n)) == Some(n)
  {
    DecimalParses(n);
    var plus, minus := "+" + Decimal(n), "-" + Decimal(n);
    assert plus[1..] == Decimal(n) && minus[1..] == Decimal(n);
    ZeroPadded(Decimal(n));
    hide Decimal, ParseDigits;
  }

  lemma {:induction false} ZeroPadded(s: string)
    requires ParseDigits(s).Some? && '0' <= s[0] <= '9'
    ensures ParseDigits("0" + s) == ParseDigits(s)
  {
    var init := s[..|s| - 1];
    assert ("0" + s)[..|s|] == "0" + init;
    if init != "" {
      if init[|init| - 1] == '_' {
        assert ("0" + init)[..|init|] == "0" + init[..|init| - 1];
        ZeroPadded(init[..|init| - 1]);
      } else {
        ZeroPadded(init);
      }
    }
  }

  // ---- components of a field

  /** Literals are kept as written. */
  datatype Base = Star | One(lit: string) | Span(lo: string, hi: string)

  datatype Component = Component(base: Base, step: Option<string>)

  function RenderBase(b: Base): string {
    match b
    case Star => "*"
    case One(lit) => lit
    case Span(lo, hi) => lo + "-" + hi
  }

  function Render(c: Component): string {
    match c.step
    case None => RenderBase(c.base)
    case Some(k) => RenderBase(c.base) + "/" + k
  }

  predicate WellFormedBase(b: Base) {
    match b
    case Star => true
    case One(lit) => ParseInt(lit).Some? && '-' !in lit
    case Span(lo, hi) =>
      ParseInt(lo).Some? && '-' !in lo && ParseInt(hi).Some? && ParseInt(lo).value <= ParseInt(hi).value
  }

  predicate WellFormed(c: Component) {
    WellFormedBase(c.base) && (c.step.Some? ==> ParseInt(c.step.value).Some? && ParseInt(c.step.value).value > 0)
  }

  function Stride(c: Component): (k: int)
    requires WellFormed(c)
    ensures k > 0
  {
    if c.step.None? then 1 else ParseInt(c.step.value).value
  }

  predicate OnStride(v: int, from: int, k: int)
    requires k > 0
  {
    (v - from) % k == 0
  }

  /** The values a component stands for in a field that runs from low to
      high. The step of a single value is accepted and has no effect. */
  predicate Denotes(c: Component, low: int, high: int, v: int)
    requires WellFormed(c)
  {
    match c.base
    case Star => low <= v <= high && OnStride(v, low, Stride(c))
    case One(lit) => v == ParseInt(lit).value
    case Span(lo, hi) => ParseInt(lo).value <= v <= ParseInt(hi).value && OnStride(v, ParseInt(lo).value, Stride(c))
  }

  /** v comes after a whole number of strides. */
  ghost predicate Steps(v: int, from: int, k: int) {
    exists i: nat :: v == from + i * k
  }

  /** A step counts from the low end of its component: `*`/k takes low, low + k,
      low + 2k and so on up to high, and a-b/k the same from a to b. */
  lemma StepsFromLowEnd(c: Component, low: int, high: int, v: int)
    requires WellFormed(c) && !c.base.One?
    ensures var from := if c.base.Star? then low else ParseInt(c.base.lo).value;
            var to := if c.base.Star? then high else ParseInt(c.base.hi).value;
            var k := if c.step.None? then 1 else ParseInt(c.step.value).value;
            Denotes(c, low, high, v) <==> v <= to && Steps(v, from, k)
  {
    hide ParseInt;
    var from := if c.base.Star? then low else ParseInt(c.base.lo).value;
    var k := if c.step.None? then 1 else ParseInt(c.step.value).value;
    StrideIsSteps(v, from, k);
  }

  lemma StrideIsSteps(v: int, from: int, k: int)
    requires k > 0
    ensures from <= v && OnStride(v, from, k) <==> Steps(v, from, k)
  {
    if from <= v && OnStride(v, from, k) {
      var i: nat := (v - from) / k;
      assert v == from + i * k;
    }
    if i: nat :| v == from + i * k {
      assert (v - from) == i * k;
      MultipleLeavesNothing(i, k);
    }
  }

  lemma MultipleLeavesNothing(i: nat, k: int)
    requires k > 0
    ensures i * k % k == 0 && i * k >= 0
  {
    var q, r := i * k / k, i * k % k;
    assert i * k == q * k + r && 0 <= r < k;
    SmallMultiple(i - q, k, r);
  }

  lemma SmallMultiple(n: int, k: int, r: int)
    requires n * k == r && 0 <= r < k
    ensures r == 0
  {
    if n >= 1 {
      assert n * k == (n - 1) * k + k;
    }
  }

  function ParseBase(s: string): Option<Base> {
    if s == "*" then Some(Star)
    else
      var dash := IndexOf(s, '-');
      if dash < |s| then
        var lo, hi := s[..dash], s[dash + 1..];
        if ParseInt(lo).None? || ParseInt(hi).None? || ParseInt(lo).value > ParseInt(hi).value then None
        else Some(Span(lo, hi))
      else if ParseInt(s).None? then None else Some(One(s))
  }

  /** One comma-separated part, in the order of the checks of _parse_cron_field. */
  function ParseComponent(part: string): Option<Component> {
    if part == "" then None
    else if part == "*" then Some(Component(Star, None))
    else
      var slash := IndexOf(part, '/');
      if slash < |part| then
        var k := ParseInt(part[slash + 1..]);
        if k.None? || k.value <= 0 then None
        else
          var b := ParseBase(part[..slash]);
          if b.None? then None else Some(Component(b.value, Some(part[slash + 1..])))
      else
        var b := ParseBase(part);
        if b.None? then None else Some(Component(b.value, None))
  }

  lemma ParseBaseRender(b: Base)
    requires WellFormedBase(b)
    ensures ParseBase(RenderBase(b)) == Some(b)
    ensures '/' !in RenderBase(b) && ',' !in RenderBase(b) && RenderBase(b) != ""
  {
    match b
    case Star =>
    case One(lit) => IntIsClean(lit);
    case Span(lo, hi) => SpanParses(lo, hi);
  }

  lemma SpanParses(lo: string, hi: string)
    requires WellFormedBase(Span(lo, hi))
    ensures ParseBase(lo + "-" + hi) == Some(Span(lo, hi))
    ensures '/' !in lo + "-" + hi && ',' !in lo + "-" + hi
  {
    IntIsClean(lo);
    IntIsClean(hi);
    hide ParseInt;
    assert '-' !in lo;
    IndexOfFirst(lo, hi, '-');
    var s := lo + ['-'] + hi;
    assert s == lo + "-" + hi;
    assert s[..|lo|] == lo && s[|lo| + 1..] == hi && s[|lo|] == '-';
    assert |s| > 1;
  }

  lemma RenderParseBase(s: string)
    requires ParseBase(s).Some?
    ensures WellFormedBase(ParseBase(s).value) && RenderBase(ParseBase(s).value) == s
  {
    var dash := IndexOf(s, '-');
    if s != "*" && dash < |s| {
      assert s == s[..dash] + "-" + s[dash + 1..];
    }
  }

  /** Parsing inverts rendering: the parts accepted are exactly the renderings
      of well-formed components. */
  lemma ParseRender(c: Component)
    requires WellFormed(c)
    ensures ParseComponent(Render(c)) == Some(c) && ',' !in Render(c)
  {
    hide ParseInt, IndexOf;
    ParseBaseRender(c.base);
    var b := RenderBase(c.base);
    match c.step
    case None =>
      assert IndexOf(b, '/') == |b|;
    case Some(k) =>
      IntIsClean(k);
      IndexOfFirst(b, k, '/');
      var s := b + ['/'] + k;
      assert Render(c) == s && s[..|b|] == b && s[|b| + 1..] == k;
      assert s[|b|] == '/' && s != "*";
  }

  lemma RenderParse(part: string)
    requires ParseComponent(part).Some?
    ensures WellFormed(ParseComponent(part).value) && Render(ParseComponent(part).value) == part
  {
    hide ParseInt;
    var slash := IndexOf(part, '/');
    if part != "*" && slash < |part| {
      assert part == part[..slash] + "/" + part[slash + 1..];
      RenderParseBase(part[..slash]);
    } else if part != "*" {
      RenderParseBase(part);
    }
  }

  // ---- fields

  /** The field is a comma-separated list of these components. */
  ghost predicate Writes(field: string, cs: seq<Component>) {
    && cs != []
    && (forall i :: 0 <= i < |cs| ==> WellFormed(cs[i]))
    && field == Join(seq(|cs|, i requires 0 <= i < |cs| => Render(cs[i])), ',')
  }

  /** What one part adds to the values of the field. */
  method ExpandComponent(part: string, low: int, high: int) returns (r: Option<set<int>>)
    ensures r.None? <==> ParseComponent(part).None?
    ensures r.Some? ==> WellFormed(ParseComponent(part).value)
    ensures r.Some? ==> forall v :: v in r.value <==> Denotes(ParseComponent(part).value, low, high, v)
  {
    hide ParseInt, ParseComponent, OnStride;
    var parsed := ParseComponent(part);
    if parsed.None? {
      return None;
    }
    RenderParse(part);
    var c := parsed.value;
    var k := Stride(c);
    match c.base
    case Star => return Some(set v | low <= v <= high && OnStride(v, low, k));
    case One(lit) => return Some({ParseInt(lit).value});
    case Span(lo, hi) =>
      var from, to := ParseInt(lo).value, ParseInt(hi).value;
      return Some(set v | from <= v <= to && OnStride(v, from, k));
  }

  lemma PartsAreComponents(field: string, cs: seq<Component>)
    requires |cs| == |SplitOn(field, ',')|
    requires forall i :: 0 <= i < |cs| ==> ParseComponent(SplitOn(field, ',')[i]) == Some(cs[i])
    ensures Writes(field, cs)
  {
    var parts := SplitOn(field, ',');
    forall i | 0 <= i < |cs| ensures WellFormed(cs[i]) && Render(cs[i]) == parts[i] {
      RenderParse(parts[i]);
    }
    JoinSplit(field, ',');
    assert parts == seq(|cs|, i requires 0 <= i < |cs| => Render(cs[i]));
  }

  lemma WritesIsParsed(field: string, cs: seq<Component>)
    requires Writes(field, cs)
    ensures |cs| == |SplitOn(field, ',')|
    ensures forall i :: 0 <= i < |cs| ==> ParseComponent(SplitOn(field, ',')[i]) == Some(cs[i])
  {
    var parts := seq(|cs|, i requires 0 <= i < |cs| => Render(cs[i]));
    forall i | 0 <= i < |cs| ensures ParseComponent(parts[i]) == Some(cs[i]) && ',' !in parts[i] {
      ParseRender(cs[i]);
    }
    SplitJoin(parts, ',');
  }

  /** _parse_cron_field: a field is accepted exactly when it writes a list of
      well-formed components, and then yields the in-range values that some
      component denotes. */
  method ParseCronField(field: string, low: int, high: int)
      returns (r: Result<set<int>, CronError>, ghost cs: seq<Component>)
    ensures r.Ok? ==> Writes(field, cs)
    ensures r.Ok? ==> forall v :: v in r.value <==>
              low <= v <= high && exists i :: 0 <= i < |cs| && Denotes(cs[i], low, high, v)
    ensures r.Err? ==> r.error == Malformed(field) && forall cs' :: !Writes(field, cs')
  {
    hide ParseComponent, Denotes;
    var parts := SplitOn(field, ',');
    var values: set<int> := {};
    cs := [];
    for i := 0 to |parts|
      invariant |cs| == i
      invariant forall k :: 0 <= k < i ==> ParseComponent(parts[k]) == Some(cs[k]) && WellFormed(cs[k])
      invariant forall v :: v in values <==> exists k :: 0 <= k < i && Denotes(cs[k], low, high, v)
    {
      var expanded := ExpandComponent(parts[i], low, high);
      if expanded.None? {
        forall cs' ensures !Writes(field, cs') {
          if Writes(field, cs') {
            WritesIsParsed(field, cs');
          }
        }
        return Err(Malformed(field)), cs;
      }
      values := values + expanded.value;
      cs := cs + [ParseComponent(parts[i]).value];
    }
    PartsAreComponents(field, cs);
    r := Ok(set v | v in values && low <= v <= high);
  }

  // ---- the next match

  const MINUTE := 60000000  // microseconds
  const DAY_MINUTES := 1440
  const HORIZON := 5 * 366

  /** The civil calendar by day number; weekday 0 is Monday. */
  datatype Calendar = Calendar(month: int -> int, dayOfMonth: int -> int, weekday: int -> int)

  ghost predicate CalendarOk(cal: Calendar) {
    forall day :: 1 <= cal.month(day) <= 12 && 1 <= cal.dayOfMonth(day) <= 31 && 0 <= cal.weekday(day) <= 6
  }

  datatype CronSpec = CronSpec(minutes: set<int>, hours: set<int>, daysOfMonth: set<int>, months: set<int>,
                               daysOfWeek: set<int>, domWildcard: bool, dowWildcard: bool)

  predicate DayFieldMatches(cal: Calendar, s: CronSpec, day: int) {
    cal.dayOfMonth(day) in s.daysOfMonth
  }

  predicate WeekdayFieldMatches(cal: Calendar, s: CronSpec, day: int) {
    (cal.weekday(day) + 1) % 7 in s.daysOfWeek
  }

  /** The either-day rule of crontab (POSIX.1-2017, crontab utility, INPUT
      FILES): both day fields must match, but when both are restricted either
      one is enough. */
  ghost predicate DayMatches(cal: Calendar, s: CronSpec, day: int) {
    && cal.month(day) in s.months
    && if s.domWildcard || s.dowWildcard
       then DayFieldMatches(cal, s, day) && WeekdayFieldMatches(cal, s, day)
       else DayFieldMatches(cal, s, day) || WeekdayFieldMatches(cal, s, day)
  }

  /** Minute m of the epoch matches all fields. */
  ghost predicate Matches(cal: Calendar, s: CronSpec, m: int) {
    && DayMatches(cal, s, m / DAY_MINUTES)
    && m % DAY_MINUTES / 60 in s.hours
    && m % DAY_MINUTES % 60 in s.minutes
  }

  ghost predicate SpecOk(s: CronSpec) {
    && (forall v :: v in s.minutes ==> 0 <= v < 60)
    && (forall v :: v in s.hours ==> 0 <= v < 24)
    && (s.domWildcard ==> forall v :: 1 <= v <= 31 ==> v in s.daysOfMonth)
    && (s.dowWildcard ==> forall v :: 0 <= v <= 6 ==> v in s.daysOfWeek)
  }

  ghost predicate Ascending(s: seq<int>) {
    forall i, j :: 0 <= i < j < |s| ==> s[i] < s[j]
  }

  /** sorted(values). */
  method Sorted(values: set<int>, bound: nat) returns (s: seq<int>)
    requires forall v :: v in values ==> 0 <= v < bound
    ensures Ascending(s) && forall v :: v in s <==> v in values
  {
    s := [];
    for v := 0 to bound
      invariant Ascending(s) && forall u :: u in s <==> u in values && u < v
    {
      if v in values {
        forall i | 0 <= i < |s| ensures s[i] < v {
          assert s[i] in s;
        }
        s := s + [v];
      }
    }
  }

  /** The day test as the loop makes it. */
  method DayOk(cal: Calendar, s: CronSpec, day: int) returns (ok: bool)
    requires CalendarOk(cal) && SpecOk(s)
    ensures ok <==> DayMatches(cal, s, day)
  {
    assert 1 <= cal.dayOfMonth(day) <= 31;
    if cal.month(day) !in s.months {
      return false;
    }
    var domOk, dowOk := DayFieldMatches(cal, s, day), WeekdayFieldMatches(cal, s, day);
    if s.domWildcard && s.dowWildcard {
      ok := true;
    } else if s.domWildcard {
      ok := dowOk;
    } else if s.dowWildcard {
      ok := domOk;
    } else {
      ok := domOk || dowOk;
    }
  }

  function At(day: int, hour: int, minute: int): int {
    day * DAY_MINUTES + hour * 60 + minute
  }

  /** A minute of a matching day matches when its hour and minute do. */
  lemma MatchesAt(cal: Calendar, s: CronSpec, day: int, hour: int, minute: int)
    requires SpecOk(s) && DayMatches(cal, s, day) && hour in s.hours && minute in s.minutes
    ensures Matches(cal, s, At(day, hour, minute))
    ensures At(day, 0, 0) <= At(day, hour, minute) < At(day + 1, 0, 0)
  {
    hide DayMatches;
    var m := At(day, hour, minute);
    assert m / DAY_MINUTES == day && m % DAY_MINUTES == hour * 60 + minute;
  }

  lemma MatchIsAt(cal: Calendar, s: CronSpec, m: int) returns (day: int, hour: int, minute: int)
    requires Matches(cal, s, m)
    ensures m == At(day, hour, minute) && day == m / DAY_MINUTES
    ensures DayMatches(cal, s, day) && hour in s.hours && minute in s.minutes
  {
    hide DayMatches;
    day, hour, minute := m / DAY_MINUTES, m % DAY_MINUTES / 60, m % DAY_MINUTES % 60;
  }

  /** No match after `after` in the minutes from..until. */
  ghost predicate NoneBetween(cal: Calendar, s: CronSpec, after: int, from: int, until: int) {
    forall m :: from <= m < until && m * MINUTE > after ==> !Matches(cal, s, m)
  }

  /** All hours before the h-th, and the first i minutes of the h-th, are over. */
  ghost predicate Tried(after: int, day: int, hours: seq<int>, minutes: seq<int>, h: nat, i: nat)
    requires h <= |hours| && i <= |minutes|
  {
    && (forall k, q :: 0 <= k < h && 0 <= q < |minutes| ==> At(day, hours[k], minutes[q]) * MINUTE <= after)
    && (h < |hours| ==> forall q :: 0 <= q < i ==> At(day, hours[h], minutes[q]) * MINUTE <= after)
  }

  ghost predicate Lists(s: seq<int>, values: set<int>) {
    Ascending(s) && forall v :: v in s <==> v in values
  }

  /** With everything earlier over, a match is at the next candidate or later. */
  lemma NotEarlier(after: int, day: int, hours: seq<int>, minutes: seq<int>, h: nat, i: nat, k: nat, q: nat)
    requires Ascending(hours) && Ascending(minutes) && (forall v :: v in minutes ==> 0 <= v < 60)
    requires h <= |hours| && i < |minutes| && Tried(after, day, hours, minutes, h, i)
    requires k < |hours| && q < |minutes| && At(day, hours[k], minutes[q]) * MINUTE > after
    ensures h <= k && At(day, hours[h], minutes[i]) <= At(day, hours[k], minutes[q])
  {
    assert minutes[i] in minutes && minutes[q] in minutes;
    assert k >= h;
    assert k == h ==> q >= i;
  }

  lemma NextIsLeast(cal: Calendar, s: CronSpec, after: int, day: int, hours: seq<int>, minutes: seq<int>, h: nat,
                    i: nat)
    requires SpecOk(s) && Lists(hours, s.hours) && Lists(minutes, s.minutes)
    requires h <= |hours| && i < |minutes| && Tried(after, day, hours, minutes, h, i)
    ensures NoneBetween(cal, s, after, At(day, 0, 0),
                        if h < |hours| then At(day, hours[h], minutes[i]) else At(day + 1, 0, 0))
  {
    hide DayMatches, Matches, Tried;
    var until := if h < |hours| then At(day, hours[h], minutes[i]) else At(day + 1, 0, 0);
    if h < |hours| {
      assert hours[h] in s.hours && minutes[i] in s.minutes;
      assert until < At(day + 1, 0, 0);
    }
    forall m | At(day, 0, 0) <= m < until && m * MINUTE > after ensures !Matches(cal, s, m) {
      if Matches(cal, s, m) {
        var d, hour, minute := MatchIsAt(cal, s, m);
        assert d == day;
        assert hour in hours && minute in minutes;
        var k :| 0 <= k < |hours| && hours[k] == hour;
        var q :| 0 <= q < |minutes| && minutes[q] == minute;
        NotEarlier(after, day, hours, minutes, h, i, k, q);
      }
    }
  }

  /** The earliest match of a matching day, if any lies after. */
  method FirstOfDay(cal: Calendar, s: CronSpec, after: int, day: int, hours: seq<int>, minutes: seq<int>)
      returns (r: Option<int>)
    requires SpecOk(s) && DayMatches(cal, s, day) && Lists(hours, s.hours) && Lists(minutes, s.minutes)
    ensures match r
            case Some(m) => Matches(cal, s, m) && m * MINUTE > after && m < At(day + 1, 0, 0) &&
                            NoneBetween(cal, s, after, At(day, 0, 0), m)
            case None => NoneBetween(cal, s, after, At(day, 0, 0), At(day + 1, 0, 0))
  {
    hide DayMatches, Matches, NoneBetween;
    for h := 0 to |hours|
      invariant Tried(after, day, hours, minutes, h, 0)
    {
      for i := 0 to |minutes|
        invariant Tried(after, day, hours, minutes, h, i)
      {
        var candidate := At(day, hours[h], minutes[i]);
        if candidate * MINUTE > after {
          MatchesAt(cal, s, day, hours[h], minutes[i]);
          NextIsLeast(cal, s, after, day, hours, minutes, h, i);
          return Some(candidate);
        }
      }
    }
    if minutes != [] {
      NextIsLeast(cal, s, after, day, hours, minutes, |hours|, 0);
    } else {
      NoMinutes(cal, s, after, At(day, 0, 0), At(day + 1, 0, 0));
    }
    return None;
  }

  lemma NoMinutes(cal: Calendar, s: CronSpec, after: int, from: int, until: int)
    requires forall v :: v !in s.minutes
    ensures NoneBetween(cal, s, after, from, until)
  {
  }

  lemma OtherDay(cal: Calendar, s: CronSpec, after: int, day: int)
    requires !DayMatches(cal, s, day)
    ensures NoneBetween(cal, s, after, At(day, 0, 0), At(day + 1, 0, 0))
  {
    hide DayMatches;
    forall m | At(day, 0, 0) <= m < At(day + 1, 0, 0) ensures m / DAY_MINUTES == day {
    }
  }

  lemma NoneFurther(cal: Calendar, s: CronSpec, after: int, from: int, mid: int, until: int)
    requires NoneBetween(cal, s, after, from, mid) && NoneBetween(cal, s, after, mid, until)
    ensures NoneBetween(cal, s, after, from, until)
  {
  }

  /** The first minute of the search and its day. */
  function StartDay(after: int): int {
    (after / MINUTE + 1) / DAY_MINUTES
  }

  /** r is the least whole minute strictly after `after` that matches; there
      is none exactly when no minute of the 1830-day horizon matches. */
  ghost predicate NextMatch(cal: Calendar, s: CronSpec, after: int, r: Result<int, CronError>) {
    && (r.Ok? ==> Matches(cal, s, r.value) && after < r.value * MINUTE)
    && (r.Ok? ==> forall m :: after < m * MINUTE && m < r.value ==> !Matches(cal, s, m))
    && (r.Err? <==> forall m :: after < m * MINUTE && m < At(StartDay(after) + HORIZON, 0, 0) ==> !Matches(cal, s, m))
  }

  /** The search over days, hours and minutes. */
  method Search(cal: Calendar, s: CronSpec, after: int) returns (r: Result<int, CronError>)
    requires CalendarOk(cal) && SpecOk(s)
    ensures NextMatch(cal, s, after, r) && (r.Err? ==> r.error == NoOccurrence)
  {
    var hours := Sorted(s.hours, 24);
    var minutes := Sorted(s.minutes, 60);
    var start := StartDay(after);
    hide DayMatches, Matches;
    for offset := 0 to HORIZON
      invariant NoneBetween(cal, s, after, At(start, 0, 0), At(start + offset, 0, 0))
    {
      var day := start + offset;
      var ok := DayOk(cal, s, day);
      if ok {
        var first := FirstOfDay(cal, s, after, day, hours, minutes);
        if first.Some? {
          NoneFurther(cal, s, after, At(start, 0, 0), At(day, 0, 0), first.value);
          assert first.value < At(start + HORIZON, 0, 0);
          return Ok(first.value);
        }
      } else {
        OtherDay(cal, s, after, day);
      }
      NoneFurther(cal, s, after, At(start, 0, 0), At(day, 0, 0), At(day + 1, 0, 0));
    }
    return Err(NoOccurrence);
  }

  /** values is what field denotes in a field that runs from low to high. */
  ghost predicate FieldValues(field: string, low: int, high: int, values: set<int>) {
    exists cs :: Writes(field, cs) &&
      forall v :: v in values <==> low <= v <= high && exists i :: 0 <= i < |cs| && Denotes(cs[i], low, high, v)
  }

  function WeekDay(d: int): int {
    d % 7
  }

  function WeekDays(days: set<int>): set<int> {
    set d | d in days :: WeekDay(d)
  }

  /** The five fields of an expression; both 0 and 7 are Sunday. */
  ghost predicate SpecFrom(fields: seq<string>, s: CronSpec) {
    && |fields| == 5
    && FieldValues(fields[0], 0, 59, s.minutes)
    && FieldValues(fields[1], 0, 23, s.hours)
    && FieldValues(fields[2], 1, 31, s.daysOfMonth)
    && FieldValues(fields[3], 1, 12, s.months)
    && (exists days :: FieldValues(fields[4], 0, 7, days) && s.daysOfWeek == WeekDays(days))
    && s.domWildcard == (fields[2] == "*") && s.dowWildcard == (fields[4] == "*")
  }

  lemma WildcardIsAll(low: int, high: int, values: set<int>)
    requires FieldValues("*", low, high, values)
    ensures forall v :: low <= v <= high ==> v in values
  {
    var cs :| Writes("*", cs) &&
      forall v :: v in values <==> low <= v <= high && exists i :: 0 <= i < |cs| && Denotes(cs[i], low, high, v);
    WritesIsParsed("*", cs);
    SplitWithout("*", ',');
    assert cs[0] == Component(Star, None);
    forall v | low <= v <= high ensures v in values {
      assert Denotes(cs[0], low, high, v);
    }
  }

  lemma SpecFromIsOk(fields: seq<string>, s: CronSpec)
    requires SpecFrom(fields, s)
    ensures SpecOk(s)
  {
    hide Writes, Denotes;
    var days :| FieldValues(fields[4], 0, 7, days) && s.daysOfWeek == WeekDays(days);
    if s.domWildcard {
      WildcardIsAll(1, 31, s.daysOfMonth);
    }
    if s.dowWildcard {
      WildcardIsAll(0, 7, days);
      forall v | 0 <= v <= 6 ensures v in s.daysOfWeek {
        assert v in days && WeekDay(v) == v;
      }
    }
  }

  /** A text denotes one list of components, so one set of values. */
  lemma FieldValuesUnique(field: string, low: int, high: int, a: set<int>, b: set<int>)
    requires FieldValues(field, low, high, a) && FieldValues(field, low, high, b)
    ensures a == b
  {
    hide Denotes, ParseComponent;
    var cs :| Writes(field, cs) &&
      forall v :: v in a <==> low <= v <= high && exists i :: 0 <= i < |cs| && Denotes(cs[i], low, high, v);
    var ds :| Writes(field, ds) &&
      forall v :: v in b <==> low <= v <= high && exists i :: 0 <= i < |ds| && Denotes(ds[i], low, high, v);
    WritesIsParsed(field, cs);
    WritesIsParsed(field, ds);
    hide Writes;
    assert cs == ds;
    assert forall v :: v in a <==> v in b;
  }

  /** An expression has one meaning. */
  lemma SpecFromUnique(fields: seq<string>, s: CronSpec, t: CronSpec)
    requires SpecFrom(fields, s) && SpecFrom(fields, t)
    ensures s == t
  {
    hide FieldValues;
    FieldValuesUnique(fields[0], 0, 59, s.minutes, t.minutes);
    FieldValuesUnique(fields[1], 0, 23, s.hours, t.hours);
    FieldValuesUnique(fields[2], 1, 31, s.daysOfMonth, t.daysOfMonth);
    FieldValuesUnique(fields[3], 1, 12, s.months, t.months);
    var days :| FieldValues(fields[4], 0, 7, days) && s.daysOfWeek == WeekDays(days);
    var days' :| FieldValues(fields[4], 0, 7, days') && t.daysOfWeek == WeekDays(days');
    FieldValuesUnique(fields[4], 0, 7, days, days');
  }

  // ---- what an expression of numbers and wildcards says

  ghost predicate Plain(field: string, low: nat, high: nat) {
    field == "*" || exists n: nat :: low <= n <= high && field == Decimal(n)
  }

  predicate Says(field: string, v: nat) {
    field == "*" || field == Decimal(v)
  }

  /** weekday 0 is Monday; in the text Monday is 1, and Sunday is 0 or 7. */
  predicate SaysWeekday(field: string, weekday: nat) {
    Says(field, weekday + 1) || (weekday == 6 && field == "0")
  }

  ghost predicate PlainFields(fields: seq<string>) {
    && |fields| == 5 && Plain(fields[0], 0, 59) && Plain(fields[1], 0, 23) && Plain(fields[2], 1, 31)
    && Plain(fields[3], 1, 12) && Plain(fields[4], 0, 7)
  }

  /** Minute m of the epoch as the five fields name it. */
  ghost predicate TextMatches(cal: Calendar, fields: seq<string>, m: int)
    requires |fields| == 5 && CalendarOk(cal)
  {
    && Says(fields[0], m % 60) && Says(fields[1], m / 60 % 24) && TextMatchesDay(cal, fields, m / (24 * 60))
  }

  ghost predicate TextMatchesDay(cal: Calendar, fields: seq<string>, day: int)
    requires |fields| == 5 && CalendarOk(cal)
  {
    && Says(fields[3], cal.month(day))
    && if fields[2] == "*" then SaysWeekday(fields[4], cal.weekday(day))
       else if fields[4] == "*" then fields[2] == Decimal(cal.dayOfMonth(day))
       else fields[2] == Decimal(cal.dayOfMonth(day)) || SaysWeekday(fields[4], cal.weekday(day))
  }

  /** Writing numbers out is one to one, and no number is the wildcard. */
  lemma DecimalUnique(n: nat, v: nat)
    ensures Decimal(n) == Decimal(v) <==> n == v
    ensures Decimal(n) != "*"
  {
    DecimalParses(n);
    DecimalParses(v);
  }

  lemma PlainValues(field: string, low: nat, high: nat, values: set<int>, v: nat)
    requires FieldValues(field, low, high, values) && Plain(field, low, high) && low <= v <= high
    ensures v in values <==> Says(field, v)
  {
    if field == "*" {
      WildcardIsAll(low, high, values);
    } else {
      var n: nat :| low <= n <= high && field == Decimal(n);
      NumberIsOne(n, low, high, values);
      DecimalUnique(n, v);
    }
  }

  lemma NumberIsOne(n: nat, low: nat, high: nat, values: set<int>)
    requires FieldValues(Decimal(n), low, high, values) && low <= n <= high
    ensures forall v :: v in values <==> v == n
  {
    var c := Component(One(Decimal(n)), None);
    DecimalParses(n);
    DecimalIsPlain(n);
    ParseRender(c);
    SplitWithout(Decimal(n), ',');
    hide Decimal, ParseInt, ParseComponent;
    var cs :| Writes(Decimal(n), cs) &&
      forall v :: v in values <==> low <= v <= high && exists i :: 0 <= i < |cs| && Denotes(cs[i], low, high, v);
    WritesIsParsed(Decimal(n), cs);
    assert SplitOn(Decimal(n), ',')[0] == Decimal(n) == Render(c);
    assert cs == [c];
    assert cs[0] == c;
    assert forall v :: Denotes(c, low, high, v) <==> v == n;
  }

  lemma DecimalIsPlain(n: nat)
    ensures '-' !in Decimal(n) && ',' !in Decimal(n)
  {
    DecimalParses(n);
    IntIsClean(Decimal(n));
    hide Decimal, ParseInt;
  }

  /** A day passes the weekday test when its weekday is one of the listed
      numbers, Sunday also when 0 is listed. */
  lemma WeekdayListed(cal: Calendar, s: CronSpec, days: set<int>, day: int)
    requires CalendarOk(cal) && s.daysOfWeek == WeekDays(days) && forall v :: v in days ==> 0 <= v <= 7
    ensures WeekdayFieldMatches(cal, s, day) <==>
              cal.weekday(day) + 1 in days || (cal.weekday(day) == 6 && 0 in days)
  {
    var w := cal.weekday(day);
    assert 0 <= w <= 6;
    forall v | v in days && v % 7 == (w + 1) % 7 ensures v == w + 1 || (w == 6 && v == 0) {
    }
    assert w + 1 in days ==> WeekDay(w + 1) in s.daysOfWeek;
    assert w == 6 && 0 in days ==> WeekDay(0) in s.daysOfWeek;
  }

  lemma ValuesInRange(field: string, low: int, high: int, values: set<int>)
    requires FieldValues(field, low, high, values)
    ensures forall v :: v in values ==> low <= v <= high
  {
  }

  lemma WeekdaySaid(cal: Calendar, fields: seq<string>, s: CronSpec, day: int)
    requires CalendarOk(cal) && SpecFrom(fields, s) && Plain(fields[4], 0, 7)
    ensures WeekdayFieldMatches(cal, s, day) <==> SaysWeekday(fields[4], cal.weekday(day))
  {
    hide FieldValues, Plain, Decimal;
    var w := cal.weekday(day);
    assert 0 <= w <= 6;
    var days :| FieldValues(fields[4], 0, 7, days) && s.daysOfWeek == WeekDays(days);
    ValuesInRange(fields[4], 0, 7, days);
    WeekdayListed(cal, s, days, day);
    PlainValues(fields[4], 0, 7, days, w + 1);
    PlainValues(fields[4], 0, 7, days, 0);
    DecimalOfZero();
  }

  lemma DecimalOfZero()
    ensures Decimal(0) == "0"
  {
  }

  lemma DaySaid(cal: Calendar, fields: seq<string>, s: CronSpec, day: int)
    requires CalendarOk(cal) && PlainFields(fields) && SpecFrom(fields, s)
    ensures DayMatches(cal, s, day) <==> TextMatchesDay(cal, fields, day)
  {
    WeekdaySaid(cal, fields, s, day);
    PlainValues(fields[2], 1, 31, s.daysOfMonth, cal.dayOfMonth(day));
    PlainValues(fields[3], 1, 12, s.months, cal.month(day));
    hide FieldValues, Plain, Decimal, WeekdayFieldMatches, WeekDays;
  }

  lemma ClockOfMinute(m: int)
    ensures m % DAY_MINUTES % 60 == m % 60 && m % DAY_MINUTES / 60 == m / 60 % 24
  {
    var day, r := m / DAY_MINUTES, m % DAY_MINUTES;
    assert m == 60 * (24 * day + r / 60) + r % 60;
    assert m / 60 == 24 * day + r / 60;
  }

  /** An expression whose fields are numbers and wildcards matches exactly the
      minutes that its text names. */
  lemma PlainMeaning(cal: Calendar, fields: seq<string>, s: CronSpec, m: int)
    requires CalendarOk(cal) && PlainFields(fields) && SpecFrom(fields, s)
    ensures Matches(cal, s, m) <==> TextMatches(cal, fields, m)
  {
    var minute, hour := m % 60, m / 60 % 24;
    DaySaid(cal, fields, s, m / DAY_MINUTES);
    PlainValues(fields[0], 0, 59, s.minutes, minute);
    PlainValues(fields[1], 0, 23, s.hours, hour);
    ClockOfMinute(m);
    hide FieldValues, Plain, Decimal, DayMatches, TextMatchesDay, WeekDays, Says;
  }

  /** With the day of the month left open and one weekday number, matching days
      are the days of that weekday in the listed months. */
  lemma OneWeekday(cal: Calendar, fields: seq<string>, s: CronSpec, k: nat, day: int)
    requires CalendarOk(cal) && SpecFrom(fields, s) && fields[2] == "*" && fields[4] == Decimal(k) && k <= 7
    ensures DayMatches(cal, s, day) <==>
              cal.month(day) in s.months && cal.weekday(day) == (if k == 0 || k == 7 then 6 else k - 1)
  {
    WeekdaySaid(cal, fields, s, day);
    WildcardIsAll(1, 31, s.daysOfMonth);
    assert 0 <= cal.weekday(day) <= 6 && 1 <= cal.dayOfMonth(day) <= 31;
    DecimalUnique(k, cal.weekday(day) + 1);
    DecimalUnique(k, 0);
    DecimalOfZero();
    hide FieldValues, Decimal, WeekdayFieldMatches, WeekDays;
  }

  /** m is the first minute after `after` that the text names. */
  ghost predicate NextOnText(cal: Calendar, fields: seq<string>, after: int, m: int)
    requires |fields| == 5 && CalendarOk(cal)
  {
    && TextMatches(cal, fields, m) && after < m * MINUTE
    && forall u :: after < u * MINUTE && u < m ==> !TextMatches(cal, fields, u)
  }

  lemma PlainNext(cal: Calendar, fields: seq<string>, s: CronSpec, after: int, m: int)
    requires CalendarOk(cal) && PlainFields(fields) && SpecFrom(fields, s) && NextMatch(cal, s, after, Ok(m))
    ensures NextOnText(cal, fields, after, m)
  {
    assert |fields| == 5;
    hide Matches, TextMatches, PlainFields, SpecFrom;
    forall u ensures Matches(cal, s, u) <==> TextMatches(cal, fields, u) {
      PlainMeaning(cal, fields, s, u);
    }
  }

  /** A single weekday number names the weekday of the day. */
  ghost predicate OnWeekday(cal: Calendar, field: string, day: int) {
    forall k: nat :: k <= 7 && field == Decimal(k) ==> cal.weekday(day) == (if k == 0 || k == 7 then 6 else k - 1)
  }

  lemma NextOnWeekday(cal: Calendar, fields: seq<string>, s: CronSpec, after: int, m: int)
    requires CalendarOk(cal) && SpecFrom(fields, s) && NextMatch(cal, s, after, Ok(m)) && fields[2] == "*"
    ensures OnWeekday(cal, fields[4], m / DAY_MINUTES)
  {
    assert |fields| == 5;
    hide Decimal, SpecFrom, DayMatches;
    forall k: nat | k <= 7 && fields[4] == Decimal(k)
      ensures cal.weekday(m / DAY_MINUTES) == (if k == 0 || k == 7 then 6 else k - 1)
    {
      OneWeekday(cal, fields, s, k, m / DAY_MINUTES);
    }
  }

  ghost predicate Accepted(field: string) {
    exists cs :: Writes(field, cs)
  }

  method FieldSet(field: string, low: int, high: int) returns (r: Result<set<int>, CronError>)
    ensures r.Ok? ==> Accepted(field) && FieldValues(field, low, high, r.value)
    ensures r.Err? ==> r.error == Malformed(field) && !Accepted(field)
  {
    ghost var cs;
    r, cs := ParseCronField(field, low, high);
  }

  /** Splitting into five fields and parsing each. */
  method ParseFields(fields: seq<string>) returns (r: Result<CronSpec, CronError>)
    ensures r == Err(FieldCount) <==> |fields| != 5
    ensures r.Ok? <==> |fields| == 5 && forall i :: 0 <= i < 5 ==> Accepted(fields[i])
    ensures r.Ok? ==> SpecFrom(fields, r.value)
    ensures r.Err? ==> r.error.FieldCount? || r.error.Malformed?
  {
    hide Accepted, FieldValues;
    if |fields| != 5 {
      return Err(FieldCount);
    }
    var minutes := FieldSet(fields[0], 0, 59);
    if minutes.Err? {
      return Err(minutes.error);
    }
    var hours := FieldSet(fields[1], 0, 23);
    if hours.Err? {
      return Err(hours.error);
    }
    var daysOfMonth := FieldSet(fields[2], 1, 31);
    if daysOfMonth.Err? {
      return Err(daysOfMonth.error);
    }
    var months := FieldSet(fields[3], 1, 12);
    if months.Err? {
      return Err(months.error);
    }
    var days := FieldSet(fields[4], 0, 7);
    if days.Err? {
      return Err(days.error);
    }
    return Ok(CronSpec(minutes.value, hours.value, daysOfMonth.value, months.value, WeekDays(days.value),
                       fields[2] == "*", fields[4] == "*"));
  }

  /** next_cron_match on an expression already split at white space. An
      expression that does not have five fields of the accepted syntax is
      refused; otherwise the result is the least match after `after`, and
      there is no result exactly when the horizon holds no match. */
  method NextCronMatch(cal: Calendar, fields: seq<string>, after: int) returns (r: Result<int, CronError>)
    requires CalendarOk(cal)
    ensures r.Ok? || r == Err(NoOccurrence) <==> |fields| == 5 && forall i :: 0 <= i < 5 ==> Accepted(fields[i])
    ensures r.Ok? || r == Err(NoOccurrence) ==> exists s :: SpecFrom(fields, s) && NextMatch(cal, s, after, r)
    ensures r.Ok? && PlainFields(fields) ==> NextOnText(cal, fields, after, r.value)
    ensures r.Ok? && fields[2] == "*" ==> OnWeekday(cal, fields[4], r.value / DAY_MINUTES)
  {
    hide Accepted, SpecFrom, Matches, PlainFields, NextOnText, OnWeekday, NextMatch;
    var spec := ParseFields(fields);
    if spec.Err? {
      return Err(spec.error);
    }
    SpecFromIsOk(fields, spec.value);
    r := Search(cal, spec.value, after);
    if r.Ok? && PlainFields(fields) {
      PlainNext(cal, fields, spec.value, after, r.value);
    }
    if r.Ok? && fields[2] == "*" {
      NextOnWeekday(cal, fields, spec.value, after, r.value);
    }
  }
}
