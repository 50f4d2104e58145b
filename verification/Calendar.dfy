/**
 Calendar evaluation: weekly pattern, dated exceptions and the search for the next eligible day.
 Dates are day numbers in which day 1 is a Monday; instants are integers; the time zone is a pair of
 functions supplied by the caller.
 */
module Calendar {
  import opened Prelude

  datatype DayKind = Work | Off
  datatype DayAffinity = WorkDays | OffDays | Both

  datatype CalendarException = CalendarException(date: int, kind: DayKind)

  datatype LocalResult = Single(instant: int) | Ambiguous(first: int, second: int) | Nonexistent

  /**
   A time zone: the local date of an instant, and the instants a local date and minute stand for.
   The supported local dates end at maxDate.
   */
  datatype Zone = Zone(localDate: int -> int, resolve: (int, nat) -> LocalResult, maxDate: int)

  datatype CalendarError = InvalidPattern | DateRangeExceeded | UnresolvableDayStart

  datatype DaySource = FromException(index: nat) | FromPattern(weekday: nat)

  datatype Evaluation = Evaluation(
    localDate: int, kind: DayKind, source: DaySource, eligible: bool, nextEligibleAt: Option<int>)

  const SEARCH_DAYS := 370
  const GAP_MINUTES := 180

  predicate ValidPattern(pattern: string) {
    |pattern| == 7 && forall i :: 0 <= i < 7 ==> pattern[i] == 'W' || pattern[i] == 'O'
  }

  /** Days since Monday. */
  function Weekday(date: int): (w: nat)
    ensures w < 7
  {
    (date - 1) % 7
  }

  /** The first exception listed for a date. */
  function FindException(exceptions: seq<CalendarException>, date: int): (r: Option<nat>)
    ensures r.Some? ==> r.value < |exceptions| && exceptions[r.value].date == date
    ensures r.None? ==> forall i :: 0 <= i < |exceptions| ==> exceptions[i].date != date
  {
    FindExceptionFrom(exceptions, date, 0)
  }

  function FindExceptionFrom(exceptions: seq<CalendarException>, date: int, from: nat): (r: Option<nat>)
    requires from <= |exceptions|
    ensures r.Some? ==> from <= r.value < |exceptions| && exceptions[r.value].date == date
    ensures r.Some? ==> forall i :: from <= i < r.value ==> exceptions[i].date != date
    ensures r.None? ==> forall i :: from <= i < |exceptions| ==> exceptions[i].date != date
    decreases |exceptions| - from
  {
    if from == |exceptions| then None
    else if exceptions[from].date == date then Some(from)
    else FindExceptionFrom(exceptions, date, from + 1)
  }

  function PatternKind(pattern: string, date: int): DayKind
    requires ValidPattern(pattern)
  {
    if pattern[Weekday(date)] == 'W' then Work else Off
  }

  /** An exception overrides the weekly pattern. */
  function ResolveDay(pattern: string, exceptions: seq<CalendarException>, date: int): DayKind
    requires ValidPattern(pattern)
  {
    var found := FindException(exceptions, date);
    if found.Some? then exceptions[found.value].kind else PatternKind(pattern, date)
  }

  predicate AffinityMatches(affinity: DayAffinity, kind: DayKind) {
    affinity == Both || (affinity == WorkDays && kind == Work) || (affinity == OffDays && kind == Off)
  }

  predicate EligibleDay(pattern: string, exceptions: seq<CalendarException>, affinity: DayAffinity, date: int)
    requires ValidPattern(pattern)
  {
    AffinityMatches(affinity, ResolveDay(pattern, exceptions, date))
  }

  /** What makes a day a working day: the first exception listed for it, else the letter of its weekday, Monday first. */
  ghost predicate IsWorkDay(pattern: string, exceptions: seq<CalendarException>, date: int)
    requires ValidPattern(pattern)
  {
    if exists e :: 0 <= e < |exceptions| && exceptions[e].date == date
    then exists e :: 0 <= e < |exceptions| && FirstFor(exceptions, e, date) && exceptions[e].kind == Work
    else pattern[Weekday(date)] == 'W'
  }

  predicate FirstFor(exceptions: seq<CalendarException>, e: nat, date: int)
    requires e < |exceptions|
  {
    exceptions[e].date == date && forall i :: 0 <= i < e ==> exceptions[i].date != date
  }

  /** A day suits work on working days exactly when it is one, on days off exactly when it is not, and otherwise always. */
  lemma EligibleExactly(pattern: string, exceptions: seq<CalendarException>, affinity: DayAffinity, date: int)
    requires ValidPattern(pattern)
    ensures Weekday(1) == 0 && Weekday(date + 1) == (Weekday(date) + 1) % 7
    ensures EligibleDay(pattern, exceptions, affinity, date) <==>
              || affinity == Both
              || (affinity == WorkDays && IsWorkDay(pattern, exceptions, date))
              || (affinity == OffDays && !IsWorkDay(pattern, exceptions, date))
  {
    var found := FindExceptionFrom(exceptions, date, 0);
    if found.Some? {
      assert FirstFor(exceptions, found.value, date);
      assert forall e :: 0 <= e < |exceptions| && FirstFor(exceptions, e, date) ==> e == found.value;
    }
  }

  /** The instant at which the earliest existing minute from minute on starts the local date. */
  function DayStartFrom(zone: Zone, date: int, minute: nat): Result<int, CalendarError>
    decreases GAP_MINUTES + 1 - minute
  {
    if minute > GAP_MINUTES then Err(UnresolvableDayStart)
    else
      match zone.resolve(date, minute)
      case Single(instant) => Ok(instant)
      case Ambiguous(first, second) => Ok(if first < second then first else second)
      case Nonexistent => DayStartFrom(zone, date, minute + 1)
  }

  /** The start is the first minute of the day that exists, taken at its earlier instant. */
  ghost predicate IsDayStart(zone: Zone, date: int, instant: int) {
    exists m: nat :: m <= GAP_MINUTES
      && (forall k: nat :: k < m ==> zone.resolve(date, k) == Nonexistent)
      && (zone.resolve(date, m) == Single(instant)
          || (zone.resolve(date, m).Ambiguous?
              && (instant == zone.resolve(date, m).first || instant == zone.resolve(date, m).second)
              && instant <= zone.resolve(date, m).first && instant <= zone.resolve(date, m).second))
  }

  method LocalDayStartUtc(zone: Zone, date: int) returns (r: Result<int, CalendarError>)
    ensures r.Ok? ==> IsDayStart(zone, date, r.value)
    ensures r.Err? ==> r.error == UnresolvableDayStart
    ensures r.Err? <==> forall k: nat :: k <= GAP_MINUTES ==> zone.resolve(date, k) == Nonexistent
    ensures r == DayStartFrom(zone, date, 0)
  {
    var minute := 0;
    while minute <= GAP_MINUTES
      invariant minute <= GAP_MINUTES + 1
      invariant forall k: nat :: k < minute ==> zone.resolve(date, k) == Nonexistent
      invariant DayStartFrom(zone, date, 0) == DayStartFrom(zone, date, minute)
    {
      match zone.resolve(date, minute) {
        case Single(instant) => return Ok(instant);
        case Ambiguous(first, second) =>
          return Ok(if first < second then first else second);
        case Nonexistent =>
      }
      minute := minute + 1;
    }
    return Err(UnresolvableDayStart);
  }

  /** date is the earliest of the next 370 days that is eligible. */
  ghost predicate IsNextEligibleDay(
      pattern: string, exceptions: seq<CalendarException>, affinity: DayAffinity, from: int, date: int)
    requires ValidPattern(pattern)
  {
    && from < date <= from + SEARCH_DAYS
    && EligibleDay(pattern, exceptions, affinity, date)
    && forall d :: from < d < date ==> !EligibleDay(pattern, exceptions, affinity, d)
  }

  ghost predicate NoEligibleDay(pattern: string, exceptions: seq<CalendarException>, affinity: DayAffinity, from: int, upTo: int)
    requires ValidPattern(pattern)
  {
    forall d :: from < d <= upTo ==> !EligibleDay(pattern, exceptions, affinity, d)
  }

  /** The search stopped at a day whose outcome is the answer: a day start, or one of the two errors. */
  ghost predicate SearchAnswer(
      pattern: string, exceptions: seq<CalendarException>, affinity: DayAffinity, zone: Zone, from: int,
      r: Result<Option<int>, CalendarError>)
    requires ValidPattern(pattern)
  {
    match r
    case Ok(Some(instant)) =>
      exists d :: IsNextEligibleDay(pattern, exceptions, affinity, from, d) && d <= zone.maxDate
                  && IsDayStart(zone, d, instant)
    case Ok(None) => NoEligibleDay(pattern, exceptions, affinity, from, from + SEARCH_DAYS)
    case Err(DateRangeExceeded) =>
      zone.maxDate < from + SEARCH_DAYS && NoEligibleDay(pattern, exceptions, affinity, from, zone.maxDate)
    case Err(UnresolvableDayStart) =>
      exists d :: IsNextEligibleDay(pattern, exceptions, affinity, from, d)
                  && forall k: nat :: k <= GAP_MINUTES ==> zone.resolve(d, k) == Nonexistent
    case Err(InvalidPattern) => false
  }

  method NextEligible(
      pattern: string, exceptions: seq<CalendarException>, affinity: DayAffinity, zone: Zone, from: int)
    returns (r: Result<Option<int>, CalendarError>)
    requires ValidPattern(pattern) && from <= zone.maxDate
    ensures SearchAnswer(pattern, exceptions, affinity, zone, from, r)
  {
    var days := 1;
    while days <= SEARCH_DAYS
      invariant 1 <= days <= SEARCH_DAYS + 1
      invariant NoEligibleDay(pattern, exceptions, affinity, from, from + days - 1)
      invariant from + days - 1 <= zone.maxDate
    {
      var candidate := from + days;
      if candidate > zone.maxDate { return Err(DateRangeExceeded); }
      if AffinityMatches(affinity, ResolveDay(pattern, exceptions, candidate)) {
        assert IsNextEligibleDay(pattern, exceptions, affinity, from, candidate);
        var start := LocalDayStartUtc(zone, candidate);
        if start.Err? { return Err(start.error); }
        return Ok(Some(start.value));
      }
      days := days + 1;
    }
    return Ok(None);
  }

  method Evaluate(pattern: string, exceptions: seq<CalendarException>, affinity: DayAffinity, zone: Zone, now: int)
    returns (r: Result<Evaluation, CalendarError>)
    requires zone.localDate(now) <= zone.maxDate
    ensures r == Err(InvalidPattern) <==> !ValidPattern(pattern)
    ensures ValidPattern(pattern) ==>
              var today := zone.localDate(now);
              && (EligibleDay(pattern, exceptions, affinity, today) ==> r.Ok? && r.value.nextEligibleAt == None)
              && (r.Ok? ==>
                    && r.value.localDate == today
                    && r.value.kind == ResolveDay(pattern, exceptions, today)
                    && (r.value.eligible <==> EligibleDay(pattern, exceptions, affinity, today))
                    && (r.value.source.FromException? <==> exists e :: e in exceptions && e.date == today)
                    && (r.value.source.FromPattern? ==> r.value.source.weekday == Weekday(today)))
              && (!EligibleDay(pattern, exceptions, affinity, today) ==>
                    SearchAnswer(pattern, exceptions, affinity, zone, today,
                                 if r.Ok? then Ok(r.value.nextEligibleAt) else Err(r.error)))
  {
    if !ValidPattern(pattern) { return Err(InvalidPattern); }
    var today := zone.localDate(now);
    var found := FindException(exceptions, today);
    assert found.Some? ==> exceptions[found.value] in exceptions;
    var kind := ResolveDay(pattern, exceptions, today);
    var source := if found.Some? then FromException(found.value) else FromPattern(Weekday(today));
    var eligible := AffinityMatches(affinity, kind);
    var next := None;
    if !eligible {
      var search := NextEligible(pattern, exceptions, affinity, zone, today);
      if search.Err? { return Err(search.error); }
      next := search.value;
    }
    return Ok(Evaluation(today, kind, source, eligible, next));
  }

  // --- When the search is sure to find a day ---

  /** The exceptions that take a day away from the affinity. */
  function NonMatching(exceptions: seq<CalendarException>, affinity: DayAffinity): set<nat> {
    set i: nat | i < |exceptions| && !AffinityMatches(affinity, exceptions[i].kind)
  }

  const WEEKS := 52

  /** The k-th of the 52 whole weeks' occurrences of a weekday after a date. */
  function Occurrence(from: int, weekday: nat, k: nat): int {
    from + 1 + (weekday - Weekday(from + 1)) % 7 + 7 * k
  }

  lemma OccurrenceIsThatWeekday(from: int, weekday: nat, k: nat)
    requires weekday < 7 && k < WEEKS
    ensures Weekday(Occurrence(from, weekday, k)) == weekday
    ensures from < Occurrence(from, weekday, k) <= from + SEARCH_DAYS
  {
    var shift := (weekday - Weekday(from + 1)) % 7;
    assert (from + shift + 7 * k) % 7 == (from % 7 + shift) % 7;
  }

  /** A day of a matching weekday is only ineligible because a non-matching exception names it. */
  lemma IneligibleNeedsAnException(
      pattern: string, exceptions: seq<CalendarException>, affinity: DayAffinity, date: int) returns (i: nat)
    requires ValidPattern(pattern) && AffinityMatches(affinity, PatternKind(pattern, date))
    requires !EligibleDay(pattern, exceptions, affinity, date)
    ensures i in NonMatching(exceptions, affinity) && exceptions[i].date == date
  {
    i := FindException(exceptions, date).value;
  }

  lemma {:induction false} BlockersFor(
      pattern: string, exceptions: seq<CalendarException>, affinity: DayAffinity, from: int, weekday: nat, n: nat)
    returns (blockers: set<nat>)
    requires ValidPattern(pattern) && weekday < 7 && n <= WEEKS
    requires AffinityMatches(affinity, if pattern[weekday] == 'W' then Work else Off)
    requires NoEligibleDay(pattern, exceptions, affinity, from, from + SEARCH_DAYS)
    ensures blockers <= NonMatching(exceptions, affinity) && |blockers| == n
    ensures forall i :: i in blockers ==> exceptions[i].date < Occurrence(from, weekday, n)
  {
    if n == 0 {
      blockers := {};
    } else {
      blockers := BlockersFor(pattern, exceptions, affinity, from, weekday, n - 1);
      OccurrenceIsThatWeekday(from, weekday, n - 1);
      var i := IneligibleNeedsAnException(pattern, exceptions, affinity, Occurrence(from, weekday, n - 1));
      blockers := blockers + {i};
    }
  }

  /**
   If some weekday of the pattern matches and fewer than 52 exceptions are non-matching, one of the
   next 370 days is eligible, so the search never answers None.
   */
  lemma SearchSucceeds(pattern: string, exceptions: seq<CalendarException>, affinity: DayAffinity, from: int)
    requires ValidPattern(pattern)
    requires exists w :: 0 <= w < 7 && AffinityMatches(affinity, if pattern[w] == 'W' then Work else Off)
    requires |NonMatching(exceptions, affinity)| < WEEKS
    ensures !NoEligibleDay(pattern, exceptions, affinity, from, from + SEARCH_DAYS)
  {
    if NoEligibleDay(pattern, exceptions, affinity, from, from + SEARCH_DAYS) {
      var w :| 0 <= w < 7 && AffinityMatches(affinity, if pattern[w] == 'W' then Work else Off);
      var blockers := BlockersFor(pattern, exceptions, affinity, from, w, WEEKS);
      SubsetSize(blockers, NonMatching(exceptions, affinity));
    }
  }

  function WeeklyHolidays(): (es: seq<CalendarException>)
    ensures |es| == WEEKS
    ensures forall k :: 0 <= k < WEEKS ==> es[k] == CalendarException(1 + 7 * (k + 1), Off)
  {
    seq(WEEKS, k => CalendarException(1 + 7 * (k + 1), Off))
  }

  lemma WeeklyHolidayBlocks(d: int)
    requires 1 < d <= 1 + SEARCH_DAYS
    ensures !EligibleDay("WOOOOOO", WeeklyHolidays(), WorkDays, d)
  {
    if Weekday(d) == 0 {
      var k := (d - 1) / 7 - 1;
      assert WeeklyHolidays()[k].date == d;
    }
  }

  lemma AllNonMatching(exceptions: seq<CalendarException>, affinity: DayAffinity)
    requires forall i :: 0 <= i < |exceptions| ==> !AffinityMatches(affinity, exceptions[i].kind)
    ensures |NonMatching(exceptions, affinity)| == |exceptions|
  {
    assert NonMatching(exceptions, affinity) == Below(|exceptions|);
  }

  /** The bound is tight: 52 non-matching exceptions can leave a year without an eligible day. */
  lemma FiftyTwoExceptionsCanBlock()
    ensures |NonMatching(WeeklyHolidays(), WorkDays)| == WEEKS
    ensures NoEligibleDay("WOOOOOO", WeeklyHolidays(), WorkDays, 1, 1 + SEARCH_DAYS)
  {
    AllNonMatching(WeeklyHolidays(), WorkDays);
    forall d | 1 < d <= 1 + SEARCH_DAYS
      ensures !EligibleDay("WOOOOOO", WeeklyHolidays(), WorkDays, d)
    {
      WeeklyHolidayBlocks(d);
    }
  }

  /** The naturals below n. */
  function Below(n: nat): (s: set<nat>)
    ensures |s| == n
    ensures forall i: nat :: i in s <==> i < n
  {
    if n == 0 then {} else Below(n - 1) + {n - 1}
  }
}
