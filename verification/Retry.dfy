/**
 Retry planning: jittered exponential backoff, and the retry counter of one task. Instants and delays are
 milliseconds here.
 */
module Retry {
  import opened Prelude
  import opened Domain

  // --- The delay of one retry ---

  const MAX_EXPONENT := 31
  const LOWEST_BASIS_POINTS := 8_000
  const JITTER_BASIS_POINTS := 4_000
  const BASIS := 10_000

  /** Whole seconds and the nanoseconds within the last second. */
  datatype Duration = Duration(secs: U64, nanos: nat) {
    predicate Valid() {
      nanos < 1_000_000_000
    }

    function Millis(): nat {
      secs * 1_000 + nanos / 1_000_000
    }

    predicate Less(other: Duration) {
      secs < other.secs || (secs == other.secs && nanos < other.nanos)
    }
  }

  datatype RetryError = DelayExceedsU64 | DelayTooLarge | MaximumBelowBase | NotFailed | LimitOutOfRange

  function Pow2(n: nat): nat {
    if n == 0 then 1 else 2 * Pow2(n - 1)
  }

  function Min(a: int, b: int): int {
    if a < b then a else b
  }

  function SaturatingMul128(a: nat, b: nat): nat {
    if a * b <= U128_MAX then a * b else U128_MAX
  }

  /** Saturating subtraction of one, then the cap at 31. */
  function Exponent(retryNumber: U32): nat {
    Min(if retryNumber == 0 then 0 else retryNumber - 1, MAX_EXPONENT)
  }

  function CappedMillis(retryNumber: U32, base: Duration, max: Duration): nat {
    Min(SaturatingMul128(base.Millis(), Pow2(Exponent(retryNumber))), max.Millis())
  }

  function BasisPoints(sample: U16): nat {
    LOWEST_BASIS_POINTS + sample * JITTER_BASIS_POINTS / U16_MAX
  }

  /** The delay before retry number retryNumber; sample is the 16-bit jitter drawn from the task digest. */
  function RetryDelay(retryNumber: U32, base: Duration, max: Duration, sample: U16): Result<U64, RetryError> {
    var capped := CappedMillis(retryNumber, base, max);
    var jittered := SaturatingMul128(capped, BasisPoints(sample)) / BASIS;
    var bounded := Min(jittered, max.Millis());
    if bounded <= U64_MAX then Ok(bounded) else Err(DelayExceedsU64)
  }

  lemma {:induction false} Pow2Monotone(m: nat, n: nat)
    requires m <= n
    ensures 1 <= Pow2(m) <= Pow2(n)
  {
    if m == n {
      if 0 < n { Pow2Monotone(m - 1, n - 1); }
    } else {
      Pow2Monotone(m, n - 1);
    }
  }

  lemma Pow2Of31()
    ensures Pow2(31) == 0x8000_0000
  {
    assert Pow2(4) == 16;
    assert Pow2(8) == 256;
    assert Pow2(12) == 4096;
    assert Pow2(16) == 65536;
    assert Pow2(20) == 1048576;
    assert Pow2(24) == 16777216;
    assert Pow2(28) == 268435456;
  }

  lemma MulBound(a: nat, b: nat, x: nat, y: nat)
    requires a <= x && b <= y
    ensures a * b <= x * y
  {
    assert a * b <= a * y;
    assert a * y <= x * y;
  }

  lemma BasisPointsRange(sample: U16)
    ensures LOWEST_BASIS_POINTS <= BasisPoints(sample) <= LOWEST_BASIS_POINTS + JITTER_BASIS_POINTS
    ensures BasisPoints(0) == LOWEST_BASIS_POINTS
    ensures BasisPoints(U16_MAX) == LOWEST_BASIS_POINTS + JITTER_BASIS_POINTS
  {
  }

  /** Neither saturating multiplication ever saturates, for any pair of durations and any sample. */
  lemma NeverSaturates(retryNumber: U32, base: Duration, max: Duration, sample: U16)
    requires base.Valid() && max.Valid()
    ensures SaturatingMul128(base.Millis(), Pow2(Exponent(retryNumber))) == base.Millis() * Pow2(Exponent(retryNumber))
    ensures SaturatingMul128(CappedMillis(retryNumber, base, max), BasisPoints(sample))
         == CappedMillis(retryNumber, base, max) * BasisPoints(sample)
  {
    var longest := U64_MAX * 1_000 + 999;
    Pow2Of31();
    Pow2Monotone(Exponent(retryNumber), MAX_EXPONENT);
    assert base.Millis() <= longest && max.Millis() <= longest;
    MulBound(base.Millis(), Pow2(Exponent(retryNumber)), longest, 0x8000_0000);
    BasisPointsRange(sample);
    MulBound(CappedMillis(retryNumber, base, max), BasisPoints(sample), longest, 12_000);
  }

  function Lowest(capped: nat): nat {
    capped * 8 / 10
  }

  function Highest(capped: nat, max: Duration): nat {
    Min(max.Millis(), capped * 12 / 10)
  }

  lemma ScaledDivision(c: nat, p: nat)
    requires 8_000 <= p <= 12_000
    ensures c * 8 / 10 <= c * p / 10_000 <= c * 12 / 10
    ensures c * 8_000 / 10_000 == c * 8 / 10 && c * 12_000 / 10_000 == c * 12 / 10
  {
    assert c * 8_000 <= c * p <= c * 12_000;
  }

  /**
   The delay lies between four fifths of the capped exponential delay and the lesser of the maximum
   and six fifths of it; the first and last samples attain the two ends; and it fails only when
   the delay does not fit in 64 bits.
   */
  lemma DelayBounds(retryNumber: U32, base: Duration, max: Duration, sample: U16)
    requires base.Valid() && max.Valid()
    ensures
      var c := CappedMillis(retryNumber, base, max);
      var r := RetryDelay(retryNumber, base, max, sample);
      && (r.Ok? ==> Lowest(c) <= r.value <= Highest(c, max))
      && (r.Err? ==> Highest(c, max) > U64_MAX)
      && (Highest(c, max) <= U64_MAX ==>
            && RetryDelay(retryNumber, base, max, 0) == Ok(Lowest(c))
            && RetryDelay(retryNumber, base, max, U16_MAX) == Ok(Highest(c, max)))
  {
    var c := CappedMillis(retryNumber, base, max);
    NeverSaturates(retryNumber, base, max, sample);
    NeverSaturates(retryNumber, base, max, 0);
    NeverSaturates(retryNumber, base, max, U16_MAX);
    BasisPointsRange(sample);
    ScaledDivision(c, BasisPoints(sample));
  }

  lemma AllDelaysWithin(retryNumber: U32, base: Duration, max: Duration)
    requires base.Valid() && max.Valid()
    ensures
      var c := CappedMillis(retryNumber, base, max);
      forall s: U16 :: RetryDelay(retryNumber, base, max, s).Ok?
                       ==> Lowest(c) <= RetryDelay(retryNumber, base, max, s).value <= Highest(c, max)
  {
    var c := CappedMillis(retryNumber, base, max);
    forall s: U16 | RetryDelay(retryNumber, base, max, s).Ok?
      ensures Lowest(c) <= RetryDelay(retryNumber, base, max, s).value <= Highest(c, max)
    {
      DelayBounds(retryNumber, base, max, s);
    }
  }

  /** No sample of the earlier retry can exceed any sample of the later one. */
  ghost predicate NeverWaitsLess(earlier: U32, later: U32, base: Duration, max: Duration) {
    forall s: U16, t: U16 ::
      RetryDelay(earlier, base, max, s).Ok? && RetryDelay(later, base, max, t).Ok?
      ==> RetryDelay(earlier, base, max, s).value <= RetryDelay(later, base, max, t).value
  }

  /** The largest jitter under which the delay still fits in 64 bits. */
  function LargestBasisPoints(capped: nat): nat
    requires 0 < capped
  {
    ((U64_MAX + 1) * BASIS - 1) / capped
  }

  /** The longest delay some sample gives, of those that fit in 64 bits. */
  function LongestAccepted(capped: nat, max: Duration): nat {
    if Highest(capped, max) <= U64_MAX then Highest(capped, max)
    else if capped == 0 then 0
    else capped * LargestBasisPoints(capped) / BASIS
  }

  lemma LargestBasisPointsFit(c: nat, p: nat)
    requires 0 < c
    ensures c * p / BASIS <= U64_MAX <==> p <= LargestBasisPoints(c)
  {
    var room := (U64_MAX + 1) * BASIS - 1;
    assert c * p / BASIS <= U64_MAX <==> c * p <= room;
    var b := LargestBasisPoints(c);
    assert c * b <= room < c * (b + 1) by { DivisionBounds(room, c); }
    if p <= b { MulBound(c, p, c, b); }
    if b < p { MulBound(c, b + 1, c, p); }
  }

  lemma DivisionBounds(n: nat, c: nat)
    requires 0 < c
    ensures c * (n / c) <= n < c * (n / c + 1)
  {
    assert n == c * (n / c) + n % c;
  }

  /** Every jitter between the two ends is some sample's. */
  lemma EveryJitterOccurs(p: nat) returns (sample: U16)
    requires LOWEST_BASIS_POINTS <= p <= LOWEST_BASIS_POINTS + JITTER_BASIS_POINTS
    ensures BasisPoints(sample) == p
  {
    var k := p - LOWEST_BASIS_POINTS;
    sample := (k * U16_MAX + JITTER_BASIS_POINTS - 1) / JITTER_BASIS_POINTS;
  }

  /** When no delay fits in 64 bits none is accepted; otherwise the accepted ones lie between two that occur. */
  lemma AcceptedDelays(retryNumber: U32, base: Duration, max: Duration) returns (shortest: U16, longest: U16)
    requires base.Valid() && max.Valid()
    ensures
      var c := CappedMillis(retryNumber, base, max);
      if Lowest(c) > U64_MAX then forall s: U16 :: RetryDelay(retryNumber, base, max, s).Err?
      else
        && RetryDelay(retryNumber, base, max, shortest) == Ok(Lowest(c))
        && RetryDelay(retryNumber, base, max, longest) == Ok(LongestAccepted(c, max))
        && forall s: U16 :: RetryDelay(retryNumber, base, max, s).Ok? ==>
             Lowest(c) <= RetryDelay(retryNumber, base, max, s).value <= LongestAccepted(c, max)
  {
    var c := CappedMillis(retryNumber, base, max);
    shortest, longest := 0, U16_MAX;
    AllDelaysWithin(retryNumber, base, max);
    if Lowest(c) <= U64_MAX {
      NeverSaturates(retryNumber, base, max, shortest);
      BasisPointsRange(shortest);
      ScaledDivision(c, BasisPoints(shortest));
      if Highest(c, max) <= U64_MAX {
        DelayBounds(retryNumber, base, max, longest);
      } else {
        longest := LongestBelow64Bits(retryNumber, base, max);
      }
    }
  }

  lemma LongestBelow64Bits(retryNumber: U32, base: Duration, max: Duration) returns (longest: U16)
    requires base.Valid() && max.Valid()
    requires
      var c := CappedMillis(retryNumber, base, max);
      Lowest(c) <= U64_MAX < Highest(c, max)
    ensures
      var c := CappedMillis(retryNumber, base, max);
      && RetryDelay(retryNumber, base, max, longest) == Ok(LongestAccepted(c, max))
      && forall s: U16 :: RetryDelay(retryNumber, base, max, s).Ok? ==>
           RetryDelay(retryNumber, base, max, s).value <= LongestAccepted(c, max)
  {
    var c := CappedMillis(retryNumber, base, max);
    var b := LargestBasisPoints(c);
    LargestBasisPointsFit(c, LOWEST_BASIS_POINTS);
    LargestBasisPointsFit(c, LOWEST_BASIS_POINTS + JITTER_BASIS_POINTS);
    LargestBasisPointsFit(c, b);
    ScaledDivision(c, LOWEST_BASIS_POINTS);
    longest := EveryJitterOccurs(b);
    NeverSaturates(retryNumber, base, max, longest);
    forall s: U16 | RetryDelay(retryNumber, base, max, s).Ok?
      ensures RetryDelay(retryNumber, base, max, s).value <= LongestAccepted(c, max)
    {
      NeverSaturates(retryNumber, base, max, s);
      LargestBasisPointsFit(c, BasisPoints(s));
      MulBound(c, BasisPoints(s), c, b);
    }
  }

  /**
   A later retry is sure to wait at least as long as an earlier one exactly when one of the two has no
   delay of 64 bits at all, or the ranges of the delays that have do not cross.
   */
  lemma OrderedExactlyWhenRangesDoNotCross(earlier: U32, later: U32, base: Duration, max: Duration)
    requires base.Valid() && max.Valid()
    ensures
      var e, l := CappedMillis(earlier, base, max), CappedMillis(later, base, max);
      NeverWaitsLess(earlier, later, base, max)
      <==> Lowest(e) > U64_MAX || Lowest(l) > U64_MAX || LongestAccepted(e, max) <= Lowest(l)
  {
    var e, l := CappedMillis(earlier, base, max), CappedMillis(later, base, max);
    var _, s := AcceptedDelays(earlier, base, max);
    var t, _ := AcceptedDelays(later, base, max);
    if Lowest(e) <= U64_MAX && Lowest(l) <= U64_MAX && NeverWaitsLess(earlier, later, base, max) {
      assert RetryDelay(earlier, base, max, s).value <= RetryDelay(later, base, max, t).value;
    }
  }

  /** While the doubling that leads to the later retry still fits under the cap, waits do not shrink. */
  lemma WaitsGrowBelowTheCap(earlier: U32, later: U32, base: Duration, max: Duration)
    requires base.Valid() && max.Valid()
    requires 1 <= earlier < later <= MAX_EXPONENT + 1
    requires base.Millis() * Pow2(later - 1) <= max.Millis()
    ensures NeverWaitsLess(earlier, later, base, max)
  {
    var b := base.Millis();
    Pow2Monotone(earlier - 1, later - 2);
    assert Pow2(later - 1) == 2 * Pow2(later - 2);
    MulBound(b, Pow2(earlier - 1), b, Pow2(later - 2));
    assert b * Pow2(later - 1) == 2 * (b * Pow2(later - 2));
    NeverSaturates(earlier, base, max, 0);
    NeverSaturates(later, base, max, 0);
    var e, l := CappedMillis(earlier, base, max), CappedMillis(later, base, max);
    assert e == b * Pow2(earlier - 1) && l == b * Pow2(later - 1);
    assert 2 * e <= l;
    AllDelaysWithin(earlier, base, max);
    AllDelaysWithin(later, base, max);
  }

  /** At the cap the guarantee is lost: two retries of equal capped delay can wait in either order. */
  lemma JitterReordersRetriesAtTheCap()
    ensures exists base: Duration, max: Duration, s: U16, t: U16 ::
              && base.Valid() && max.Valid()
              && RetryDelay(1, base, max, s).Ok? && RetryDelay(2, base, max, t).Ok?
              && RetryDelay(2, base, max, t).value < RetryDelay(1, base, max, s).value
  {
    var d := Duration(1, 0);
    assert Pow2(1) == 2;
    assert RetryDelay(1, d, d, U16_MAX) == Ok(1_000);
    assert RetryDelay(2, d, d, 0) == Ok(800);
  }

  // --- The retry counter of one task ---

  const INITIAL_RETRY_LIMIT := 3
  const LARGEST_RETRY_LIMIT := 20

  datatype RetryRow = RetryRow(status: TaskStatus, limit: nat, used: nat, notBefore: Option<int>)

  datatype RetryPlan = RetryPlan(scheduled: bool, retryNumber: nat, retryAt: Option<int>)

  datatype RetryOp =
    | SetLimit(limit: nat)
    | Plan(failure: FailureCategory, now: int, base: Duration, max: Duration, sample: U16)
    | StatusChange(status: TaskStatus)  // any other transaction that moves the task

  /** The retry a plan schedules: its number and the time it may start, or the reason there is none. */
  function PlannedRetry(row: RetryRow, failure: FailureCategory, now: int, base: Duration, max: Duration, sample: U16)
    : Result<(RetryRow, RetryPlan), RetryError>
  {
    if max.Less(base) then Err(MaximumBelowBase)
    else if row.status != Failed then Err(NotFailed)
    else
      var number := SaturatingIncrement(row.used);
      if failure.Retryable() && row.used < row.limit then
        match RetryDelay(number, base, max, sample)
        case Err(e) => Err(e)
        case Ok(delay) =>
          if delay > I64_MAX then Err(DelayTooLarge)
          else Ok((RetryRow(Ready, row.limit, row.used + 1, Some(now + delay)),
                   RetryPlan(true, number, Some(now + delay))))
      else
        Ok((row.(notBefore := None), RetryPlan(false, number, None)))
  }

  /**
   A retry is scheduled exactly for a failed task, a retryable failure, a counter below the limit and a delay that can
   be kept. It is numbered one above the retries used, starts after that delay, and counts as used.
   */
  lemma RetryIsPlannedExactly(
      row: RetryRow, failure: FailureCategory, now: int, base: Duration, max: Duration, sample: U16)
    requires base.Valid() && max.Valid()
    ensures
      var n := if row.used < U32_MAX then row.used + 1 else U32_MAX;
      var r, delay := PlannedRetry(row, failure, now, base, max, sample), RetryDelay(n, base, max, sample);
      && (r.Ok? && r.value.1.scheduled <==>
            && (base.secs < max.secs || (base.secs == max.secs && base.nanos <= max.nanos))
            && row.status == Failed && failure.Retryable() && row.used < row.limit
            && delay.Ok? && delay.value <= I64_MAX)
      && (r.Ok? && r.value.1.scheduled ==>
            && DelayIsBackoff(delay.value, row.used, base, max)
            && r.value == (RetryRow(Ready, row.limit, row.used + 1, Some(now + delay.value)),
                           RetryPlan(true, n, Some(now + delay.value))))
      && (r.Ok? && !r.value.1.scheduled ==>
            r.value == (row.(notBefore := None), RetryPlan(false, n, None)))
  {
    var n := if row.used < U32_MAX then row.used + 1 else U32_MAX;
    if RetryDelay(n, base, max, sample).Ok? { PlannedDelayIsBackoff(row.used, base, max, sample); }
    hide RetryDelay, DelayIsBackoff;
  }

  /** Four to six fifths of the base delay, doubled once for each earlier retry up to 31 times, under the maximum. */
  predicate DelayIsBackoff(delay: nat, earlier: nat, base: Duration, max: Duration) {
    var doubled := Min(base.Millis() * Pow2(Min(earlier, 31)), max.Millis());
    doubled * 8 / 10 <= delay <= doubled * 12 / 10 && delay <= max.Millis()
  }

  lemma PlannedDelayIsBackoff(used: nat, base: Duration, max: Duration, sample: U16)
    requires base.Valid() && max.Valid()
    requires RetryDelay(if used < U32_MAX then used + 1 else U32_MAX, base, max, sample).Ok?
    ensures DelayIsBackoff(RetryDelay(if used < U32_MAX then used + 1 else U32_MAX, base, max, sample).value, used, base, max)
  {
    var n := if used < U32_MAX then used + 1 else U32_MAX;
    assert Exponent(n) == Min(used, 31);
    NeverSaturates(n, base, max, sample);
    DelayBounds(n, base, max, sample);
    hide RetryDelay;
  }

  function ApplyRetryOp(row: RetryRow, op: RetryOp): RetryRow {
    match op
    case SetLimit(limit) => if limit > LARGEST_RETRY_LIMIT then row else row.(limit := limit)
    case Plan(failure, now, base, max, sample) =>
      (match PlannedRetry(row, failure, now, base, max, sample)
       case Ok(result) => result.0
       case Err(_) => row)
    case StatusChange(status) => row.(status := status)
  }

  const InitialRetryRow := RetryRow(Draft, INITIAL_RETRY_LIMIT, 0, None)

  function RunRetryOps(ops: seq<RetryOp>): RetryRow {
    if ops == [] then InitialRetryRow
    else ApplyRetryOp(RunRetryOps(ops[..|ops| - 1]), ops[|ops| - 1])
  }

  /** The largest limit in force at any moment of the run. */
  function LargestLimit(ops: seq<RetryOp>): nat {
    if ops == [] then INITIAL_RETRY_LIMIT
    else
      var before := LargestLimit(ops[..|ops| - 1]);
      if RunRetryOps(ops).limit > before then RunRetryOps(ops).limit else before
  }

  /** Retries granted so far: one for each plan that scheduled one. */
  function Granted(ops: seq<RetryOp>): nat {
    if ops == [] then 0
    else
      var row, op := RunRetryOps(ops[..|ops| - 1]), ops[|ops| - 1];
      Granted(ops[..|ops| - 1])
      + (if op.Plan? then
           match PlannedRetry(row, op.failure, op.now, op.base, op.max, op.sample)
           case Ok(result) => if result.1.scheduled then 1 else 0
           case Err(_) => 0
         else 0)
  }

  /**
   Over any run the counter equals the number of retries granted, and never exceeds the largest
   limit ever in force, so no task is retried more than twenty times.
   */
  lemma {:induction false} RetriesStayWithinTheLargestLimit(ops: seq<RetryOp>)
    ensures RunRetryOps(ops).used == Granted(ops) <= LargestLimit(ops) <= LARGEST_RETRY_LIMIT
    ensures RunRetryOps(ops).limit <= LargestLimit(ops)
  {
    if ops != [] {
      RetriesStayWithinTheLargestLimit(ops[..|ops| - 1]);
    }
  }

  /** The task_retry_state row of one task, joined with the status of that task. */
  class TaskRetry {
    var row: RetryRow

    constructor ()
      ensures row == InitialRetryRow
    {
      row := InitialRetryRow;
    }

    method SetRetryLimit(limit: nat) returns (r: Result<(), RetryError>)
      modifies this
      ensures row == ApplyRetryOp(old(row), SetLimit(limit))
      ensures r.Ok? <==> limit <= LARGEST_RETRY_LIMIT
    {
      if limit > LARGEST_RETRY_LIMIT { return Err(LimitOutOfRange); }
      row := row.(limit := limit);
      return Ok(());
    }

    method PlanRetry(failure: FailureCategory, now: int, base: Duration, max: Duration, sample: U16)
      returns (r: Result<RetryPlan, RetryError>)
      modifies this
      ensures match PlannedRetry(old(row), failure, now, base, max, sample)
              case Ok((planned, plan)) => row == planned && r == Ok(plan)
              case Err(error) => row == old(row) && r == Err(error)
    {
      if max.Less(base) { return Err(MaximumBelowBase); }
      if row.status != Failed { return Err(NotFailed); }
      var number := SaturatingIncrement(row.used);
      if failure.Retryable() && row.used < row.limit {
        var delay := RetryDelay(number, base, max, sample);
        if delay.Err? { return Err(delay.error); }
        if delay.value > I64_MAX { return Err(DelayTooLarge); }
        row := row.(status := Ready, used := row.used + 1, notBefore := Some(now + delay.value));
        return Ok(RetryPlan(true, number, row.notBefore));
      }
      row := row.(notBefore := None);
      return Ok(RetryPlan(false, number, None));
    }
  }
}
