/**
 The adapter circuit breaker: one row per adapter identity, a gate and an outcome recorder.
 */
module Circuit {
  import opened Prelude
  import opened Domain

  datatype CircuitState = Closed | Open | HalfOpen

  datatype Circuit = Circuit(
    state: CircuitState,
    failures: U32,
    openedAt: Option<int>,
    nextProbeAt: Option<int>,
    probeClaimedAt: Option<int>)

  datatype GateReason = CircuitClosed | HalfOpenProbe | ProbeAvailable | CircuitOpen | ProbeClaimed

  datatype GateAnswer = GateAnswer(allowed: bool, retryAt: Option<int>, reason: GateReason)

  /** A missing row reads as closed. */
  function StateOf(row: Option<Circuit>): CircuitState {
    if row.None? then Closed else row.value.state
  }

  function FailuresOf(row: Option<Circuit>): U32 {
    if row.None? then 0 else row.value.failures
  }

  function ProbeDue(c: Circuit, now: int): bool {
    c.nextProbeAt.None? || c.nextProbeAt.value <= now
  }

  function Gate(row: Option<Circuit>, now: int, claimProbe: bool): (Option<Circuit>, GateAnswer) {
    match row
    case None => (row, GateAnswer(true, None, CircuitClosed))
    case Some(c) =>
      match c.state
      case Closed => (row, GateAnswer(true, None, CircuitClosed))
      case HalfOpen => (row, GateAnswer(false, c.nextProbeAt, ProbeClaimed))
      case Open =>
        if ProbeDue(c, now) && claimProbe then
          (Some(c.(state := HalfOpen, probeClaimedAt := Some(now))), GateAnswer(true, None, HalfOpenProbe))
        else if ProbeDue(c, now) then (row, GateAnswer(true, None, ProbeAvailable))
        else (row, GateAnswer(false, c.nextProbeAt, CircuitOpen))
  }

  function RecordOutcome(
      row: Option<Circuit>, failure: Option<FailureCategory>, now: int, threshold: U32, cooldown: nat): Option<Circuit>
  {
    if threshold == 0 then row
    else if failure.Some? && failure.value.Retryable() then
      var count := if row.None? then 1 else SaturatingIncrement(row.value.failures);
      if StateOf(row) == HalfOpen || count >= threshold
      then Some(Circuit(Open, count, Some(now), Some(now + cooldown), None))
      else Some(Circuit(Closed, count, None, None, None))
    else Some(Circuit(Closed, 0, None, None, None))
  }

  // --- Histories of one identity ---

  datatype CircuitOp =
    | AskGate(now: int, claimProbe: bool)
    | Outcome(failure: Option<FailureCategory>, now: int, threshold: U32, cooldown: nat)

  function ApplyCircuitOp(row: Option<Circuit>, op: CircuitOp): Option<Circuit> {
    match op
    case AskGate(now, claimProbe) => Gate(row, now, claimProbe).0
    case Outcome(failure, now, threshold, cooldown) => RecordOutcome(row, failure, now, threshold, cooldown)
  }

  function After(ops: seq<CircuitOp>): Option<Circuit> {
    if ops == [] then None else ApplyCircuitOp(After(ops[..|ops| - 1]), ops[|ops| - 1])
  }

  predicate RetryableFailure(op: CircuitOp) {
    op.Outcome? && op.failure.Some? && op.failure.value.Retryable()
  }

  /** The length of the trailing run of retryable failures, gates aside. */
  function TrailingFailures(ops: seq<CircuitOp>): nat {
    if ops == [] then 0
    else
      var last := ops[|ops| - 1];
      if last.AskGate? then TrailingFailures(ops[..|ops| - 1])
      else if RetryableFailure(last) then TrailingFailures(ops[..|ops| - 1]) + 1
      else 0
  }

  ghost predicate FixedThreshold(ops: seq<CircuitOp>, threshold: U32) {
    forall i :: 0 <= i < |ops| && ops[i].Outcome? ==> ops[i].threshold == threshold
  }

  /**
   With a fixed threshold the stored counter is the trailing run of retryable failures, saturated
   at the counter's width, and the circuit is closed exactly while that is below the threshold.
   */
  lemma {:induction false} CounterIsTrailingFailures(ops: seq<CircuitOp>, threshold: U32)
    requires threshold > 0 && FixedThreshold(ops, threshold)
    ensures FailuresOf(After(ops)) == if TrailingFailures(ops) <= U32_MAX then TrailingFailures(ops) else U32_MAX
    ensures StateOf(After(ops)) == Closed <==> TrailingFailures(ops) < threshold
    ensures After(ops).Some? && StateOf(After(ops)) == Closed ==>
              After(ops).value.openedAt.None? && After(ops).value.nextProbeAt.None? && After(ops).value.probeClaimedAt.None?
  {
    if ops != [] {
      CounterIsTrailingFailures(ops[..|ops| - 1], threshold);
    }
  }

  /** The gate asked at step i handed out the half-open probe. */
  ghost predicate GrantsProbe(ops: seq<CircuitOp>, i: nat)
    requires i < |ops|
  {
    ops[i].AskGate? && Gate(After(ops[..i]), ops[i].now, ops[i].claimProbe).1.reason == HalfOpenProbe
  }

  ghost predicate NoEffectiveOutcome(ops: seq<CircuitOp>, from: nat, to: nat)
    requires from <= to <= |ops|
  {
    forall k :: from <= k < to ==> ops[k].AskGate? || ops[k].threshold == 0
  }

  lemma PrefixStep(ops: seq<CircuitOp>, i: nat)
    requires i < |ops|
    ensures After(ops[..i + 1]) == ApplyCircuitOp(After(ops[..i]), ops[i])
  {
    assert ops[..i + 1][..i] == ops[..i];
  }

  lemma {:induction false} HalfOpenUntilOutcome(ops: seq<CircuitOp>, i: nat, j: nat)
    requires i < j <= |ops| && GrantsProbe(ops, i) && NoEffectiveOutcome(ops, i + 1, j)
    ensures StateOf(After(ops[..j])) == HalfOpen
    decreases j
  {
    PrefixStep(ops, j - 1);
    if i + 1 < j {
      HalfOpenUntilOutcome(ops, i, j - 1);
    }
  }

  /** Between two granted probes some outcome was recorded: a probe is never handed out twice. */
  lemma OneProbeBetweenOutcomes(ops: seq<CircuitOp>, i: nat, j: nat)
    requires i < j < |ops| && GrantsProbe(ops, i) && GrantsProbe(ops, j)
    ensures exists k :: i < k < j && ops[k].Outcome? && ops[k].threshold > 0
  {
    if NoEffectiveOutcome(ops, i + 1, j) {
      HalfOpenUntilOutcome(ops, i, j);
    }
  }

  /** Step k recorded the opening that is still in force at step j. */
  ghost predicate OpenedAt(ops: seq<CircuitOp>, k: nat, j: nat)
    requires k < j <= |ops|
  {
    RetryableFailure(ops[k]) && ops[k].threshold > 0 && NoEffectiveOutcome(ops, k + 1, j)
  }

  lemma {:induction false} OpenComesFromAnOpening(ops: seq<CircuitOp>, j: nat) returns (k: nat)
    requires j <= |ops| && StateOf(After(ops[..j])) == Open
    ensures k < j && OpenedAt(ops, k, j)
    ensures After(ops[..j]).value.nextProbeAt == Some(ops[k].now + ops[k].cooldown)
    decreases j
  {
    if j > 0 {
      PrefixStep(ops, j - 1);
      if RetryableFailure(ops[j - 1]) && ops[j - 1].threshold > 0 {
        k := j - 1;
      } else {
        k := OpenComesFromAnOpening(ops, j - 1);
      }
    }
  }

  /** No probe is granted before the cooldown of the latest opening has ended. */
  lemma ProbeWaitsForTheCooldown(ops: seq<CircuitOp>, j: nat)
    requires j < |ops| && GrantsProbe(ops, j)
    ensures exists k :: 0 <= k < j && OpenedAt(ops, k, j) && ops[k].now + ops[k].cooldown <= ops[j].now
  {
    var k := OpenComesFromAnOpening(ops, j);
  }

  /** Since the opening at step k the gate was asked for the probe after the cooldown had ended. */
  ghost predicate ProbeTakenSince(ops: seq<CircuitOp>, k: nat, j: nat)
    requires k < j <= |ops| && ops[k].Outcome?
  {
    exists i :: k < i < j && ops[i].AskGate? && ops[i].claimProbe && ops[k].now + ops[k].cooldown <= ops[i].now
  }

  lemma TrailingPrefix(ops: seq<CircuitOp>, j: nat)
    requires 0 < j <= |ops|
    ensures
      var last := ops[j - 1];
      TrailingFailures(ops[..j])
      == if last.AskGate? then TrailingFailures(ops[..j - 1])
         else if RetryableFailure(last) then TrailingFailures(ops[..j - 1]) + 1 else 0
  {
    assert ops[..j][..j - 1] == ops[..j - 1];
  }

  lemma ProbeTakenLater(ops: seq<CircuitOp>, k: nat, j: nat)
    requires k + 1 < j <= |ops| && ops[k].Outcome? && ops[j - 1].AskGate?
    ensures ProbeTakenSince(ops, k, j) <==>
              ProbeTakenSince(ops, k, j - 1)
              || (ops[j - 1].claimProbe && ops[k].now + ops[k].cooldown <= ops[j - 1].now)
  {
  }

  lemma NoProbeYet(ops: seq<CircuitOp>, k: nat)
    requires k < |ops| && ops[k].Outcome?
    ensures !ProbeTakenSince(ops, k, k + 1)
  {
  }

  /** With a fixed threshold, a circuit that is not closed waits out its latest opening until its probe is taken. */
  lemma {:induction false} OpeningGoverns(ops: seq<CircuitOp>, threshold: U32, j: nat) returns (k: nat)
    requires threshold > 0 && FixedThreshold(ops, threshold) && j <= |ops| && TrailingFailures(ops[..j]) >= threshold
    ensures k < j && OpenedAt(ops, k, j)
    ensures
      var row := After(ops[..j]);
      && row.Some? && row.value.nextProbeAt == Some(ops[k].now + ops[k].cooldown)
      && row.value.openedAt == Some(ops[k].now)
      && row.value.state == (if ProbeTakenSince(ops, k, j) then HalfOpen else Open)
      && (row.value.probeClaimedAt.Some? <==> ProbeTakenSince(ops, k, j))
    decreases j
  {
    assert TrailingFailures([]) == 0 && ops[..0] == [];
    hide After, TrailingFailures, ProbeTakenSince;
    TrailingPrefix(ops, j);
    PrefixStep(ops, j - 1);
    if ops[j - 1].AskGate? {
      k := OpeningGoverns(ops, threshold, j - 1);
      ProbeTakenLater(ops, k, j);
    } else {
      CounterIsTrailingFailures(ops[..j], threshold);
      k := j - 1;
      NoProbeYet(ops, k);
    }
  }

  /** What the gate says when it is asked at step j, told by the history alone. */
  ghost predicate AnswersByHistory(ops: seq<CircuitOp>, threshold: U32, j: nat, answer: GateAnswer)
    requires j < |ops| && ops[j].AskGate?
  {
    if TrailingFailures(ops[..j]) < threshold then answer == GateAnswer(true, None, CircuitClosed)
    else exists k :: 0 <= k < j && OpenedAt(ops, k, j) && AnswersAfterOpening(ops, k, j, answer)
  }

  ghost predicate AnswersAfterOpening(ops: seq<CircuitOp>, k: nat, j: nat, answer: GateAnswer)
    requires k < j < |ops| && ops[k].Outcome? && ops[j].AskGate?
  {
    var end := ops[k].now + ops[k].cooldown;
    answer == if ProbeTakenSince(ops, k, j) then GateAnswer(false, Some(end), ProbeClaimed)
              else if ops[j].now < end then GateAnswer(false, Some(end), CircuitOpen)
              else GateAnswer(true, None, if ops[j].claimProbe then HalfOpenProbe else ProbeAvailable)
  }

  /**
   With a fixed threshold, the gate opens to everybody below it; from there on it stays shut until the cooldown of
   the latest opening has ended, and shut again once somebody has taken the probe.
   */
  lemma GateAnswersByHistory(ops: seq<CircuitOp>, threshold: U32, j: nat)
    requires threshold > 0 && FixedThreshold(ops, threshold) && j < |ops| && ops[j].AskGate?
    ensures AnswersByHistory(ops, threshold, j, Gate(After(ops[..j]), ops[j].now, ops[j].claimProbe).1)
  {
    CounterIsTrailingFailures(ops[..j], threshold);
    if TrailingFailures(ops[..j]) >= threshold {
      var k := OpeningGoverns(ops, threshold, j);
      assert AnswersAfterOpening(ops, k, j, Gate(After(ops[..j]), ops[j].now, ops[j].claimProbe).1);
    }
  }

  lemma LatestOpeningIsUnique(ops: seq<CircuitOp>, threshold: U32, j: nat, k: nat, i: nat)
    requires threshold > 0 && FixedThreshold(ops, threshold) && j <= |ops| && k < j && i < j
    requires OpenedAt(ops, k, j) && OpenedAt(ops, i, j)
    ensures k == i
  {
  }

  /**
   So a caller is let through exactly while the trailing failures are below the threshold, or after the cooldown of
   the latest opening when nobody has taken the probe since.
   */
  lemma AllowedExactly(ops: seq<CircuitOp>, threshold: U32, j: nat)
    requires threshold > 0 && FixedThreshold(ops, threshold) && j < |ops| && ops[j].AskGate?
    ensures Gate(After(ops[..j]), ops[j].now, ops[j].claimProbe).1.allowed <==>
              || TrailingFailures(ops[..j]) < threshold
              || exists k :: 0 <= k < j && OpenedAt(ops, k, j)
                   && ops[k].now + ops[k].cooldown <= ops[j].now && !ProbeTakenSince(ops, k, j)
  {
    GateAnswersByHistory(ops, threshold, j);
    var answer := Gate(After(ops[..j]), ops[j].now, ops[j].claimProbe).1;
    if TrailingFailures(ops[..j]) >= threshold {
      var k :| 0 <= k < j && OpenedAt(ops, k, j) && AnswersAfterOpening(ops, k, j, answer);
      forall i | 0 <= i < j && OpenedAt(ops, i, j)
        ensures i == k
      {
        LatestOpeningIsUnique(ops, threshold, j, k, i);
      }
    }
  }

  // --- The adapter_circuits table ---

  datatype Identity = Identity(adapter: string, provider: string, account: string)

  datatype CircuitError = ZeroThreshold

  class AdapterCircuits {
    var rows: map<Identity, Circuit>

    constructor ()
      ensures rows == map[]
    {
      rows := map[];
    }

    function Row(id: Identity): Option<Circuit>
      reads this
    {
      if id in rows then Some(rows[id]) else None
    }

    method AdapterCircuitGate(id: Identity, now: int, claimProbe: bool) returns (answer: GateAnswer)
      modifies this
      ensures (Row(id), answer) == Gate(old(Row(id)), now, claimProbe)
      ensures forall other :: other != id ==> Row(other) == old(Row(other))
    {
      if id !in rows || rows[id].state == Closed {
        return GateAnswer(true, None, CircuitClosed);
      }
      var circuit := rows[id];
      if circuit.state == HalfOpen {
        return GateAnswer(false, circuit.nextProbeAt, ProbeClaimed);
      }
      var probeDue := ProbeDue(circuit, now);
      if probeDue && claimProbe {
        rows := rows[id := circuit.(state := HalfOpen, probeClaimedAt := Some(now))];
        return GateAnswer(true, None, HalfOpenProbe);
      } else if probeDue {
        return GateAnswer(true, None, ProbeAvailable);
      }
      return GateAnswer(false, circuit.nextProbeAt, CircuitOpen);
    }

    method RecordAdapterOutcome(
        id: Identity, failure: Option<FailureCategory>, now: int, threshold: U32, cooldown: nat)
      returns (r: Result<Circuit, CircuitError>)
      modifies this
      ensures Row(id) == RecordOutcome(old(Row(id)), failure, now, threshold, cooldown)
      ensures r.Ok? <==> threshold != 0
      ensures r.Ok? ==> Row(id) == Some(r.value)
      ensures forall other :: other != id ==> Row(other) == old(Row(other))
    {
      if threshold == 0 { return Err(ZeroThreshold); }
      var next := Circuit(Closed, 0, None, None, None);
      if failure.Some? && failure.value.Retryable() {
        var count := 1;
        if id in rows { count := SaturatingIncrement(rows[id].failures); }
        if (id in rows && rows[id].state == HalfOpen) || count >= threshold {
          next := Circuit(Open, count, Some(now), Some(now + cooldown), None);
        } else {
          next := Circuit(Closed, count, None, None, None);
        }
      }
      rows := rows[id := next];
      return Ok(next);
    }
  }
}
