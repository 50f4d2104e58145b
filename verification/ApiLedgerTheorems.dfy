/**
 What the ledger invariant means: attempt histories, exact settlement prices, reservations that
 never revive, and agreement of the admission preview with admission.
 */
module ApiLedgerTheorems {
  import opened Prelude
  import opened ApiBudget
  import Proofs = ApiLedgerProofs
  import Pricing

  // --- Steps ---

  lemma ApplyKeepsInv(l: Ledger, op: LedgerOp, now: int)
    requires Proofs.Inv(l) && Apply(l, op, now).Ok?
    ensures Proofs.Inv(Apply(l, op, now).value)
  {
    match op
    case ConfigureBudgetOp(b) => Proofs.ConfigureBudgetKeepsInv(l, b);
    case ConfigurePriceOp(p) => Proofs.ConfigurePriceKeepsInv(l, p);
    case ReserveOp(r) => Proofs.ReserveTxKeepsInv(l, r.(now := now), None);
    case RecoverReservationsOp =>
      Proofs.SweepsAreRowwise(l, now, {}, {});
      Proofs.RowwiseKeepsInv(l, Apply(l, op, now).value);
    case ClaimDispatchOp(i) => Proofs.ClaimDispatchKeepsInv(l, i, now);
    case BeginAttemptOp(i) => Proofs.BeginAttemptKeepsInv(l, i, now);
    case FailAttemptOp(a, f) => Proofs.FailAttemptKeepsInv(l, a, f);
    case SettleOp(s, a) => Proofs.SettleKeepsInv(l, s, a);
    case ReleaseOp(i, reason) => Proofs.ReleaseKeepsInv(l, i, reason);
  }

  predicate Final(status: ReservationStatus) {
    status == Settled || status == Released || status == Expired
  }

  /** A reservation row keeps its identity and amounts, never becomes active again, and stays ended once ended. */
  ghost predicate NeverRevives(r: Reservation, s: Reservation) {
    && s == r.(status := s.status, expiresAt := s.expiresAt, run := s.run)
    && (Final(r.status) ==> s.status == r.status)
    && (s.status == Active ==> r.status == Active)
    && (r.run.Some? ==> s.run == r.run)
  }

  /** An attempt row keeps its reservation and number, and its status once it has an outcome. */
  predicate AttemptAdvances(a: Attempt, b: Attempt) {
    b.reservation == a.reservation && b.number == a.number && (a.status != Started ==> b.status == a.status)
  }

  /** Rows are only ever added, and existing ones move forward. */
  ghost predicate MovesForward(l: Ledger, h: Ledger) {
    && |l.reservations| <= |h.reservations| && |l.attempts| <= |h.attempts|
    && l.budgets <= h.budgets && l.spends <= h.spends && l.prices <= h.prices
    && (forall i :: 0 <= i < |l.reservations| ==> NeverRevives(l.reservations[i], h.reservations[i]))
    && (forall a :: 0 <= a < |l.attempts| ==> AttemptAdvances(l.attempts[a], h.attempts[a]))
  }

  lemma RowwiseMovesForward(l: Ledger, h: Ledger)
    requires Proofs.RowwiseStep(l, h)
    requires forall i :: 0 <= i < |l.reservations| && l.reservations[i].run.Some? ==>
               h.reservations[i].run == l.reservations[i].run
    ensures MovesForward(l, h)
  {
    assert forall i :: 0 <= i < |l.reservations| ==> Proofs.RowStep(l.reservations[i], h.reservations[i]);
  }

  lemma ApplyMovesForward(l: Ledger, op: LedgerOp, now: int)
    requires Apply(l, op, now).Ok?
    ensures MovesForward(l, Apply(l, op, now).value)
  {
    hide CheckEvidence, CheckTotals, CheckPolicy, CheckUnique, ValidBudget, ValidPrice, ValidRequest, LatestBudget,
      LastAttempt;
  }

  lemma MovesForwardTransitive(l: Ledger, h: Ledger, k: Ledger)
    requires MovesForward(l, h) && MovesForward(h, k)
    ensures MovesForward(l, k)
  {
    forall i | 0 <= i < |l.reservations|
      ensures NeverRevives(l.reservations[i], k.reservations[i])
    {
      assert NeverRevives(l.reservations[i], h.reservations[i]) && NeverRevives(h.reservations[i], k.reservations[i]);
    }
    forall a | 0 <= a < |l.attempts|
      ensures AttemptAdvances(l.attempts[a], k.attempts[a])
    {
      assert AttemptAdvances(l.attempts[a], h.attempts[a]) && AttemptAdvances(h.attempts[a], k.attempts[a]);
    }
  }

  /** Once a project has reserved a digest, no later admission under that digest succeeds. */
  lemma DigestIsReservedOnce(l: Ledger, i: nat, h: Ledger, r: Request, claim: Option<nat>)
    requires i < |l.reservations| && MovesForward(l, h)
    requires r.project == l.reservations[i].project && r.digest == l.reservations[i].digest
    ensures ReserveTx(h, r, claim).Err?
  {
    assert NeverRevives(l.reservations[i], h.reservations[i]);
    var swept := ExpireReservations(h, r.now);
    assert swept.reservations[i].project == r.project && swept.reservations[i].digest == r.digest;
  }

  // --- Histories ---

  /** The attempts of one reservation, in the order they were started. */
  function AttemptsOf(attempts: seq<Attempt>, i: nat): seq<Attempt> {
    if attempts == [] then []
    else
      var k := |attempts| - 1;
      AttemptsOf(attempts[..k], i) + (if attempts[k].reservation == i then [attempts[k]] else [])
  }

  ghost predicate NumberedHistory(history: seq<Attempt>) {
    forall k :: 0 <= k < |history| ==>
      history[k].number == k + 1 && (k < |history| - 1 ==> history[k].status == RetryableFailure)
  }

  lemma {:induction false} HistoryIsNumbered(attempts: seq<Attempt>, i: nat)
    requires Proofs.Numbered(attempts) && Proofs.NoReplay(attempts)
    ensures |AttemptsOf(attempts, i)| == AttemptCount(attempts, i) && NumberedHistory(AttemptsOf(attempts, i))
    ensures forall k :: 0 <= k < |AttemptsOf(attempts, i)| ==> AttemptsOf(attempts, i)[k] in attempts
  {
    if attempts != [] {
      var n := |attempts| - 1;
      Proofs.NumberedPrefix(attempts);
      HistoryIsNumbered(attempts[..n], i);
      var before := AttemptsOf(attempts[..n], i);
      if attempts[n].reservation == i {
        forall k | 0 <= k < |before|
          ensures before[k].status == RetryableFailure
        {
          AttemptsOfOnlyMine(attempts[..n], i, k);
        }
      }
    }
  }

  lemma {:induction false} AttemptsOfOnlyMine(attempts: seq<Attempt>, i: nat, k: nat)
    requires k < |AttemptsOf(attempts, i)|
    ensures exists j :: 0 <= j < |attempts| && attempts[j] == AttemptsOf(attempts, i)[k] && attempts[j].reservation == i
  {
    var n := |attempts| - 1;
    var before := AttemptsOf(attempts[..n], i);
    if k < |before| {
      AttemptsOfOnlyMine(attempts[..n], i, k);
      var j :| 0 <= j < n && attempts[..n][j] == before[k] && attempts[..n][j].reservation == i;
      assert attempts[j] == before[k];
    }
  }

  lemma {:induction false} LastAttemptEndsHistory(attempts: seq<Attempt>, i: nat)
    requires Proofs.Numbered(attempts)
    ensures var a, history := LastAttempt(attempts, i), AttemptsOf(attempts, i);
            if a.None? then history == [] else history != [] && history[|history| - 1] == attempts[a.value]
  {
    if attempts != [] {
      Proofs.NumberedPrefix(attempts);
      LastAttemptEndsHistory(attempts[..|attempts| - 1], i);
      Proofs.LastAttemptIsLast(attempts, i);
    }
  }

  /**
   Dispatch without replay: the attempts of a reservation are numbered from one, no more than it has
   requests for, and each but the last failed retryably; a settled one ended in success or never used
   an attempt row, and one bound to a claim was never dispatched before its run existed.
   */
  lemma DispatchWithoutReplay(l: Ledger, i: nat)
    requires Proofs.Inv(l) && i < |l.reservations|
    ensures
      var r, history := l.reservations[i], AttemptsOf(l.attempts, i);
      && |history| <= r.requests && NumberedHistory(history)
      && (r.status == Settled ==> history == [] || history[|history| - 1].status == Succeeded)
      && (history != [] && history[|history| - 1].status == Succeeded ==> r.status == Settled)
      && ((r.status == Active || r.status == Released || r.status == Expired) ==> history == [])
      && (r.claim.Some? && r.run.None? ==> history == [] && r.status != Dispatched)
  {
    HistoryIsNumbered(l.attempts, i);
    LastAttemptEndsHistory(l.attempts, i);
    Proofs.NoAttemptsWhileActive(l, i);
  }

  /** After a terminal, uncertain or successful attempt no further attempt of that reservation can begin. */
  lemma NothingFollowsAFinalAttempt(l: Ledger, a: nat, now: int)
    requires Proofs.Inv(l) && a < |l.attempts| && l.attempts[a].status != RetryableFailure
    ensures BeginAttempt(l, l.attempts[a].reservation, now).Err?
  {
    Proofs.LastAttemptIsLast(l.attempts, l.attempts[a].reservation);
  }

  /**
   Reporting a failure succeeds exactly for a started attempt and a consistent report, and then the attempt
   has the reported status and nothing else has changed.
   */
  lemma FailureIsRecorded(l: Ledger, a: nat, f: Failure)
    ensures FailAttempt(l, a, f).Ok? <==>
              && a < |l.attempts| && l.attempts[a].status == Started
              && (f.status == RetryableFailure || f.status == TerminalFailure || f.status == Uncertain)
              && (f.status == RetryableFailure <==> f.retryable)
              && NonBlank(f.kind) && |f.kind| <= 100
              && (f.requestHash.Some? ==> IsSha256Hex(f.requestHash.value))
    ensures FailAttempt(l, a, f).Ok? ==>
              var h := FailAttempt(l, a, f).value;
              && h == l.(attempts := h.attempts) && |h.attempts| == |l.attempts|
              && h.attempts[a] == Attempt(l.attempts[a].reservation, l.attempts[a].number, f.status)
              && forall k :: 0 <= k < |l.attempts| && k != a ==> h.attempts[k] == l.attempts[k]
  {
  }

  /**
   Once a failure has been reported, the next attempt is admitted exactly when that failure is retryable,
   the reservation has not run out and has a request left.
   */
  lemma RetryAdmittedExactly(l: Ledger, a: nat, f: Failure, now: int)
    requires Proofs.Inv(l) && FailAttempt(l, a, f).Ok?
    ensures
      var h, i := FailAttempt(l, a, f).value, l.attempts[a].reservation;
      && i < |l.reservations|
      && (BeginAttempt(h, i, now).Ok? <==>
            && f.status == RetryableFailure && now < l.reservations[i].expiresAt
            && l.attempts[a].number < l.reservations[i].requests)
  {
    FailureIsRecorded(l, a, f);
    Proofs.StartedIsLast(l.attempts, a);
    assert Proofs.StatusesFit(Started, l.reservations[l.attempts[a].reservation].status);
    hide Proofs.Inv, FailAttempt;
    var h, i := FailAttempt(l, a, f).value, l.attempts[a].reservation;
    Proofs.LastIgnoresStatus(l.attempts, h.attempts, i);
  }

  /** A terminal or uncertain failure, once reported, refuses every further attempt in every later ledger. */
  lemma ReportedFailureIsFinal(l: Ledger, a: nat, f: Failure, h: Ledger, now: int)
    requires FailAttempt(l, a, f).Ok? && f.status != RetryableFailure
    requires Proofs.Inv(h) && MovesForward(FailAttempt(l, a, f).value, h)
    ensures a < |h.attempts| && h.attempts[a].status == f.status
    ensures BeginAttempt(h, l.attempts[a].reservation, now).Err?
  {
    FailureIsRecorded(l, a, f);
    hide FailAttempt;
    assert AttemptAdvances(FailAttempt(l, a, f).value.attempts[a], h.attempts[a]);
    NothingFollowsAFinalAttempt(h, a, now);
  }

  function SpendCount(spends: seq<Spend>, i: nat): nat {
    if spends == [] then 0
    else SpendCount(spends[..|spends| - 1], i) + (if spends[|spends| - 1].reservation == i then 1 else 0)
  }

  lemma {:induction false} DistinctSpendsCountOnce(spends: seq<Spend>, i: nat)
    requires Proofs.SpendsAreDistinct(spends)
    ensures SpendCount(spends, i) == if Proofs.HasSpend(spends, i) then 1 else 0
  {
    if spends != [] {
      var n := |spends| - 1;
      DistinctSpendsCountOnce(spends[..n], i);
      if Proofs.HasSpend(spends[..n], i) {
        var k :| 0 <= k < n && spends[..n][k].reservation == i;
        assert spends[k].reservation == i;
      } else {
        assert forall k :: 0 <= k < n ==> spends[k] == spends[..n][k];
      }
    }
  }

  /** Every settled reservation has exactly one spend row, and no other reservation has any. */
  lemma OneSpendPerSettlement(l: Ledger, i: nat)
    requires Proofs.Inv(l) && i < |l.reservations|
    ensures SpendCount(l.spends, i) == if l.reservations[i].status == Settled then 1 else 0
  {
    DistinctSpendsCountOnce(l.spends, i);
  }

  /** Settled plus outstanding stays within every configured limit of every revision. */
  lemma CeilingsHold(l: Ledger, b: nat)
    requires Proofs.Inv(l) && b < |l.budgets|
    ensures
      var budget := l.budgets[b];
      && (budget.currencyLimit.Some? ==> Spent(l, b, Currency) + Reserved(l, b, Currency) <= budget.currencyLimit.value)
      && (budget.tokenLimit.Some? ==> Spent(l, b, Tokens) + Reserved(l, b, Tokens) <= budget.tokenLimit.value)
      && (budget.requestLimit.Some? ==> Spent(l, b, Requests) + Reserved(l, b, Requests) <= budget.requestLimit.value)
      && Reserved(l, b, Slots) <= budget.maxConcurrent
  {
    assert Proofs.WithinCeiling(l, b, Currency) && Proofs.WithinCeiling(l, b, Tokens);
    assert Proofs.WithinCeiling(l, b, Requests) && Proofs.WithinCeiling(l, b, Slots);
    Proofs.SlotsSpendNothing(l, b);
  }

  // --- Prices ---

  /** The usage of a settlement by pricing category. */
  function UsageOf(s: Settlement): Pricing.Usage
    requires s.cachedInputTokens + s.cacheCreationInputTokens <= s.inputTokens
  {
    Pricing.Usage(
      s.inputTokens - s.cachedInputTokens - s.cacheCreationInputTokens, s.cachedInputTokens,
      s.cacheCreationInputTokens, s.outputTokens)
  }

  /**
   A settlement is charged the exact ceiling of its rational cost under the price revision in effect
   when it was observed, or nothing when its budget has no currency.
   */
  lemma SettlementIsPricedExactly(l: Ledger, s: Settlement, attempt: Option<nat>)
    requires Settle(l, s, attempt).Ok?
    ensures
      var r := l.reservations[s.reservation];
      && r.budget < |l.budgets| && s.currency == l.budgets[r.budget].currency
      && s.cachedInputTokens + s.cacheCreationInputTokens <= s.inputTokens
      && if s.currency.None? then s.cost == 0
         else
           var e := EffectivePrice(l.prices, r.provider, r.account, r.model, s.currency.value, s.observedAt);
           && e.Some? && s.evidence == e
           && Pricing.IsCeiling(s.cost, Pricing.RationalCost(l.prices[e.value].rates, UsageOf(s)))
  {
    if s.currency.Some? {
      var p := l.prices[s.evidence.value];
      Pricing.CostIsExactCeiling(
        p.rates, s.inputTokens, s.cachedInputTokens, s.cacheCreationInputTokens, s.outputTokens);
      Pricing.NumeratorIsRationalCost(
        p.rates, s.inputTokens, s.cachedInputTokens, s.cacheCreationInputTokens, s.outputTokens);
    }
  }

  // --- The admission preview ---

  /** The totals the preview reads through its time filter are those admission sees after its sweep. */
  lemma PreviewSeesSweptTotals(l: Ledger, b: nat, m: Measure, now: int)
    ensures
      var swept := ExpireReservations(l, now);
      ReservedAt(l, b, m, now) == Reserved(swept, b, m) && Spent(l, b, m) == Spent(swept, b, m)
  {
    var swept := ExpireReservations(l, now);
    forall i | 0 <= i < |l.reservations|
      ensures ReservedWeightsAt(l, b, m, now)[i] == ReservedWeights(swept, b, m)[i]
    {
      assert swept.reservations[i].budget == l.reservations[i].budget;
    }
    assert ReservedWeightsAt(l, b, m, now) == ReservedWeights(swept, b, m);
    assert SpendWeights(l, b, m) == SpendWeights(swept, b, m);
    assert AttemptWeights(l, b, m) == AttemptWeights(swept, b, m);
  }

  predicate BindingDenial(reason: ApiError) {
    reason in {Disabled, PeriodInactive, ConcurrencyLimit, CurrencyExhausted, TokensExhausted, RequestsExhausted}
  }

  /**
   A preview denial for a disabled budget, an inactive period, full concurrency or an exhausted
   limit means admission refuses every valid request of that identity, for any claim.
   */
  lemma PreviewDenialMeansRefusal(l: Ledger, r: Request, claim: Option<nat>)
    requires ValidRequest(r)
    requires
      var preview := RouteCapacity(l, r.project, r.provider, r.account, r.now);
      preview.Denied? && BindingDenial(preview.reason)
    ensures ReserveTx(l, r, claim).Err?
  {
    hide CheckPolicy, CheckTotals, CheckUnique, RouteCapacity;
    var latest := LatestBudget(l.budgets, r.project, r.provider, r.account);
    if latest.Some? && CheckPolicy(l.budgets[latest.value], r).Ok? {
      DenialFailsTheTotals(l, r, latest.value);
    }
  }

  lemma DenialFailsTheTotals(l: Ledger, r: Request, b: nat)
    requires ValidRequest(r) && LatestBudget(l.budgets, r.project, r.provider, r.account) == Some(b)
    requires CheckPolicy(l.budgets[b], r).Ok?
    requires
      var preview := RouteCapacity(l, r.project, r.provider, r.account, r.now);
      preview.Denied? && BindingDenial(preview.reason)
    ensures CheckTotals(ExpireReservations(l, r.now), b, r).Err?
  {
    hide CheckTotals;
    PreviewSeesSweptTotals(l, b, Currency, r.now);
    PreviewSeesSweptTotals(l, b, Tokens, r.now);
    PreviewSeesSweptTotals(l, b, Requests, r.now);
    PreviewSeesSweptTotals(l, b, Slots, r.now);
    PositiveProducts(r);
    DenialFailsTheChecks(ExpireReservations(l, r.now), l, b, r);
  }

  lemma PositiveProducts(r: Request)
    requires ValidRequest(r)
    ensures 1 <= r.attempts && 1 <= ForAttempts(r.inputTokens, r.attempts) + ForAttempts(r.outputTokens, r.attempts)
    ensures r.currency == 0 || 1 <= ForAttempts(r.currency, r.attempts)
  {
  }

  lemma DenialFailsTheChecks(swept: Ledger, l: Ledger, b: nat, r: Request)
    requires b < |l.budgets| && swept.budgets == l.budgets
    requires Reserved(swept, b, Slots) == ReservedAt(l, b, Slots, r.now)
    requires Committed(swept, b, Currency) == Spent(l, b, Currency) + ReservedAt(l, b, Currency, r.now)
    requires Committed(swept, b, Tokens) == Spent(l, b, Tokens) + ReservedAt(l, b, Tokens, r.now)
    requires Committed(swept, b, Requests) == Spent(l, b, Requests) + ReservedAt(l, b, Requests, r.now)
    requires 1 <= r.attempts && 1 <= ForAttempts(r.inputTokens, r.attempts) + ForAttempts(r.outputTokens, r.attempts)
    requires r.currency == 0 || 1 <= ForAttempts(r.currency, r.attempts)
    requires
      || ReservedAt(l, b, Slots, r.now) >= l.budgets[b].maxConcurrent
      || PreviewExhausted(l, b, l.budgets[b], r.now, Currency)
      || PreviewExhausted(l, b, l.budgets[b], r.now, Tokens)
      || PreviewExhausted(l, b, l.budgets[b], r.now, Requests)
    ensures CheckTotals(swept, b, r).Err?
  {
  }
}
