/**
 When each ledger transaction on an existing reservation succeeds, which rows it writes, and what it moves
 between the totals of every revision.
 */
module ApiTransactions {
  import opened Prelude
  import opened ApiBudget
  import opened ApiAdmission
  import Proofs = ApiLedgerProofs
  import Theorems = ApiLedgerTheorems
  import Pricing

  // --- Admission ---

  /** Admission adds what the request asks for, over all its attempts, to what is reserved under its revision. */
  lemma AdmissionAdds(l: Ledger, r: Request, claim: Option<nat>, b: nat, m: Measure)
    requires Proofs.Inv(l) && r.attempts >= 1 && ReserveTx(l, r, claim).Ok?
    ensures
      var h, n := ReserveTx(l, r, claim).value, |l.reservations|;
      && n < |h.reservations| && Spent(h, b, m) == Spent(l, b, m)
      && Reserved(h, b, m) == ReservedAt(l, b, m, r.now) + (if h.reservations[n].budget == b then Asked(r, m) else 0)
  {
    var swept, h, n := ExpireReservations(l, r.now), ReserveTx(l, r, claim).value, |l.reservations|;
    Proofs.AdmissionShape(l, r, claim);
    hide Proofs.Inv, ReserveTx, CheckTotals;
    Theorems.PreviewSeesSweptTotals(l, b, m, r.now);
    assert Proofs.References(swept) by { SweptReferences(l, r.now); }
    hide ExpireReservations;
    Proofs.AdmitStepReserved(swept, h, h.reservations[n], b, m);
    Proofs.AdmitStepSpent(swept, h, h.reservations[n], b, m);
    hide Spent, Reserved, ReservedAt;
  }

  lemma SweptReferences(l: Ledger, now: int)
    requires Proofs.Inv(l)
    ensures Proofs.References(ExpireReservations(l, now))
  {
  }

  // --- Dispatch ---

  /**
   A reservation is dispatched exactly while it is active and unexpired and, if a claim made it, the claim
   has become a run; only its status changes, and no total.
   */
  lemma DispatchedExactly(l: Ledger, i: nat, now: int)
    ensures ClaimDispatch(l, i, now).Ok? <==>
              && i < |l.reservations| && l.reservations[i].status == Active && now < l.reservations[i].expiresAt
              && (l.reservations[i].claim.Some? ==> l.reservations[i].run.Some?)
    ensures ClaimDispatch(l, i, now).Ok? ==>
              var h := ClaimDispatch(l, i, now).value;
              && h == l.(reservations := l.reservations[i := l.reservations[i].(status := Dispatched)])
              && forall b, m :: Reserved(h, b, m) == Reserved(l, b, m) && Spent(h, b, m) == Spent(l, b, m)
  {
    if ClaimDispatch(l, i, now).Ok? {
      var h := ClaimDispatch(l, i, now).value;
      forall b, m
        ensures Reserved(h, b, m) == Reserved(l, b, m) && Spent(h, b, m) == Spent(l, b, m)
      {
        Proofs.DispatchTotals(l, h, i, b, m);
      }
    }
  }

  predicate FailedRetryably(attempts: seq<Attempt>, i: nat) {
    forall k :: 0 <= k < |attempts| && attempts[k].reservation == i ==> attempts[k].status == RetryableFailure
  }

  lemma LastDecides(attempts: seq<Attempt>, i: nat)
    requires Proofs.Numbered(attempts) && Proofs.NoReplay(attempts)
    ensures
      var last := LastAttempt(attempts, i);
      && (FailedRetryably(attempts, i) <==> last.None? || attempts[last.value].status == RetryableFailure)
      && AttemptCount(attempts, i) == if last.None? then 0 else attempts[last.value].number
  {
    Proofs.LastAttemptIsLast(attempts, i);
    hide Proofs.Numbered, LastAttempt, AttemptCount;
    var last := LastAttempt(attempts, i);
    if last.Some? && attempts[last.value].status == RetryableFailure {
      forall k | 0 <= k < |attempts| && attempts[k].reservation == i
        ensures attempts[k].status == RetryableFailure
      {
        assert k == last.value || k < last.value;
      }
    }
  }

  /**
   An attempt begins exactly while its reservation is unexpired and active or dispatched, bound to a run if a
   claim made it, with every earlier attempt failed retryably and a request left; the new attempt is numbered next.
   */
  lemma AttemptBeginsExactly(l: Ledger, i: nat, now: int)
    requires Proofs.Inv(l)
    ensures BeginAttempt(l, i, now).Ok? <==>
              && i < |l.reservations| && now < l.reservations[i].expiresAt
              && (l.reservations[i].status == Active || l.reservations[i].status == Dispatched)
              && (l.reservations[i].claim.Some? ==> l.reservations[i].run.Some?)
              && FailedRetryably(l.attempts, i) && AttemptCount(l.attempts, i) < l.reservations[i].requests
    ensures BeginAttempt(l, i, now).Ok? ==>
              BeginAttempt(l, i, now).value
              == l.(reservations := l.reservations[i := l.reservations[i].(status := Dispatched)],
                    attempts := l.attempts + [Attempt(i, AttemptCount(l.attempts, i) + 1, Started)])
  {
    assert Proofs.Numbered(l.attempts) && Proofs.NoReplay(l.attempts) && Proofs.RunBeforeDispatch(l.reservations);
    hide Proofs.Inv, Proofs.Numbered, Proofs.NoReplay, Proofs.RunBeforeDispatch, FailedRetryably, AttemptCount;
    if i < |l.reservations| {
      AttemptFromHistory(l, i, now);
      if l.reservations[i].status == Dispatched && l.reservations[i].claim.Some? { DispatchedHasItsRun(l.reservations, i); }
      hide BeginAttempt;
    }
  }

  lemma AttemptFromHistory(l: Ledger, i: nat, now: int)
    requires Proofs.Numbered(l.attempts) && Proofs.NoReplay(l.attempts) && i < |l.reservations|
    ensures
      var r, count := l.reservations[i], AttemptCount(l.attempts, i);
      && (BeginAttempt(l, i, now).Ok? <==>
            && now < r.expiresAt && Outstanding(r) && (r.status == Active && r.claim.Some? ==> r.run.Some?)
            && FailedRetryably(l.attempts, i) && count < r.requests)
      && (BeginAttempt(l, i, now).Ok? ==>
            BeginAttempt(l, i, now).value
            == l.(reservations := l.reservations[i := r.(status := Dispatched)],
                  attempts := l.attempts + [Attempt(i, count + 1, Started)]))
  {
    hide BeginAttempt, Proofs.Numbered, Proofs.NoReplay, FailedRetryably, AttemptCount, LastAttempt;
    LastDecides(l.attempts, i);
    AttemptFrom(l, i, now, LastAttempt(l.attempts, i));
  }

  lemma AttemptFrom(l: Ledger, i: nat, now: int, last: Option<nat>)
    requires i < |l.reservations| && LastAttempt(l.attempts, i) == last
    ensures
      var r, count := l.reservations[i], if last.None? then 0 else l.attempts[last.value].number;
      && (BeginAttempt(l, i, now).Ok? <==>
            && now < r.expiresAt && Outstanding(r) && (r.status == Active && r.claim.Some? ==> r.run.Some?)
            && (last.None? || l.attempts[last.value].status == RetryableFailure) && count < r.requests)
      && (BeginAttempt(l, i, now).Ok? ==>
            BeginAttempt(l, i, now).value
            == l.(reservations := l.reservations[i := r.(status := Dispatched)],
                  attempts := l.attempts + [Attempt(i, count + 1, Started)]))
  {
    hide LastAttempt;
  }

  lemma DispatchedHasItsRun(rows: seq<Reservation>, i: nat)
    requires Proofs.RunBeforeDispatch(rows) && i < |rows| && rows[i].status == Dispatched && rows[i].claim.Some?
    ensures rows[i].run.Some?
  {
  }

  // --- Settlement ---

  /** The settlement cites the price in effect for what it settles and charges its exact ceiling, or it has no currency. */
  ghost predicate PricedRight(l: Ledger, r: Reservation, s: Settlement)
    requires s.cachedInputTokens + s.cacheCreationInputTokens <= s.inputTokens
  {
    if s.currency.None? then s.evidence.None? && s.cost == 0
    else
      var e := EffectivePrice(l.prices, r.provider, r.account, r.model, s.currency.value, s.observedAt);
      && e.Some? && s.evidence == e
      && Pricing.IsCeiling(s.cost, Pricing.RationalCost(l.prices[e.value].rates, Theorems.UsageOf(s)))
  }

  /** The attempt bound is a started one of the reservation, or there is none to bind. */
  predicate BindsAttempt(l: Ledger, i: nat, attempt: Option<nat>) {
    match attempt
    case Some(a) => a < |l.attempts| && l.attempts[a].reservation == i && l.attempts[a].status == Started
    case None => forall k :: 0 <= k < |l.attempts| ==> l.attempts[k].reservation != i
  }

  lemma ChargeExactly(rates: Pricing.Rates, s: Settlement)
    requires s.cachedInputTokens + s.cacheCreationInputTokens <= s.inputTokens
    ensures
      var charge := Pricing.CalculateApiCostMicros(
        rates, s.inputTokens, s.cachedInputTokens, s.cacheCreationInputTokens, s.outputTokens);
      charge == Ok(s.cost) <==> Pricing.IsCeiling(s.cost, Pricing.RationalCost(rates, Theorems.UsageOf(s)))
  {
    hide Pricing.CalculateApiCostMicros, Pricing.RationalCost;
    Pricing.CostIsExactCeiling(rates, s.inputTokens, s.cachedInputTokens, s.cacheCreationInputTokens, s.outputTokens);
    var rational := Pricing.RationalCost(rates, Theorems.UsageOf(s));
    if Pricing.IsCeiling(s.cost, rational) { CeilingsAgree(s.cost, rational); }
  }

  lemma CeilingsAgree(cost: U64, rational: nat)
    requires Pricing.IsCeiling(cost, rational)
    ensures Pricing.FitsU64(rational)
    ensures forall other: int :: Pricing.IsCeiling(other, rational) ==> other == cost
  {
  }

  lemma EvidenceExactly(l: Ledger, r: Reservation, s: Settlement)
    requires s.cachedInputTokens + s.cacheCreationInputTokens <= s.inputTokens
    ensures CheckEvidence(l, r, s).Ok? <==> PricedRight(l, r, s)
  {
    hide EffectivePrice, Pricing.CalculateApiCostMicros, Pricing.RationalCost, Pricing.IsCeiling;
    if s.currency.Some? && s.evidence.Some? && s.evidence.value < |l.prices| {
      ChargeExactly(l.prices[s.evidence.value].rates, s);
    }
  }

  /**
   A settlement is accepted exactly for a dispatched reservation whose started attempt it binds, if it has any, with
   usage within one attempt's maximum, under the budget's currency, rightly priced, and under a new request hash.
   */
  lemma SettlementAcceptedExactly(l: Ledger, s: Settlement, attempt: Option<nat>)
    requires Proofs.References(l)
    ensures Settle(l, s, attempt).Ok? <==>
              && IsSha256Hex(s.requestHash)
              && (s.source == "provider_reported" || s.source == "collector_measured" || s.source == "estimated")
              && s.reservation < |l.reservations|
              && var r := l.reservations[s.reservation];
                 && r.status == Dispatched && BindsAttempt(l, s.reservation, attempt)
                 && s.inputTokens <= r.perAttemptInput && s.outputTokens <= r.perAttemptOutput && s.cost <= r.currency
                 && s.cachedInputTokens + s.cacheCreationInputTokens <= s.inputTokens
                 && s.currency == l.budgets[r.budget].currency && PricedRight(l, r, s)
                 && forall k :: 0 <= k < |l.spends| ==> l.spends[k].requestHash != s.requestHash
  {
    if s.reservation < |l.reservations| && s.cachedInputTokens + s.cacheCreationInputTokens <= s.inputTokens {
      EvidenceExactly(l, l.reservations[s.reservation], s);
    }
    hide CheckEvidence, PricedRight, IsSha256Hex;
  }

  /** A settlement writes the spend it reports, ends the attempt it binds, settles its reservation, and nothing else. */
  lemma SettlementIsRecorded(l: Ledger, s: Settlement, attempt: Option<nat>)
    requires Settle(l, s, attempt).Ok?
    ensures
      var h, r := Settle(l, s, attempt).value, l.reservations[s.reservation];
      && r.status == Dispatched
      && h.reservations == l.reservations[s.reservation := r.(status := Settled)]
      && h.spends == l.spends
                     + [Spend(r.budget, s.reservation, s.requestHash, s.inputTokens, s.outputTokens, s.cost, s.evidence)]
      && h.budgets == l.budgets && h.prices == l.prices && |h.attempts| == |l.attempts|
      && (forall k :: 0 <= k < |l.attempts| ==>
            h.attempts[k] == if attempt == Some(k) then l.attempts[k].(status := Succeeded) else l.attempts[k])
      && s.inputTokens <= r.perAttemptInput && s.outputTokens <= r.perAttemptOutput && s.cost <= r.currency
      && (forall k :: 0 <= k < |l.spends| ==> l.spends[k].requestHash != s.requestHash)
      && (if attempt.Some?
          then attempt.value < |l.attempts| && l.attempts[attempt.value].reservation == s.reservation
               && l.attempts[attempt.value].status == Started
          else forall k :: 0 <= k < |l.attempts| ==> l.attempts[k].reservation != s.reservation)
  {
    hide CheckEvidence;
  }

  /** What one settlement spends under a measure: an attempt already counts as a request. */
  function Used(s: Settlement, attempt: Option<nat>, m: Measure): nat {
    match m
    case Currency => s.cost
    case Tokens => s.inputTokens + s.outputTokens
    case Requests => if attempt.None? then 1 else 0
    case Slots => 0
  }

  /** What a reservation holds under a measure, beside its attempts. */
  function Holding(l: Ledger, i: nat, m: Measure): int
    requires i < |l.reservations|
  {
    match m
    case Currency => l.reservations[i].currency
    case Tokens => l.reservations[i].inputTokens + l.reservations[i].outputTokens
    case Requests => l.reservations[i].requests - AttemptCount(l.attempts, i)
    case Slots => 1
  }

  /** Settling takes exactly what the reservation held and spends exactly what was used, under its own revision. */
  lemma SettlementMoves(l: Ledger, s: Settlement, attempt: Option<nat>, b: nat, m: Measure)
    requires Proofs.Inv(l) && Settle(l, s, attempt).Ok?
    ensures
      var h, mine := Settle(l, s, attempt).value, l.reservations[s.reservation].budget == b;
      && Reserved(h, b, m) == Reserved(l, b, m) - (if mine then Holding(l, s.reservation, m) else 0)
      && Spent(h, b, m) == Spent(l, b, m) + (if mine then Used(s, attempt, m) else 0)
  {
    var h, spend := Settle(l, s, attempt).value, Proofs.SpendOf(l, s);
    Proofs.SettleShape(l, s, attempt);
    hide Settle;
    Proofs.SettleOnlyShrinks(l, h, s.reservation, attempt, spend, b, m);
    SettlementSpends(l, h, s, attempt, spend, b, m);
    hide Proofs.Inv, Spent, Reserved, Proofs.SettleAfterAttempt;
  }

  lemma SettlementSpends(l: Ledger, h: Ledger, s: Settlement, attempt: Option<nat>, spend: Spend, b: nat, m: Measure)
    requires s.reservation < |l.reservations| && spend == Proofs.SpendOf(l, s)
    requires Proofs.SettleAfterAttempt(l, h, s.reservation, attempt, spend)
    ensures Spent(h, b, m) == Spent(l, b, m) + (if l.reservations[s.reservation].budget == b then Used(s, attempt, m) else 0)
  {
    var g := Proofs.BeforeSettling(l, attempt);
    Proofs.BeforeSettlingTotals(l, attempt, b, m);
    Proofs.SettleStepSpent(g, h, s.reservation, spend, b, m);
    Proofs.CountPositive(l.attempts, s.reservation);
    if attempt.Some? { Proofs.OutcomeKeepsCounts(l.attempts, attempt.value, Succeeded); }
    hide Spent, Reserved, AttemptCount;
  }

  // --- Release ---

  /** An active reservation no claim made is released with a reason, frees exactly what it held, and nothing else changes. */
  lemma ReleaseFrees(l: Ledger, i: nat, reason: string, b: nat, m: Measure)
    ensures Release(l, i, reason).Ok? <==>
              && NonBlank(reason) && |reason| <= 1000
              && i < |l.reservations| && l.reservations[i].status == Active && l.reservations[i].claim.None?
    ensures Release(l, i, reason).Ok? ==>
              var h := Release(l, i, reason).value;
              && h == l.(reservations := l.reservations[i := l.reservations[i].(status := Released)])
              && Spent(h, b, m) == Spent(l, b, m)
              && Reserved(h, b, m) == Reserved(l, b, m) - (if l.reservations[i].budget == b then Holding(l, i, m) else 0)
  {
    if Release(l, i, reason).Ok? {
      var h, ws := Release(l, i, reason).value, ReservedWeights(l, b, m);
      assert ReservedWeights(h, b, m) == ws[i := 0];
      SumUpdate(ws, i, 0);
      assert SpendWeights(h, b, m) == SpendWeights(l, b, m);
      assert AttemptWeights(h, b, m) == AttemptWeights(l, b, m);
    }
  }
}
