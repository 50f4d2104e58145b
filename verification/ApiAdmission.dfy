/**
 Admission in full: under which revision a request is admitted, exactly which requests are admitted and
 which accounts the preview allows, and what a disabled revision refuses.
 */
module ApiAdmission {
  import opened Prelude
  import opened ApiBudget
  import Proofs = ApiLedgerProofs
  import Theorems = ApiLedgerTheorems

  // --- The revision ---

  /**
   An admitted request adds one row, for the worst case of all its attempts, under an enabled revision of its
   identity that no later row supersedes; nothing else is added.
   */
  lemma AdmittedUnderTheLatestRevision(l: Ledger, r: Request, claim: Option<nat>)
    requires ReserveTx(l, r, claim).Ok?
    ensures
      var h, n := ReserveTx(l, r, claim).value, |l.reservations|;
      && h == l.(reservations := h.reservations) && |h.reservations| == n + 1
      && var row := h.reservations[n];
         && row.budget < |l.budgets| && l.budgets[row.budget].enabled
         && l.budgets[row.budget].project == r.project && l.budgets[row.budget].provider == r.provider
         && l.budgets[row.budget].account == r.account
         && (forall i :: row.budget < i < |l.budgets| ==>
               l.budgets[i].project != r.project || l.budgets[i].provider != r.provider
               || l.budgets[i].account != r.account)
    ensures RowForRequest(ReserveTx(l, r, claim).value.reservations[|l.reservations|], r, claim)
  {
    hide CheckTotals, CheckUnique;
  }

  /** The row reserves the worst case of every attempt, waits to be dispatched, and names its request and claim. */
  predicate RowForRequest(row: Reservation, r: Request, claim: Option<nat>) {
    && row.project == r.project && row.task == r.task && row.provider == r.provider && row.account == r.account
    && row.model == r.model && row.role == r.role && row.digest == r.digest
    && row.requests == r.attempts && row.perAttemptInput == r.inputTokens && row.perAttemptOutput == r.outputTokens
    && row.currency == r.currency * r.attempts
    && row.inputTokens == r.inputTokens * r.attempts && row.outputTokens == r.outputTokens * r.attempts
    && row.status == Active && row.expiresAt == r.expiresAt && row.claim == claim && row.run.None?
  }

  lemma LatestRevisionIsUnique(budgets: seq<Budget>, b: nat, project: string, provider: string, account: string)
    requires LatestRevision(budgets, b, project, provider, account)
    ensures LatestBudget(budgets, project, provider, account) == Some(b)
  {
  }

  // --- Exactly when ---

  /** What a request asks for under a measure, over all its attempts. */
  function Asked(r: Request, m: Measure): nat {
    match m
    case Currency => r.currency * r.attempts
    case Tokens => r.inputTokens * r.attempts + r.outputTokens * r.attempts
    case Requests => r.attempts
    case Slots => 1
  }

  /** What the policy of a revision says of a request. */
  predicate Permits(b: Budget, r: Request) {
    && b.enabled && b.periodStart <= r.now < b.periodEnd
    && r.taskProject == Some(r.project)
    && (exists i :: 0 <= i < |b.models| && b.models[i] == r.model)
    && (exists i :: 0 <= i < |b.roles| && b.roles[i] == r.role)
    && r.attempts - 1 <= b.maxRetries && r.outputTokens <= b.maxOutputTokens
    && (b.currencyLimit.Some? <==> r.currency > 0)
  }

  /** Under every limit of the revision there is room for the request beside what is spent and outstanding. */
  ghost predicate HasRoom(l: Ledger, b: nat, r: Request)
    requires b < |l.budgets|
  {
    forall m :: Limit(l.budgets[b], m).Some? ==>
      Spent(l, b, m) + ReservedAt(l, b, m, r.now) + Asked(r, m) <= Limit(l.budgets[b], m).value
  }

  /** No amount involved leaves the range of the 64-bit columns. */
  ghost predicate InRange(l: Ledger, b: nat, r: Request) {
    && Asked(r, Currency) <= I64_MAX && Asked(r, Tokens) <= I64_MAX
    && forall m :: m != Slots ==> Spent(l, b, m) <= I64_MAX && ReservedAt(l, b, m, r.now) <= I64_MAX
  }

  /** Neither the digest nor the claim has a reservation already. */
  ghost predicate IsNew(l: Ledger, r: Request, claim: Option<nat>) {
    forall i :: 0 <= i < |l.reservations| ==>
      && (l.reservations[i].project == r.project ==> l.reservations[i].digest != r.digest)
      && (claim.Some? ==> l.reservations[i].claim != claim)
  }

  /** A valid request is admitted exactly when the latest revision permits it, it has room, fits and is new. */
  lemma AdmittedExactly(l: Ledger, b: nat, r: Request, claim: Option<nat>)
    requires Proofs.Inv(l) && ValidRequest(r) && LatestRevision(l.budgets, b, r.project, r.provider, r.account)
    ensures ReserveTx(l, r, claim).Ok? <==>
              Permits(l.budgets[b], r) && HasRoom(l, b, r) && InRange(l, b, r) && IsNew(l, r, claim)
  {
    assert ValidBudget(l.budgets[b]);
    hide Proofs.Inv, CheckPolicy, CheckTotals, CheckUnique, HasRoom, InRange, IsNew, Permits, ExpireReservations,
      ValidBudget, ValidRequest;
    LatestRevisionIsUnique(l.budgets, b, r.project, r.provider, r.account);
    PolicyExactly(l.budgets[b], r);
    TotalsExactly(l, b, r);
    UniqueExactly(l, r, claim);
  }

  lemma PolicyExactly(b: Budget, r: Request)
    ensures Permits(b, r) <==> CheckPolicy(b, r).Ok? && (b.currencyLimit.Some? <==> r.currency > 0)
  {
  }

  lemma UniqueExactly(l: Ledger, r: Request, claim: Option<nat>)
    ensures CheckUnique(ExpireReservations(l, r.now), r, claim).Ok? <==> IsNew(l, r, claim)
  {
    var swept := ExpireReservations(l, r.now);
    assert forall i :: 0 <= i < |l.reservations| ==>
      swept.reservations[i].project == l.reservations[i].project && swept.reservations[i].digest == l.reservations[i].digest
      && swept.reservations[i].claim == l.reservations[i].claim;
  }

  lemma TotalsExactly(l: Ledger, b: nat, r: Request)
    requires b < |l.budgets| && ValidBudget(l.budgets[b]) && ValidRequest(r)
    ensures CheckTotals(ExpireReservations(l, r.now), b, r).Ok?
       <==> HasRoom(l, b, r) && InRange(l, b, r) && (l.budgets[b].currencyLimit.Some? <==> r.currency > 0)
  {
    var swept := ExpireReservations(l, r.now);
    forall m
      ensures ReservedAt(l, b, m, r.now) == Reserved(swept, b, m) && Spent(l, b, m) == Spent(swept, b, m)
    {
      Theorems.PreviewSeesSweptTotals(l, b, m, r.now);
    }
    Proofs.SlotsSpendNothing(l, b);
    SweptTotalsExactly(l, swept, b, r);
  }

  lemma AskedIsReserved(r: Request)
    requires r.attempts >= 1
    ensures Asked(r, Currency) == ForAttempts(r.currency, r.attempts)
    ensures Asked(r, Tokens) == ForAttempts(r.inputTokens, r.attempts) + ForAttempts(r.outputTokens, r.attempts)
    ensures Asked(r, Requests) == r.attempts && Asked(r, Slots) == 1
    ensures r.currency == 0 <==> Asked(r, Currency) == 0
  {
  }

  lemma SweptTotalsExactly(l: Ledger, swept: Ledger, b: nat, r: Request)
    requires b < |l.budgets| && ValidBudget(l.budgets[b]) && r.attempts >= 1 && swept.budgets == l.budgets
    requires forall m :: ReservedAt(l, b, m, r.now) == Reserved(swept, b, m) && Spent(l, b, m) == Spent(swept, b, m)
    requires Spent(l, b, Slots) == 0
    ensures CheckTotals(swept, b, r).Ok?
       <==> HasRoom(l, b, r) && InRange(l, b, r) && (l.budgets[b].currencyLimit.Some? <==> r.currency > 0)
  {
    hide Asked, ForAttempts, Spent, Reserved, ReservedAt, ValidNames, ValidName, NonBlank, ValidCurrency;
    AskedIsReserved(r);
  }

  // --- The preview ---

  /** Something is left under every limit of the revision. */
  ghost predicate HasSomethingLeft(l: Ledger, b: nat, now: int)
    requires b < |l.budgets|
  {
    forall m :: Limit(l.budgets[b], m).Some? ==>
      Spent(l, b, m) + ReservedAt(l, b, m, now) < Limit(l.budgets[b], m).value
  }

  /** No sum the preview reads leaves the range of a 64-bit column. */
  ghost predicate SumsInRange(l: Ledger, b: nat, now: int)
    requires b < |l.budgets|
  {
    forall m :: m != Slots ==>
      && Spent(l, b, m) <= I64_MAX && ReservedAt(l, b, m, now) <= I64_MAX
      && (Limit(l.budgets[b], m).Some? ==> Spent(l, b, m) + ReservedAt(l, b, m, now) <= I64_MAX)
  }

  /** A model of the revision has a price in effect, in its currency. */
  ghost predicate HasPricedModel(l: Ledger, b: Budget, now: int)
    requires b.currency.Some?
  {
    exists p, k :: 0 <= p < |l.prices| && 0 <= k < |b.models| && PricesModel(l.prices[p], b, b.models[k], now)
  }

  predicate PricesModel(p: Price, b: Budget, model: string, now: int)
    requires b.currency.Some?
  {
    && p.provider == b.provider && p.account == b.account && p.model == model && p.currency == b.currency.value
    && p.effectiveFrom <= now && (p.effectiveTo.Some? ==> now < p.effectiveTo.value)
  }

  /**
   The preview allows an account exactly when its latest revision is enabled, in its period, open to
   implementers and priced, and something is left under every limit of it.
   */
  lemma PreviewAllowsExactly(l: Ledger, b: nat, project: string, provider: string, account: string, now: int)
    requires LatestRevision(l.budgets, b, project, provider, account)
    ensures RouteCapacity(l, project, provider, account, now) == Allowed <==>
              var budget := l.budgets[b];
              && budget.enabled && budget.periodStart <= now < budget.periodEnd
              && (exists i :: 0 <= i < |budget.roles| && budget.roles[i] == "implementer")
              && HasSomethingLeft(l, b, now) && SumsInRange(l, b, now)
              && (budget.currency.Some? ==> HasPricedModel(l, budget, now))
  {
    hide Spent, ReservedAt, EffectivePrice, LatestBudget, HasPricedModel, HasSomethingLeft, SumsInRange,
      PreviewSumsFit, PreviewOverflows, PreviewExhausted;
    LatestRevisionIsUnique(l.budgets, b, project, provider, account);
    LeftExactly(l, b, now);
    if l.budgets[b].currency.Some? { PricedExactly(l, l.budgets[b], now); }
  }

  lemma LeftExactly(l: Ledger, b: nat, now: int)
    requires b < |l.budgets|
    ensures
      var budget := l.budgets[b];
      HasSomethingLeft(l, b, now) && SumsInRange(l, b, now) <==>
        && ReservedAt(l, b, Slots, now) < budget.maxConcurrent && PreviewSumsFit(l, b, now)
        && !PreviewOverflows(l, b, budget, now, Currency) && !PreviewExhausted(l, b, budget, now, Currency)
        && !PreviewOverflows(l, b, budget, now, Tokens) && !PreviewExhausted(l, b, budget, now, Tokens)
        && !PreviewOverflows(l, b, budget, now, Requests) && !PreviewExhausted(l, b, budget, now, Requests)
  {
    Proofs.SlotsSpendNothing(l, b);
    hide Spent, ReservedAt;
  }

  lemma PricedExactly(l: Ledger, b: Budget, now: int)
    requires b.currency.Some?
    ensures HasPricedModel(l, b, now) <==>
              exists model :: model in b.models
                && EffectivePrice(l.prices, b.provider, b.account, model, b.currency.value, now).Some?
  {
    hide EffectivePrice;
    if p, k :| 0 <= p < |l.prices| && 0 <= k < |b.models| && PricesModel(l.prices[p], b, b.models[k], now) {
      assert EffectiveAt(l.prices[p], b.provider, b.account, b.models[k], b.currency.value, now);
      assert b.models[k] in b.models;
    }
    if model :| model in b.models && EffectivePrice(l.prices, b.provider, b.account, model, b.currency.value, now).Some? {
      var p := EffectivePrice(l.prices, b.provider, b.account, model, b.currency.value, now).value;
      var k :| 0 <= k < |b.models| && b.models[k] == model;
      assert PricesModel(l.prices[p], b, b.models[k], now);
    }
  }
}
