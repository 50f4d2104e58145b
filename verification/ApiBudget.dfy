/**
 The paid-API ledger: budget revisions, reservations, dispatch attempts, spend and price evidence.
 Rows are numbered by insertion; a transaction either yields the next ledger or an error and no change.
 */
module ApiBudget {
  import opened Prelude
  import Pricing

  datatype Budget = Budget(
    project: string, provider: string, account: string, enabled: bool,
    currency: Option<string>, currencyLimit: Option<nat>, tokenLimit: Option<nat>, requestLimit: Option<nat>,
    periodStart: int, periodEnd: int,
    models: seq<string>, tools: seq<string>, roles: seq<string>,
    maxOutputTokens: nat, maxRetries: nat, maxConcurrent: nat, reason: string)

  datatype ReservationStatus = Active | Dispatched | Settled | Released | Expired

  datatype Reservation = Reservation(
    budget: nat, project: string, task: nat, provider: string, account: string, model: string, role: string,
    digest: string,
    currency: nat, inputTokens: nat, outputTokens: nat, requests: nat,
    perAttemptInput: nat, perAttemptOutput: nat,
    status: ReservationStatus, expiresAt: int,
    claim: Option<nat>, run: Option<nat>)

  datatype AttemptStatus = Started | RetryableFailure | TerminalFailure | Succeeded | Uncertain

  datatype Attempt = Attempt(reservation: nat, number: nat, status: AttemptStatus)

  datatype Spend = Spend(
    budget: nat, reservation: nat, requestHash: string,
    inputTokens: nat, outputTokens: nat, cost: nat, evidence: Option<nat>)

  datatype Price = Price(
    provider: string, account: string, model: string, currency: string, rates: Pricing.Rates,
    effectiveFrom: int, effectiveTo: Option<int>, source: string, reason: string)

  datatype Ledger = Ledger(
    budgets: seq<Budget>, reservations: seq<Reservation>, attempts: seq<Attempt>, spends: seq<Spend>,
    prices: seq<Price>)

  const EmptyLedger := Ledger([], [], [], [], [])

  datatype ApiError =
    | InvalidBudget | InvalidPrice | InvalidRequest
    | Disabled | PeriodInactive | TaskNotFound | TaskProjectMismatch | ModelDenied | RoleDenied | RetryLimit | OutputLimit
    | ConcurrencyLimit | TotalOverflow | AccountingOverflow
    | CurrencyReservationRequired | CurrencyUnconfigured
    | CurrencyExhausted | TokensExhausted | RequestsExhausted
    | DuplicateDigest | ClaimAlreadyReserved
    | ReservationNotFound | DispatchClaimFailed | ReservationInactive | ClaimNotConsumed | NotDispatchable
    | RetryDenied | RetryExhausted
    | InvalidHash | InvalidSource | InvalidReason
    | AttemptStatusInvalid | AttemptRetryInvalid | AttemptFailureInvalid | AttemptReplay | AttemptBindingRequired
    | SettlementReplay | SettlementExceedsReservation | UsageInconsistent | CurrencyMismatch
    | EvidenceMissing | EvidenceUnexpected | EvidenceMismatch | EvidenceInactive | EvidenceSuperseded
    | CostMismatch | CurrencyMissing | CostFailure | DuplicateRequestHash
    | ReleaseDenied

  // --- Validation ---

  const DAY_SECONDS := 24 * 60 * 60
  const LONGEST_PERIOD := 366 * DAY_SECONDS

  predicate LimitInRange(limit: Option<nat>) {
    limit.Some? ==> 0 < limit.value <= I64_MAX
  }

  const PROVIDERS := {"openai", "anthropic"}
  const ROLES := {"planner", "implementer", "verifier", "reviewer"}

  predicate ValidName(s: string) {
    1 <= |s| <= 200 && forall i :: 0 <= i < |s| ==> !IsWhitespace(s[i])
  }

  predicate ValidNames(names: seq<string>) {
    && (forall i :: 0 <= i < |names| ==> ValidName(names[i]))
    && (forall i, j :: 0 <= i < j < |names| ==> names[i] != names[j])
  }

  /** Three upper-case ASCII letters. */
  predicate ValidCurrency(code: string) {
    |code| == 3 && forall i :: 0 <= i < |code| ==> 'A' <= code[i] <= 'Z'
  }

  predicate ValidBudget(b: Budget) {
    && b.provider in PROVIDERS && ValidName(b.account)
    && (b.currency.Some? ==> ValidCurrency(b.currency.value))
    && b.currencyLimit.Some? == b.currency.Some?
    && (b.currencyLimit.Some? || b.tokenLimit.Some? || b.requestLimit.Some?)
    && LimitInRange(b.currencyLimit) && LimitInRange(b.tokenLimit) && LimitInRange(b.requestLimit)
    && b.periodStart < b.periodEnd <= b.periodStart + LONGEST_PERIOD
    && b.models != [] && ValidNames(b.models) && ValidNames(b.tools)
    && b.roles != [] && ValidNames(b.roles) && (forall i :: 0 <= i < |b.roles| ==> b.roles[i] in ROLES)
    && 0 < b.maxOutputTokens <= 10_000_000
    && b.maxRetries <= 10
    && 1 <= b.maxConcurrent <= 64
    && NonBlank(b.reason) && |b.reason| <= 1000
  }

  predicate ValidPrice(p: Price) {
    && p.provider in PROVIDERS && ValidName(p.account) && ValidName(p.model) && ValidCurrency(p.currency)
    && Pricing.ValidRates(p.rates)
    && (p.effectiveTo.Some? ==> p.effectiveFrom < p.effectiveTo.value <= p.effectiveFrom + LONGEST_PERIOD)
    && NonBlank(p.source) && |p.source| <= 500 && NonBlank(p.reason) && |p.reason| <= 1000
  }

  /** A request, with the project its task row belongs to when there is such a row. */
  datatype Request = Request(
    project: string, task: nat, taskProject: Option<string>, provider: string, account: string, model: string,
    role: string, digest: string,
    currency: U64, inputTokens: U64, outputTokens: U64, attempts: nat,
    now: int, expiresAt: int)

  predicate ValidRequest(r: Request) {
    && r.provider in PROVIDERS && ValidName(r.model) && r.role in ROLES && IsSha256Hex(r.digest)
    && 0 < r.outputTokens
    && 1 <= r.attempts <= 11
    && r.currency <= I64_MAX && r.inputTokens <= I64_MAX && r.outputTokens <= I64_MAX
    && r.now < r.expiresAt <= r.now + DAY_SECONDS
  }

  // --- Totals ---

  datatype Measure = Currency | Tokens | Requests | Slots

  function Limit(b: Budget, m: Measure): Option<nat> {
    match m
    case Currency => b.currencyLimit
    case Tokens => b.tokenLimit
    case Requests => b.requestLimit
    case Slots => Some(b.maxConcurrent)
  }

  predicate Outstanding(r: Reservation) {
    r.status == Active || r.status == Dispatched
  }

  /** The reservations an observer at a given time counts before any sweep has run. */
  predicate OutstandingAt(r: Reservation, now: int) {
    (r.status == Active && r.expiresAt > now) || r.status == Dispatched
  }

  /** How many attempts a reservation has. */
  function AttemptCount(attempts: seq<Attempt>, r: nat): nat {
    if attempts == [] then 0
    else AttemptCount(attempts[..|attempts| - 1], r) + (if attempts[|attempts| - 1].reservation == r then 1 else 0)
  }

  /** What reservation i sets aside under a measure; started attempts are counted as spent instead. */
  function Held(l: Ledger, i: nat, m: Measure): int
    requires i < |l.reservations|
  {
    var r := l.reservations[i];
    match m
    case Currency => r.currency
    case Tokens => r.inputTokens + r.outputTokens
    case Requests => r.requests - AttemptCount(l.attempts, i)
    case Slots => 1
  }

  function ReservedWeights(l: Ledger, b: nat, m: Measure): (ws: seq<int>)
    ensures |ws| == |l.reservations|
    ensures forall i :: 0 <= i < |ws| ==>
              ws[i] == if l.reservations[i].budget == b && Outstanding(l.reservations[i]) then Held(l, i, m) else 0
  {
    seq(|l.reservations|, i requires 0 <= i < |l.reservations| =>
      if l.reservations[i].budget == b && Outstanding(l.reservations[i]) then Held(l, i, m) else 0)
  }

  function ReservedWeightsAt(l: Ledger, b: nat, m: Measure, now: int): (ws: seq<int>)
    ensures |ws| == |l.reservations|
    ensures forall i :: 0 <= i < |ws| ==>
              ws[i] == if l.reservations[i].budget == b && OutstandingAt(l.reservations[i], now) then Held(l, i, m) else 0
  {
    seq(|l.reservations|, i requires 0 <= i < |l.reservations| =>
      if l.reservations[i].budget == b && OutstandingAt(l.reservations[i], now) then Held(l, i, m) else 0)
  }

  /** A spend row counts as a request of its own only when its reservation has no attempt rows. */
  function SpendWeight(l: Ledger, s: Spend, b: nat, m: Measure): int {
    if s.budget != b then 0
    else
      match m
      case Currency => s.cost
      case Tokens => s.inputTokens + s.outputTokens
      case Requests => if AttemptCount(l.attempts, s.reservation) == 0 then 1 else 0
      case Slots => 0
  }

  function SpendWeights(l: Ledger, b: nat, m: Measure): (ws: seq<int>)
    ensures |ws| == |l.spends|
    ensures forall i :: 0 <= i < |ws| ==> ws[i] == SpendWeight(l, l.spends[i], b, m)
  {
    seq(|l.spends|, i requires 0 <= i < |l.spends| => SpendWeight(l, l.spends[i], b, m))
  }

  /** Every attempt row of the revision counts as one spent request, whatever became of it. */
  function AttemptWeights(l: Ledger, b: nat, m: Measure): (ws: seq<int>)
    ensures |ws| == |l.attempts|
    ensures forall i :: 0 <= i < |ws| ==>
              ws[i] == if m == Requests && l.attempts[i].reservation < |l.reservations|
                          && l.reservations[l.attempts[i].reservation].budget == b then 1 else 0
  {
    seq(|l.attempts|, i requires 0 <= i < |l.attempts| =>
      if m == Requests && l.attempts[i].reservation < |l.reservations|
         && l.reservations[l.attempts[i].reservation].budget == b then 1 else 0)
  }

  function Reserved(l: Ledger, b: nat, m: Measure): int {
    Sum(ReservedWeights(l, b, m))
  }

  function ReservedAt(l: Ledger, b: nat, m: Measure, now: int): int {
    Sum(ReservedWeightsAt(l, b, m, now))
  }

  function Spent(l: Ledger, b: nat, m: Measure): int {
    Sum(SpendWeights(l, b, m)) + Sum(AttemptWeights(l, b, m))
  }

  /** Everything a revision has committed under a measure: settled plus outstanding. */
  function Committed(l: Ledger, b: nat, m: Measure): int {
    Spent(l, b, m) + Reserved(l, b, m)
  }

  // --- Lookups ---

  predicate HasIdentity(b: Budget, project: string, provider: string, account: string) {
    b.project == project && b.provider == provider && b.account == account
  }

  /** Row b is a revision of the identity, and no row above it is. */
  predicate LatestRevision(budgets: seq<Budget>, b: nat, project: string, provider: string, account: string) {
    && b < |budgets| && HasIdentity(budgets[b], project, provider, account)
    && forall i :: b < i < |budgets| ==> !HasIdentity(budgets[i], project, provider, account)
  }

  /** The latest revision for an identity, if there is any: revisions are numbered in creation order. */
  function LatestBudget(budgets: seq<Budget>, project: string, provider: string, account: string): (r: Option<nat>)
    ensures r.Some? ==> LatestRevision(budgets, r.value, project, provider, account)
    ensures r.None? <==> forall i :: 0 <= i < |budgets| ==> !HasIdentity(budgets[i], project, provider, account)
  {
    if budgets == [] then None
    else if HasIdentity(budgets[|budgets| - 1], project, provider, account) then Some(|budgets| - 1)
    else LatestBudget(budgets[..|budgets| - 1], project, provider, account)
  }

  /** The attempt of a reservation with the highest number. */
  function LastAttempt(attempts: seq<Attempt>, r: nat): (a: Option<nat>)
    ensures a.Some? ==> a.value < |attempts| && attempts[a.value].reservation == r
    ensures a.None? ==> forall i :: 0 <= i < |attempts| ==> attempts[i].reservation != r
    ensures a.Some? ==>
              forall i :: 0 <= i < |attempts| && attempts[i].reservation == r ==> attempts[i].number <= attempts[a.value].number
  {
    if attempts == [] then None
    else
      var before, k := LastAttempt(attempts[..|attempts| - 1], r), |attempts| - 1;
      if attempts[k].reservation == r && (before.None? || attempts[before.value].number < attempts[k].number)
      then Some(k) else before
  }

  predicate EffectiveAt(p: Price, provider: string, account: string, model: string, currency: string, at: int) {
    && p.provider == provider && p.account == account && p.model == model && p.currency == currency
    && p.effectiveFrom <= at && (p.effectiveTo.None? || at < p.effectiveTo.value)
  }

  /** The effective price: the latest start of validity, the latest row among those. */
  function EffectivePrice(prices: seq<Price>, provider: string, account: string, model: string, currency: string, at: int)
    : (r: Option<nat>)
    ensures r.Some? ==> r.value < |prices| && EffectiveAt(prices[r.value], provider, account, model, currency, at)
    ensures forall i :: 0 <= i < |prices| && EffectiveAt(prices[i], provider, account, model, currency, at) ==>
              r.Some? && (prices[i].effectiveFrom < prices[r.value].effectiveFrom
                          || (prices[i].effectiveFrom == prices[r.value].effectiveFrom && i <= r.value))
  {
    if prices == [] then None
    else
      var before := EffectivePrice(prices[..|prices| - 1], provider, account, model, currency, at);
      var k := |prices| - 1;
      if EffectiveAt(prices[k], provider, account, model, currency, at)
         && (before.None? || prices[before.value].effectiveFrom <= prices[k].effectiveFrom)
      then Some(k) else before
  }

  // --- Transactions ---

  function ConfigureBudget(l: Ledger, b: Budget): Result<Ledger, ApiError> {
    if !ValidBudget(b) then Err(InvalidBudget) else Ok(l.(budgets := l.budgets + [b]))
  }

  function ConfigurePrice(l: Ledger, p: Price): Result<Ledger, ApiError> {
    if !ValidPrice(p) then Err(InvalidPrice) else Ok(l.(prices := l.prices + [p]))
  }

  /** Reservations in bulk: every row that satisfies a test gets a new status. */
  function MarkReservations(l: Ledger, test: Reservation -> bool, status: ReservationStatus): (h: Ledger)
    ensures |h.reservations| == |l.reservations| && h == l.(reservations := h.reservations)
    ensures forall i :: 0 <= i < |l.reservations| ==>
              h.reservations[i] == if test(l.reservations[i]) then l.reservations[i].(status := status) else l.reservations[i]
  {
    l.(reservations := seq(|l.reservations|, i requires 0 <= i < |l.reservations| =>
      if test(l.reservations[i]) then l.reservations[i].(status := status) else l.reservations[i]))
  }

  predicate Overdue(r: Reservation, now: int) {
    r.status == Active && r.expiresAt <= now
  }

  function ExpireReservations(l: Ledger, now: int): Ledger {
    MarkReservations(l, (r: Reservation) => Overdue(r, now), Expired)
  }

  predicate FitsLimit(l: Ledger, b: nat, m: Measure, limit: Option<nat>, requested: nat) {
    limit.Some? ==> Committed(l, b, m) + requested <= limit.value
  }

  /** SQL sums and checked additions fail rather than wrap. */
  predicate SumsFit(l: Ledger, b: nat) {
    && Spent(l, b, Currency) <= I64_MAX && Spent(l, b, Tokens) <= I64_MAX && Spent(l, b, Requests) <= I64_MAX
    && Reserved(l, b, Currency) <= I64_MAX && Reserved(l, b, Tokens) <= I64_MAX && Reserved(l, b, Requests) <= I64_MAX
  }

  /** The worst case of one amount over every allowed attempt. */
  function ForAttempts(amount: nat, attempts: nat): (total: nat)
    ensures attempts >= 1 ==> amount <= total
  {
    amount * attempts
  }

  function NewReservation(b: nat, r: Request, claim: Option<nat>): Reservation {
    Reservation(
      b, r.project, r.task, r.provider, r.account, r.model, r.role, r.digest,
      ForAttempts(r.currency, r.attempts), ForAttempts(r.inputTokens, r.attempts),
      ForAttempts(r.outputTokens, r.attempts), r.attempts,
      r.inputTokens, r.outputTokens, Active, r.expiresAt, claim, None)
  }

  /** The policy checks of admission: those that do not read any total. */
  function CheckPolicy(budget: Budget, r: Request): Result<(), ApiError> {
    if !budget.enabled then Err(Disabled)
    else if r.now < budget.periodStart || r.now >= budget.periodEnd then Err(PeriodInactive)
    else if r.taskProject.None? then Err(TaskNotFound)
    else if r.taskProject.value != r.project then Err(TaskProjectMismatch)
    else if r.model !in budget.models then Err(ModelDenied)
    else if r.role !in budget.roles then Err(RoleDenied)
    else if r.attempts > budget.maxRetries + 1 then Err(RetryLimit)
    else if r.outputTokens > budget.maxOutputTokens then Err(OutputLimit)
    else Ok(())
  }

  /** The accounting checks of admission, on the swept ledger, for the totals of every allowed attempt. */
  function CheckTotals(l: Ledger, b: nat, r: Request): Result<(), ApiError>
    requires b < |l.budgets|
  {
    var budget := l.budgets[b];
    var currency: nat := ForAttempts(r.currency, r.attempts);
    var input: nat := ForAttempts(r.inputTokens, r.attempts);
    var output: nat := ForAttempts(r.outputTokens, r.attempts);
    if Reserved(l, b, Slots) >= budget.maxConcurrent then Err(ConcurrencyLimit)
    else if !SumsFit(l, b) then Err(AccountingOverflow)
    else if currency > U64_MAX || input > U64_MAX || output > U64_MAX then Err(TotalOverflow)
    else if currency > I64_MAX || input + output > I64_MAX then Err(TotalOverflow)
    else if budget.currencyLimit.Some? && currency == 0 then Err(CurrencyReservationRequired)
    else if budget.currencyLimit.Some? && Committed(l, b, Currency) + currency > I64_MAX then Err(AccountingOverflow)
    else if !FitsLimit(l, b, Currency, budget.currencyLimit, currency) then Err(CurrencyExhausted)
    else if budget.currencyLimit.None? && currency != 0 then Err(CurrencyUnconfigured)
    else if budget.tokenLimit.Some? && Committed(l, b, Tokens) + input + output > I64_MAX then Err(AccountingOverflow)
    else if !FitsLimit(l, b, Tokens, budget.tokenLimit, input + output) then Err(TokensExhausted)
    else if budget.requestLimit.Some? && Committed(l, b, Requests) + r.attempts > I64_MAX then Err(AccountingOverflow)
    else if !FitsLimit(l, b, Requests, budget.requestLimit, r.attempts) then Err(RequestsExhausted)
    else Ok(())
  }

  /** The two unique indexes on reservations. */
  function CheckUnique(l: Ledger, r: Request, claim: Option<nat>): Result<(), ApiError> {
    if exists i :: 0 <= i < |l.reservations| && l.reservations[i].project == r.project && l.reservations[i].digest == r.digest
    then Err(DuplicateDigest)
    else if claim.Some? && exists i :: 0 <= i < |l.reservations| && l.reservations[i].claim == claim
    then Err(ClaimAlreadyReserved)
    else Ok(())
  }

  function ReserveTx(l: Ledger, r: Request, claim: Option<nat>): Result<Ledger, ApiError> {
    var swept := ExpireReservations(l, r.now);
    match LatestBudget(l.budgets, r.project, r.provider, r.account)
    case None => Err(Disabled)
    case Some(b) =>
      match CheckPolicy(l.budgets[b], r)
      case Err(e) => Err(e)
      case Ok(_) =>
        match CheckTotals(swept, b, r)
        case Err(e) => Err(e)
        case Ok(_) =>
          match CheckUnique(swept, r, claim)
          case Err(e) => Err(e)
          case Ok(_) => Ok(swept.(reservations := swept.reservations + [NewReservation(b, r, claim)]))
  }

  function Reserve(l: Ledger, r: Request): Result<Ledger, ApiError> {
    if !ValidRequest(r) then Err(InvalidRequest) else ReserveTx(l, r, None)
  }

  function SetReservation(l: Ledger, i: nat, r: Reservation): Ledger
    requires i < |l.reservations|
  {
    l.(reservations := l.reservations[i := r])
  }

  function ClaimDispatch(l: Ledger, i: nat, now: int): Result<Ledger, ApiError> {
    if i >= |l.reservations| then Err(DispatchClaimFailed)
    else
      var r := l.reservations[i];
      if r.status == Active && r.expiresAt > now && (r.claim.None? || r.run.Some?)
      then Ok(SetReservation(l, i, r.(status := Dispatched))) else Err(DispatchClaimFailed)
  }

  function BeginAttempt(l: Ledger, i: nat, now: int): Result<Ledger, ApiError> {
    if i >= |l.reservations| then Err(ReservationNotFound)
    else
      var r := l.reservations[i];
      var previous := LastAttempt(l.attempts, i);
      var number := if previous.None? then 1 else l.attempts[previous.value].number + 1;
      if r.expiresAt <= now then Err(ReservationInactive)
      else if r.status == Active && r.claim.Some? && r.run.None? then Err(ClaimNotConsumed)
      else if !Outstanding(r) then Err(NotDispatchable)
      else if previous.Some? && l.attempts[previous.value].status != RetryableFailure then Err(RetryDenied)
      else if number > r.requests then Err(RetryExhausted)
      else Ok(SetReservation(l, i, r.(status := Dispatched)).(attempts := l.attempts + [Attempt(i, number, Started)]))
  }

  /** How an attempt failed, as its dispatcher reports it. */
  datatype Failure = Failure(status: AttemptStatus, kind: string, retryable: bool, requestHash: Option<string>)

  function CheckFailure(f: Failure): Result<(), ApiError> {
    if f.status !in {RetryableFailure, TerminalFailure, Uncertain} then Err(AttemptStatusInvalid)
    else if (f.status == RetryableFailure) != f.retryable then Err(AttemptRetryInvalid)
    else if !NonBlank(f.kind) || |f.kind| > 100 then Err(AttemptFailureInvalid)
    else if f.requestHash.Some? && !IsSha256Hex(f.requestHash.value) then Err(InvalidHash)
    else Ok(())
  }

  function FailAttempt(l: Ledger, a: nat, f: Failure): Result<Ledger, ApiError> {
    if CheckFailure(f).Err? then Err(CheckFailure(f).error)
    else if a >= |l.attempts| || l.attempts[a].status != Started then Err(AttemptReplay)
    else Ok(l.(attempts := l.attempts[a := l.attempts[a].(status := f.status)]))
  }

  const SPEND_SOURCES := {"provider_reported", "collector_measured", "estimated"}

  datatype Settlement = Settlement(
    reservation: nat, requestHash: string, source: string,
    inputTokens: U64, cachedInputTokens: U64, cacheCreationInputTokens: U64, outputTokens: U64,
    cost: U64, currency: Option<string>, evidence: Option<nat>, observedAt: int)

  /** The settlement's cost is the exact price of its usage under the effective price revision. */
  function CheckEvidence(l: Ledger, r: Reservation, s: Settlement): Result<(), ApiError> {
    match (s.currency, s.evidence)
    case (Some(_), None) => Err(EvidenceMissing)
    case (None, Some(_)) => Err(EvidenceUnexpected)
    case (None, None) => if s.cost != 0 then Err(CurrencyMissing) else Ok(())
    case (Some(currency), Some(e)) =>
      if e >= |l.prices| then Err(EvidenceMissing)
      else
        var p := l.prices[e];
        if p.provider != r.provider || p.account != r.account || p.model != r.model || p.currency != currency
        then Err(EvidenceMismatch)
        else if s.observedAt < p.effectiveFrom || (p.effectiveTo.Some? && s.observedAt >= p.effectiveTo.value)
        then Err(EvidenceInactive)
        else if EffectivePrice(l.prices, p.provider, p.account, p.model, p.currency, s.observedAt) != Some(e)
        then Err(EvidenceSuperseded)
        else
          match Pricing.CalculateApiCostMicros(
            p.rates, s.inputTokens, s.cachedInputTokens, s.cacheCreationInputTokens, s.outputTokens)
          case Err(_) => Err(CostFailure)
          case Ok(cost) => if cost != s.cost then Err(CostMismatch) else Ok(())
  }

  /** Settlement with its dispatch attempt, or without one when the reservation has none. */
  function Settle(l: Ledger, s: Settlement, attempt: Option<nat>): Result<Ledger, ApiError> {
    if !IsSha256Hex(s.requestHash) then Err(InvalidHash)
    else if s.source !in SPEND_SOURCES then Err(InvalidSource)
    else if s.reservation >= |l.reservations| then Err(ReservationNotFound)
    else
      var r := l.reservations[s.reservation];
      if r.status != Dispatched then Err(SettlementReplay)
      else if attempt.Some?
        && (attempt.value >= |l.attempts| || l.attempts[attempt.value].reservation != s.reservation
            || l.attempts[attempt.value].status != Started)
      then Err(AttemptReplay)
      else if attempt.None? && LastAttempt(l.attempts, s.reservation).Some? then Err(AttemptBindingRequired)
      else if s.inputTokens > r.perAttemptInput || s.outputTokens > r.perAttemptOutput || s.cost > r.currency
      then Err(SettlementExceedsReservation)
      else if s.cachedInputTokens + s.cacheCreationInputTokens > s.inputTokens then Err(UsageInconsistent)
      else if r.budget >= |l.budgets| || s.currency != l.budgets[r.budget].currency then Err(CurrencyMismatch)
      else
        match CheckEvidence(l, r, s)
        case Err(e) => Err(e)
        case Ok(_) =>
          if exists k :: 0 <= k < |l.spends| && l.spends[k].requestHash == s.requestHash then Err(DuplicateRequestHash)
          else
            var spend := Spend(r.budget, s.reservation, s.requestHash, s.inputTokens, s.outputTokens, s.cost, s.evidence);
            var attempts :=
              if attempt.Some? then l.attempts[attempt.value := l.attempts[attempt.value].(status := Succeeded)]
              else l.attempts;
            Ok(SetReservation(l, s.reservation, r.(status := Settled)).(attempts := attempts, spends := l.spends + [spend]))
  }

  function Release(l: Ledger, i: nat, reason: string): Result<Ledger, ApiError> {
    if !NonBlank(reason) || |reason| > 1000 then Err(InvalidReason)
    else if i < |l.reservations| && l.reservations[i].status == Active && l.reservations[i].claim.None?
    then Ok(SetReservation(l, i, l.reservations[i].(status := Released))) else Err(ReleaseDenied)
  }

  /** The public ledger transactions. */
  datatype LedgerOp =
    | ConfigureBudgetOp(budget: Budget)
    | ConfigurePriceOp(price: Price)
    | ReserveOp(request: Request)
    | RecoverReservationsOp
    | ClaimDispatchOp(reservation: nat)
    | BeginAttemptOp(reservation: nat)
    | FailAttemptOp(attempt: nat, failure: Failure)
    | SettleOp(settlement: Settlement, boundAttempt: Option<nat>)
    | ReleaseOp(reservation: nat, reason: string)

  function Apply(l: Ledger, op: LedgerOp, now: int): Result<Ledger, ApiError> {
    match op
    case ConfigureBudgetOp(b) => ConfigureBudget(l, b)
    case ConfigurePriceOp(p) => ConfigurePrice(l, p)
    case ReserveOp(r) => Reserve(l, r.(now := now))
    case RecoverReservationsOp => Ok(ExpireReservations(l, now))
    case ClaimDispatchOp(i) => ClaimDispatch(l, i, now)
    case BeginAttemptOp(i) => BeginAttempt(l, i, now)
    case FailAttemptOp(a, f) => FailAttempt(l, a, f)
    case SettleOp(s, a) => Settle(l, s, a)
    case ReleaseOp(i, reason) => Release(l, i, reason)
  }

  // --- The scheduler's use of the ledger ---

  predicate HeldByClaim(r: Reservation, claims: set<nat>) {
    r.status == Active && r.claim.Some? && r.claim.value in claims
  }

  predicate HeldByRun(r: Reservation, runs: set<nat>) {
    r.status == Active && r.run.Some? && r.run.value in runs
  }

  function ReleaseForClaims(l: Ledger, claims: set<nat>): Ledger {
    MarkReservations(l, (r: Reservation) => HeldByClaim(r, claims), Released)
  }

  function ReleaseForRuns(l: Ledger, runs: set<nat>): Ledger {
    MarkReservations(l, (r: Reservation) => HeldByRun(r, runs), Released)
  }

  /** A claim heartbeat renews the active reservations bound to the claims. */
  function ExtendForClaims(l: Ledger, claims: set<nat>, expiresAt: int): (h: Ledger)
    ensures |h.reservations| == |l.reservations| && h == l.(reservations := h.reservations)
    ensures forall i :: 0 <= i < |l.reservations| ==>
              h.reservations[i] ==
              var r := l.reservations[i];
              if HeldByClaim(r, claims) then r.(expiresAt := expiresAt) else r
  {
    l.(reservations := seq(|l.reservations|, i requires 0 <= i < |l.reservations| =>
      var r := l.reservations[i];
      if HeldByClaim(r, claims) then r.(expiresAt := expiresAt) else r))
  }

  /** Consuming a claim binds its active reservation to the run and to the run's lease. */
  function BindRun(l: Ledger, claim: nat, run: nat, expiresAt: int): (h: Ledger)
    ensures |h.reservations| == |l.reservations| && h == l.(reservations := h.reservations)
    ensures forall i :: 0 <= i < |l.reservations| ==>
              h.reservations[i] ==
              var r := l.reservations[i];
              if r.status == Active && r.claim == Some(claim) then r.(run := Some(run), expiresAt := expiresAt) else r
  {
    l.(reservations := seq(|l.reservations|, i requires 0 <= i < |l.reservations| =>
      var r := l.reservations[i];
      if r.status == Active && r.claim == Some(claim) then r.(run := Some(run), expiresAt := expiresAt) else r))
  }

  // --- The admission preview ---

  datatype Preview = Allowed | Denied(reason: ApiError) | PreviewFailure

  /** The route-capacity read: totals with a time filter instead of a sweep, and no request to fit. */
  function RouteCapacity(l: Ledger, project: string, provider: string, account: string, now: int): Preview {
    match LatestBudget(l.budgets, project, provider, account)
    case None => Denied(Disabled)
    case Some(b) =>
      var budget := l.budgets[b];
      if !budget.enabled then Denied(Disabled)
      else if now < budget.periodStart || now >= budget.periodEnd then Denied(PeriodInactive)
      else if "implementer" !in budget.roles then Denied(RoleDenied)
      else if ReservedAt(l, b, Slots, now) >= budget.maxConcurrent then Denied(ConcurrencyLimit)
      else if !PreviewSumsFit(l, b, now) then PreviewFailure
      else if PreviewOverflows(l, b, budget, now, Currency) then PreviewFailure
      else if PreviewExhausted(l, b, budget, now, Currency) then Denied(CurrencyExhausted)
      else if PreviewOverflows(l, b, budget, now, Tokens) then PreviewFailure
      else if PreviewExhausted(l, b, budget, now, Tokens) then Denied(TokensExhausted)
      else if PreviewOverflows(l, b, budget, now, Requests) then PreviewFailure
      else if PreviewExhausted(l, b, budget, now, Requests) then Denied(RequestsExhausted)
      else if budget.currency.Some?
        && forall model :: model in budget.models ==>
             EffectivePrice(l.prices, provider, account, model, budget.currency.value, now).None?
      then Denied(EvidenceMissing)
      else Allowed
  }

  predicate PreviewSumsFit(l: Ledger, b: nat, now: int) {
    && Spent(l, b, Currency) <= I64_MAX && Spent(l, b, Tokens) <= I64_MAX && Spent(l, b, Requests) <= I64_MAX
    && ReservedAt(l, b, Currency, now) <= I64_MAX && ReservedAt(l, b, Tokens, now) <= I64_MAX
    && ReservedAt(l, b, Requests, now) <= I64_MAX
  }

  predicate PreviewOverflows(l: Ledger, b: nat, budget: Budget, now: int, m: Measure) {
    Limit(budget, m).Some? && Spent(l, b, m) + ReservedAt(l, b, m, now) > I64_MAX
  }

  predicate PreviewExhausted(l: Ledger, b: nat, budget: Budget, now: int, m: Measure) {
    Limit(budget, m).Some? && Spent(l, b, m) + ReservedAt(l, b, m, now) >= Limit(budget, m).value
  }
}
