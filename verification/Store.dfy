/**
 The scheduler's tables and the transactions over them. Each transaction either yields the next
 tables or an error; an error leaves the tables as they were. Rows are referred to by position.
 */
module Store {
  import opened Prelude
  import opened Domain
  import TaskGraph
  import Api = ApiBudget

  // --- Tables ---

  datatype Control = Control(pause: bool, emergency: bool)

  datatype Leader = Leader(instance: string, generation: nat, expiresAt: int)

  datatype Route = Route(
    task: nat, allowed: bool, adapter: Option<string>, provider: Option<string>, account: Option<string>)

  datatype Override = Override(effective: real, expiresAt: Option<int>)

  datatype Surface = Surface(
    provider: string, account: string, key: string,
    observed: Option<real>, reserve: real, validUntil: Option<int>, overrides: seq<Override>)

  datatype ClaimStatus = ClaimActive | ClaimConsumed | ClaimReleased | ClaimExpired

  datatype Claim = Claim(
    task: nat, instance: string, generation: nat, status: ClaimStatus, expiresAt: int,
    route: Option<nat>, run: Option<nat>)

  datatype Resource = Resource(kind: string, key: string)

  datatype Lock = Lock(resource: Resource, claim: nat, released: bool)

  datatype Cancellation = NotRequested | CancelRequested | CancelCompleted

  datatype Lease = Lease(owner: string, generation: nat, expiresAt: int, released: bool)

  /** A run with its lease and its supervision row, which are created together. */
  datatype Run = Run(
    id: string, task: nat, status: string, cancellation: Cancellation, requestedAction: Option<string>, lease: Lease)

  datatype QuotaStatus = QuotaActive | QuotaRunning | QuotaReleased | QuotaExpired

  datatype QuotaRow = QuotaRow(
    surface: nat, task: nat, claim: nat, run: Option<nat>, percent: real, status: QuotaStatus, expiresAt: int)

  datatype State = State(
    control: Control, instances: set<string>, leader: Option<Leader>,
    routes: seq<Route>, surfaces: seq<Surface>, graph: TaskGraph.Graph,
    claims: seq<Claim>, locks: seq<Lock>, runs: seq<Run>, quota: seq<QuotaRow>, api: Api.Ledger)

  const EmptyState := State(
    Control(false, false), {}, None, [], [], TaskGraph.Graph([], {}), [], [], [], [], Api.EmptyLedger)

  datatype StoreError =
    | ReasonRequired | EmergencyActive | WorkPaused
    | InstanceInvalid | InstanceMissing | LeaderHeld | LeadershipLost
    | InvalidLimits | InvalidPercentage
    | GlobalCapacity | AdapterCapacity | AccountCapacity | ResourceLocked
    | TaskMissing | TaskNotReady | DependenciesIncomplete | TaskAlreadyClaimed
    | RouteMissing | RouteMismatch | RouteBindingRequired
    | QuotaUnavailable | QuotaStale | QuotaCapacity
    | SurfaceMissing | SurfaceIdClash | NoObservations | ValidityEndsEarly | UnsupportedConfidence
    | UnknownReasonRequired | UnknownReasonUnexpected | InvalidDigest
    | ClaimFenced | ClaimInactive | TaskNotLeased | DuplicateRun
    | RunMissing | LeaseMissing | LeaseFenced | NotRunning
    | GraphFailure(graph: TaskGraph.GraphError)
    | ApiFailure(api: Api.ApiError)

  // --- Leadership ---

  predicate Leads(leader: Option<Leader>, instance: string, generation: nat, now: int) {
    leader.Some? && leader.value.instance == instance && leader.value.generation == generation
    && leader.value.expiresAt > now
  }

  function RegisterInstance(s: State, instance: string, hostname: string): Result<State, StoreError> {
    if !NonBlank(instance) || !NonBlank(hostname) then Err(InstanceInvalid)
    else Ok(s.(instances := s.instances + {instance}))
  }

  /** An owner that comes back keeps its generation, even after its leadership expired. */
  function AcquireLeader(s: State, instance: string, ttl: nat, now: int): Result<State, StoreError> {
    if instance !in s.instances then Err(InstanceMissing)
    else
      match s.leader
      case None => Ok(s.(leader := Some(Leader(instance, 1, now + ttl))))
      case Some(l) =>
        if l.instance == instance then Ok(s.(leader := Some(Leader(instance, l.generation, now + ttl))))
        else if l.expiresAt <= now then Ok(s.(leader := Some(Leader(instance, l.generation + 1, now + ttl))))
        else Err(LeaderHeld)
  }

  function HeartbeatLeader(s: State, instance: string, generation: nat, ttl: nat, now: int): Result<State, StoreError> {
    if !Leads(s.leader, instance, generation, now) then Err(LeadershipLost)
    else Ok(s.(leader := Some(Leader(instance, generation, now + ttl))))
  }

  // --- Ending claims ---

  function ReleaseLocks(locks: seq<Lock>, claims: set<nat>): (h: seq<Lock>)
    ensures |h| == |locks|
    ensures forall i :: 0 <= i < |locks| ==>
              h[i] == if locks[i].claim in claims then locks[i].(released := true) else locks[i]
  {
    seq(|locks|, i requires 0 <= i < |locks| =>
      if locks[i].claim in claims then locks[i].(released := true) else locks[i])
  }

  predicate QuotaHeld(row: QuotaRow) {
    row.status == QuotaActive || row.status == QuotaRunning
  }

  function ReleaseClaimQuota(quota: seq<QuotaRow>, c: nat): (h: seq<QuotaRow>)
    ensures |h| == |quota|
    ensures forall i :: 0 <= i < |quota| ==>
              h[i] == if quota[i].claim == c && QuotaHeld(quota[i]) then quota[i].(status := QuotaReleased) else quota[i]
  {
    seq(|quota|, i requires 0 <= i < |quota| =>
      if quota[i].claim == c && QuotaHeld(quota[i]) then quota[i].(status := QuotaReleased) else quota[i])
  }

  function ReleaseRunQuota(quota: seq<QuotaRow>, r: nat): (h: seq<QuotaRow>)
    ensures |h| == |quota|
    ensures forall i :: 0 <= i < |quota| ==>
              h[i] == if quota[i].run == Some(r) && QuotaHeld(quota[i]) then quota[i].(status := QuotaReleased) else quota[i]
  {
    seq(|quota|, i requires 0 <= i < |quota| =>
      if quota[i].run == Some(r) && QuotaHeld(quota[i]) then quota[i].(status := QuotaReleased) else quota[i])
  }

  /** How a claim that never became a run ends, and what becomes of its leased task. */
  datatype Ending = Expiry | GracefulStop | Emergency

  function EndedStatus(ending: Ending): (status: ClaimStatus)
    ensures status == ClaimReleased || status == ClaimExpired
  {
    if ending == Expiry then ClaimExpired else ClaimReleased
  }

  function EndTask(g: TaskGraph.Graph, t: nat, ending: Ending): (h: TaskGraph.Graph)
    ensures h.deps == g.deps && |h.tasks| == |g.tasks|
  {
    if ending == Emergency then TaskGraph.PauseLeased(g, {t}) else TaskGraph.Requeue(g, {t})
  }

  /** One claim ends: its task leaves Leased, its locks and its quota and API reservations are released. */
  function EndClaim(s: State, c: nat, ending: Ending): State
    requires c < |s.claims|
  {
    s.(graph := EndTask(s.graph, s.claims[c].task, ending),
       claims := s.claims[c := s.claims[c].(status := EndedStatus(ending))],
       locks := ReleaseLocks(s.locks, {c}),
       quota := ReleaseClaimQuota(s.quota, c),
       api := Api.ReleaseForClaims(s.api, {c}))
  }

  /** Claims end one after the other, in row order. */
  function EndClaims(s: State, cs: seq<nat>, ending: Ending): (h: State)
    requires forall k :: 0 <= k < |cs| ==> cs[k] < |s.claims|
    ensures |h.claims| == |s.claims|
    ensures h.graph.deps == s.graph.deps && |h.graph.tasks| == |s.graph.tasks|
  {
    if cs == [] then s
    else EndClaim(EndClaims(s, cs[..|cs| - 1], ending), cs[|cs| - 1], ending)
  }

  /** The rows among the first n claims that a query selects. */
  function SelectClaims(claims: seq<Claim>, test: Claim -> bool, n: nat): (cs: seq<nat>)
    requires n <= |claims|
    ensures forall k :: 0 <= k < |cs| ==> cs[k] < n && test(claims[cs[k]])
    ensures forall c: nat :: c < n && test(claims[c]) ==> c in cs
    ensures forall j, k :: 0 <= j < k < |cs| ==> cs[j] < cs[k]
  {
    if n == 0 then []
    else SelectClaims(claims, test, n - 1) + (if test(claims[n - 1]) then [n - 1] else [])
  }

  function OverdueClaims(claims: seq<Claim>, now: int): seq<nat> {
    SelectClaims(claims, (c: Claim) => c.status == ClaimActive && c.expiresAt <= now, |claims|)
  }

  function ClaimsOf(claims: seq<Claim>, instance: string): seq<nat> {
    SelectClaims(claims, (c: Claim) => c.status == ClaimActive && c.instance == instance, |claims|)
  }

  function ActiveClaims(claims: seq<Claim>): seq<nat> {
    SelectClaims(claims, (c: Claim) => c.status == ClaimActive, |claims|)
  }

  function ExpireClaims(s: State, now: int): (h: State)
    ensures |h.claims| == |s.claims|
    ensures h.graph.deps == s.graph.deps && |h.graph.tasks| == |s.graph.tasks|
  {
    EndClaims(s, OverdueClaims(s.claims, now), Expiry)
  }

  function StopInstance(s: State, instance: string, now: int): Result<State, StoreError> {
    if instance !in s.instances then Err(InstanceMissing)
    else
      var leader := if s.leader.Some? && s.leader.value.instance == instance
                    then Some(s.leader.value.(expiresAt := now)) else s.leader;
      var stopped := s.(instances := s.instances - {instance}, leader := leader);
      Ok(EndClaims(stopped, ClaimsOf(s.claims, instance), GracefulStop))
  }

  // --- Operator controls ---

  function SetPause(s: State, paused: bool, reason: Option<string>): Result<State, StoreError> {
    if paused && (reason.None? || !NonBlank(reason.value)) then Err(ReasonRequired)
    else if s.control.emergency && !paused then Err(EmergencyActive)
    else Ok(s.(control := s.control.(pause := paused)))
  }

  function Resume(s: State, reason: string): Result<State, StoreError> {
    if !NonBlank(reason) then Err(ReasonRequired) else Ok(s.(control := Control(false, false)))
  }

  predicate AtWork(r: Run, tasks: seq<TaskGraph.Task>) {
    r.status == "running" && r.task < |tasks| && tasks[r.task].status == Running
  }

  /** Every run at work is asked to cancel, unless its cancellation is already complete. */
  function CancelAtWork(runs: seq<Run>, tasks: seq<TaskGraph.Task>): (h: seq<Run>)
    ensures |h| == |runs|
    ensures forall r :: 0 <= r < |runs| ==>
              h[r] == if AtWork(runs[r], tasks) && runs[r].cancellation != CancelCompleted
                      then runs[r].(cancellation := CancelRequested, requestedAction := Some("cancel")) else runs[r]
  {
    seq(|runs|, r requires 0 <= r < |runs| =>
      if AtWork(runs[r], tasks) && runs[r].cancellation != CancelCompleted
      then runs[r].(cancellation := CancelRequested, requestedAction := Some("cancel")) else runs[r])
  }

  function EmergencyStop(s: State, reason: string): Result<State, StoreError> {
    if !NonBlank(reason) then Err(ReasonRequired)
    else
      var stopped := s.(control := Control(true, true), runs := CancelAtWork(s.runs, s.graph.tasks));
      Ok(EndClaims(stopped, ActiveClaims(s.claims), Emergency))
  }

  // --- Claiming ---

  datatype Limits = Limits(
    adapter: string, provider: string, account: string, perAdapter: nat, perAccount: nat, forecast: real)

  /** The paid-API part of a claim. */
  datatype ApiClaim = ApiClaim(
    model: string, role: string, digest: string, currency: U64, inputTokens: U64, outputTokens: U64, attempts: nat)

  datatype ClaimRequest = ClaimRequest(
    instance: string, generation: nat, task: nat, version: nat, ttl: nat, maxActive: nat,
    route: Option<nat>, resources: seq<Resource>, limits: Option<Limits>, reservation: Option<ApiClaim>)

  predicate ValidPercentage(p: real) {
    0.0 <= p <= 100.0
  }

  predicate Occupied(locks: seq<Lock>, r: Resource) {
    exists i :: 0 <= i < |locks| && locks[i].resource == r && !locks[i].released
  }

  function Digit(n: nat): char
    requires n < 10
  {
    "0123456789"[n]
  }

  function Decimal(n: nat): (s: string)
    ensures s != [] && forall i :: 0 <= i < |s| ==> '0' <= s[i] <= '9'
  {
    if n < 10 then [Digit(n)] else Decimal(n / 10) + [Digit(n % 10)]
  }

  function SlotKey(owner: string, slot: nat): string {
    owner + ":" + Decimal(slot)
  }

  /** The first free slot from a given one on. */
  function FreeSlot(locks: seq<Lock>, kind: string, owner: string, slot: nat, limit: nat): (r: Option<nat>)
    decreases limit - slot
  {
    if slot >= limit then None
    else if Occupied(locks, Resource(kind, SlotKey(owner, slot))) then FreeSlot(locks, kind, owner, slot + 1, limit)
    else Some(slot)
  }

  function AcquireSlot(locks: seq<Lock>, claim: nat, kind: string, owner: string, limit: nat): Option<seq<Lock>> {
    match FreeSlot(locks, kind, owner, 0, limit)
    case None => None
    case Some(slot) => Some(locks + [Lock(Resource(kind, SlotKey(owner, slot)), claim, false)])
  }

  const ADAPTER_SLOT := "adapter-slot"
  const ACCOUNT_SLOT := "account-slot"
  const PROJECT := "project"

  function AccountOwner(l: Limits): string {
    l.provider + ":" + l.account
  }

  function AcquireSlots(locks: seq<Lock>, claim: nat, l: Limits): Result<seq<Lock>, StoreError> {
    match AcquireSlot(locks, claim, ADAPTER_SLOT, l.adapter, l.perAdapter)
    case None => Err(AdapterCapacity)
    case Some(withAdapter) =>
      match AcquireSlot(withAdapter, claim, ACCOUNT_SLOT, AccountOwner(l), l.perAccount)
      case None => Err(AccountCapacity)
      case Some(withAccount) => Ok(withAccount)
  }

  /** Exclusive locks one by one; a live lock on the same resource violates the unique index. */
  function LockResources(locks: seq<Lock>, claim: nat, resources: seq<Resource>): Result<seq<Lock>, StoreError> {
    if resources == [] then Ok(locks)
    else
      match LockResources(locks, claim, resources[..|resources| - 1])
      case Err(e) => Err(e)
      case Ok(before) =>
        var r := resources[|resources| - 1];
        if Occupied(before, r) then Err(ResourceLocked) else Ok(before + [Lock(r, claim, false)])
  }

  // --- Quota ---

  function ExpireQuota(quota: seq<QuotaRow>, now: int): (h: seq<QuotaRow>)
    ensures |h| == |quota|
    ensures forall i :: 0 <= i < |quota| ==>
              h[i] == if QuotaHeld(quota[i]) && quota[i].expiresAt <= now
                      then quota[i].(status := QuotaExpired) else quota[i]
  {
    seq(|quota|, i requires 0 <= i < |quota| =>
      if QuotaHeld(quota[i]) && quota[i].expiresAt <= now then quota[i].(status := QuotaExpired) else quota[i])
  }

  /** The newest override still in force. */
  function EffectiveOverride(overrides: seq<Override>, now: int): (r: Option<real>)
  {
    if overrides == [] then None
    else
      var last := overrides[|overrides| - 1];
      if last.expiresAt.None? || last.expiresAt.value > now then Some(last.effective)
      else EffectiveOverride(overrides[..|overrides| - 1], now)
  }

  /** What an admission may count on: an override in force, else the observation. */
  function Remaining(surface: Surface, now: int): Option<real> {
    var o := EffectiveOverride(surface.overrides, now);
    if o.Some? then o else surface.observed
  }

  predicate Stale(surface: Surface, now: int) {
    && EffectiveOverride(surface.overrides, now).None?
    && surface.validUntil.Some? && surface.validUntil.value <= now
  }

  predicate LiveRow(row: QuotaRow, surface: nat, now: int) {
    row.surface == surface && QuotaHeld(row) && row.expiresAt > now
  }

  function LiveWeights(quota: seq<QuotaRow>, surface: nat, now: int): (ws: seq<real>)
    ensures |ws| == |quota|
    ensures forall i :: 0 <= i < |quota| ==> ws[i] == if LiveRow(quota[i], surface, now) then quota[i].percent else 0.0
  {
    seq(|quota|, i requires 0 <= i < |quota| =>
      if LiveRow(quota[i], surface, now) then quota[i].percent else 0.0)
  }

  /** The percentage of a surface that live reservations hold. */
  function Live(quota: seq<QuotaRow>, surface: nat, now: int): real {
    SumReal(LiveWeights(quota, surface, now))
  }

  function CheckSurface(surface: Surface, live: real, forecast: real, now: int): Result<(), StoreError> {
    if Stale(surface, now) then Err(QuotaStale)
    else
      match Remaining(surface, now)
      case None => Err(QuotaUnavailable)
      case Some(remaining) => if remaining < surface.reserve + live + forecast then Err(QuotaCapacity) else Ok(())
  }

  /** What one claim asks of every surface of its account. */
  datatype Forecast = Forecast(provider: string, account: string, task: nat, claim: nat, percent: real, expiresAt: int)

  predicate OnAccount(surface: Surface, f: Forecast) {
    surface.provider == f.provider && surface.account == f.account
  }

  function NewQuotaRow(surface: nat, f: Forecast): QuotaRow {
    QuotaRow(surface, f.task, f.claim, None, f.percent, QuotaActive, f.expiresAt)
  }

  /** The surfaces of the account among the first n are checked and reserved in turn. */
  function ReserveSurfaces(quota: seq<QuotaRow>, surfaces: seq<Surface>, f: Forecast, n: nat, now: int)
    : Result<seq<QuotaRow>, StoreError>
    requires n <= |surfaces|
  {
    if n == 0 then Ok(quota)
    else
      match ReserveSurfaces(quota, surfaces, f, n - 1, now)
      case Err(e) => Err(e)
      case Ok(before) =>
        if !OnAccount(surfaces[n - 1], f) then Ok(before)
        else
          match CheckSurface(surfaces[n - 1], Live(before, n - 1, now), f.percent, now)
          case Err(e) => Err(e)
          case Ok(_) => Ok(before + [NewQuotaRow(n - 1, f)])
  }

  predicate RouteFits(s: State, route: nat, task: nat, provider: string, account: string) {
    && route < |s.routes| && s.routes[route].task == task && s.routes[route].allowed
    && s.routes[route].provider == Some(provider) && s.routes[route].account == Some(account)
  }

  function ReserveQuota(s: State, route: nat, f: Forecast, now: int): Result<seq<QuotaRow>, StoreError> {
    if route >= |s.routes| || s.routes[route].task != f.task then Err(RouteMissing)
    else if !RouteFits(s, route, f.task, f.provider, f.account) then Err(RouteMismatch)
    else if forall i :: 0 <= i < |s.surfaces| ==> !OnAccount(s.surfaces[i], f) then Err(QuotaUnavailable)
    else ReserveSurfaces(ExpireQuota(s.quota, now), s.surfaces, f, |s.surfaces|, now)
  }

  // --- Claiming, put together ---

  function UnexpiredClaims(claims: seq<Claim>, now: int): seq<nat> {
    SelectClaims(claims, (c: Claim) => c.status == ClaimActive && c.expiresAt > now, |claims|)
  }

  function LiveClaims(claims: seq<Claim>, now: int): nat {
    |UnexpiredClaims(claims, now)|
  }

  predicate HasActiveClaim(claims: seq<Claim>, task: nat) {
    exists c :: 0 <= c < |claims| && claims[c].status == ClaimActive && claims[c].task == task
  }

  predicate InvalidLimitsGiven(r: ClaimRequest) {
    r.limits.Some? && (r.limits.value.perAdapter == 0 || r.limits.value.perAccount == 0)
  }

  /** What is checked before anything is sought for the claim. */
  function CheckClaim(s: State, r: ClaimRequest, now: int): Result<(), StoreError>
    requires TaskGraph.WellFormed(s.graph)
  {
    if LiveClaims(s.claims, now) >= r.maxActive then Err(GlobalCapacity)
    else if r.task >= |s.graph.tasks| then Err(TaskMissing)
    else if s.graph.tasks[r.task].status != Ready || s.graph.tasks[r.task].version != r.version then Err(TaskNotReady)
    else if !TaskGraph.DependenciesCompleted(s.graph, r.task) then Err(DependenciesIncomplete)
    else if HasActiveClaim(s.claims, r.task) then Err(TaskAlreadyClaimed)
    else Ok(())
  }

  function ClaimSlots(s: State, r: ClaimRequest): Result<seq<Lock>, StoreError> {
    if r.limits.None? then Ok(s.locks) else AcquireSlots(s.locks, |s.claims|, r.limits.value)
  }

  function ForecastOf(s: State, r: ClaimRequest, now: int): Forecast
    requires r.limits.Some?
  {
    var l := r.limits.value;
    Forecast(l.provider, l.account, r.task, |s.claims|, l.forecast, now + r.ttl)
  }

  predicate WantsQuota(r: ClaimRequest) {
    r.limits.Some? && r.limits.value.adapter != "api" && r.route.Some?
  }

  function ClaimQuota(s: State, r: ClaimRequest, now: int): Result<seq<QuotaRow>, StoreError> {
    if !WantsQuota(r) then Ok(s.quota) else ReserveQuota(s, r.route.value, ForecastOf(s, r, now), now)
  }

  function ApiRequest(s: State, r: ClaimRequest, now: int): Api.Request
    requires r.limits.Some? && r.reservation.Some? && r.task < |s.graph.tasks|
  {
    var project, l, a := s.graph.tasks[r.task].project, r.limits.value, r.reservation.value;
    Api.Request(project, r.task, Some(project), l.provider, l.account, a.model, a.role, a.digest,
                a.currency, a.inputTokens, a.outputTokens, a.attempts, now, now + r.ttl)
  }

  function ClaimApi(s: State, r: ClaimRequest, now: int): Result<Api.Ledger, StoreError>
    requires r.task < |s.graph.tasks|
  {
    if r.reservation.None? then Ok(s.api)
    else if r.route.None? then Err(RouteBindingRequired)
    else if r.route.value >= |s.routes| || s.routes[r.route.value].task != r.task then Err(RouteMissing)
    else if r.limits.None? then Err(RouteBindingRequired)
    else if !RouteFits(s, r.route.value, r.task, r.limits.value.provider, r.limits.value.account)
      || s.routes[r.route.value].adapter != Some("api")
    then Err(RouteMismatch)
    else
      var request := ApiRequest(s, r, now);
      if !Api.ValidRequest(request) then Err(ApiFailure(Api.InvalidRequest))
      else
        match Api.ReserveTx(s.api, request, Some(|s.claims|))
        case Err(e) => Err(ApiFailure(e))
        case Ok(api) => Ok(api)
  }

  function NewClaim(r: ClaimRequest, now: int): Claim {
    Claim(r.task, r.instance, r.generation, ClaimActive, now + r.ttl, r.route, None)
  }

  /** Everything the new claim holds is sought in turn; the first refusal refuses the claim. */
  function AcquireForClaim(s: State, r: ClaimRequest, now: int): Result<State, StoreError>
    requires r.task < |s.graph.tasks|
  {
    match ClaimSlots(s, r)
    case Err(e) => Err(e)
    case Ok(slots) =>
      match ClaimQuota(s, r, now)
      case Err(e) => Err(e)
      case Ok(quota) =>
        match LockResources(slots, |s.claims|, [Resource(PROJECT, s.graph.tasks[r.task].project)] + r.resources)
        case Err(e) => Err(e)
        case Ok(locks) =>
          match ClaimApi(s, r, now)
          case Err(e) => Err(e)
          case Ok(api) =>
            Ok(s.(graph := TaskGraph.SetStatus(s.graph, r.task, Leased),
                  claims := s.claims + [NewClaim(r, now)], locks := locks, quota := quota, api := api))
  }

  function ClaimTask(s: State, r: ClaimRequest, now: int): Result<State, StoreError>
    requires TaskGraph.WellFormed(s.graph)
  {
    if InvalidLimitsGiven(r) then Err(InvalidLimits)
    else if r.limits.Some? && !ValidPercentage(r.limits.value.forecast) then Err(InvalidPercentage)
    else if r.maxActive == 0 then Err(InvalidLimits)
    else if !Leads(s.leader, r.instance, r.generation, now) then Err(LeadershipLost)
    else if s.control.emergency then Err(EmergencyActive)
    else if s.control.pause then Err(WorkPaused)
    else
      var swept := ExpireClaims(s, now);
      match CheckClaim(swept, r, now)
      case Err(e) => Err(e)
      case Ok(_) => AcquireForClaim(swept, r, now)
  }

  // --- Keeping claims alive ---

  predicate RenewedBy(c: Claim, instance: string, generation: nat) {
    c.instance == instance && c.generation == generation && c.status == ClaimActive
  }

  function RenewClaims(claims: seq<Claim>, instance: string, generation: nat, expiresAt: int): (h: seq<Claim>)
    ensures |h| == |claims|
    ensures forall c :: 0 <= c < |claims| ==>
              h[c] == if RenewedBy(claims[c], instance, generation) then claims[c].(expiresAt := expiresAt) else claims[c]
  {
    seq(|claims|, c requires 0 <= c < |claims| =>
      if RenewedBy(claims[c], instance, generation) then claims[c].(expiresAt := expiresAt) else claims[c])
  }

  function RenewedSet(claims: seq<Claim>, instance: string, generation: nat): set<nat> {
    set c: nat | c < |claims| && RenewedBy(claims[c], instance, generation)
  }

  function RenewQuota(quota: seq<QuotaRow>, renewed: set<nat>, expiresAt: int): (h: seq<QuotaRow>)
    ensures |h| == |quota|
    ensures forall i :: 0 <= i < |quota| ==>
              h[i] == if quota[i].claim in renewed && quota[i].status == QuotaActive
                      then quota[i].(expiresAt := expiresAt) else quota[i]
  {
    seq(|quota|, i requires 0 <= i < |quota| =>
      if quota[i].claim in renewed && quota[i].status == QuotaActive then quota[i].(expiresAt := expiresAt) else quota[i])
  }

  function Renew(s: State, instance: string, generation: nat, expiresAt: int): State {
    var renewed := RenewedSet(s.claims, instance, generation);
    s.(claims := RenewClaims(s.claims, instance, generation, expiresAt),
       quota := RenewQuota(s.quota, renewed, expiresAt),
       api := Api.ExtendForClaims(s.api, renewed, expiresAt))
  }

  /** Overdue claims are expired first, so only claims still in force are renewed. */
  function HeartbeatClaims(s: State, instance: string, generation: nat, ttl: nat, now: int): Result<State, StoreError> {
    if !Leads(s.leader, instance, generation, now) then Err(LeadershipLost)
    else Ok(Renew(ExpireClaims(s, now), instance, generation, now + ttl))
  }

  // --- Runs ---

  predicate RunIdTaken(runs: seq<Run>, id: string) {
    exists r :: 0 <= r < |runs| && runs[r].id == id
  }

  function StartQuota(quota: seq<QuotaRow>, c: nat, run: nat, expiresAt: int): (h: seq<QuotaRow>)
    ensures |h| == |quota|
    ensures forall i :: 0 <= i < |quota| ==>
              h[i] == if quota[i].claim == c && quota[i].status == QuotaActive
                      then quota[i].(status := QuotaRunning, run := Some(run), expiresAt := expiresAt) else quota[i]
  {
    seq(|quota|, i requires 0 <= i < |quota| =>
      if quota[i].claim == c && quota[i].status == QuotaActive
      then quota[i].(status := QuotaRunning, run := Some(run), expiresAt := expiresAt) else quota[i])
  }

  /** Leased becomes Planning and then Running in the one transaction. */
  function StartTask(g: TaskGraph.Graph, t: nat): TaskGraph.Graph
    requires t < |g.tasks|
  {
    TaskGraph.SetStatus(TaskGraph.SetStatus(g, t, Planning), t, Running)
  }

  /** The claim is consumed into a run with a lease, and what it reserved follows the lease. */
  function Consume(s: State, c: nat, runId: string, expiresAt: int): State
    requires c < |s.claims| && s.claims[c].task < |s.graph.tasks|
  {
    var claim, run := s.claims[c], |s.runs|;
    s.(graph := StartTask(s.graph, claim.task),
       claims := s.claims[c := claim.(status := ClaimConsumed, run := Some(run))],
       runs := s.runs + [Run(runId, claim.task, "running", NotRequested, None,
                             Lease(claim.instance, claim.generation, expiresAt, false))],
       quota := StartQuota(s.quota, c, run, expiresAt),
       api := Api.BindRun(s.api, c, run, expiresAt))
  }

  function BeginClaimedRun(s: State, c: nat, instance: string, generation: nat, runId: string, adapter: string,
                           ttl: nat, now: int): Result<State, StoreError> {
    if !Leads(s.leader, instance, generation, now) then Err(LeadershipLost)
    else if c >= |s.claims| || s.claims[c].instance != instance || s.claims[c].generation != generation
    then Err(ClaimFenced)
    else
      var claim := s.claims[c];
      if claim.status != ClaimActive || claim.expiresAt <= now then Err(ClaimInactive)
      else if claim.task >= |s.graph.tasks| then Err(ClaimFenced)
      else if s.graph.tasks[claim.task].status != Leased then Err(TaskNotLeased)
      else if claim.route.None? || claim.route.value >= |s.routes| || s.routes[claim.route.value].task != claim.task
      then Err(RouteMissing)
      else if !s.routes[claim.route.value].allowed || s.routes[claim.route.value].adapter != Some(adapter)
      then Err(RouteMismatch)
      else if RunIdTaken(s.runs, runId) then Err(DuplicateRun)
      else Ok(Consume(s, c, runId, now + ttl))
  }

  datatype CheckpointAction = Continue | ShortenCheckpoint | Pause | Cancel

  function ExtendRunQuota(quota: seq<QuotaRow>, r: nat, expiresAt: int): (h: seq<QuotaRow>)
    ensures |h| == |quota|
    ensures forall i :: 0 <= i < |quota| ==>
              h[i] == if quota[i].run == Some(r) && quota[i].status == QuotaRunning
                      then quota[i].(expiresAt := expiresAt) else quota[i]
  {
    seq(|quota|, i requires 0 <= i < |quota| =>
      if quota[i].run == Some(r) && quota[i].status == QuotaRunning then quota[i].(expiresAt := expiresAt) else quota[i])
  }

  function Checkpointed(r: Run, action: CheckpointAction, expiresAt: int): Run {
    var extended := r.(lease := r.lease.(expiresAt := expiresAt));
    match action
    case Pause => extended.(cancellation := CancelRequested, requestedAction := Some("pause"))
    case Cancel => extended.(cancellation := CancelRequested, requestedAction := Some("cancel"))
    case _ => extended
  }

  function Checkpoint(s: State, r: nat, owner: string, generation: nat, ttl: nat, action: CheckpointAction, now: int)
    : Result<State, StoreError> {
    if r >= |s.runs| || s.runs[r].lease.released || s.runs[r].lease.owner != owner then Err(LeaseMissing)
    else if s.runs[r].lease.generation != generation || s.runs[r].lease.expiresAt <= now then Err(LeaseFenced)
    else if !AtWork(s.runs[r], s.graph.tasks) then Err(NotRunning)
    else
      Ok(s.(runs := s.runs[r := Checkpointed(s.runs[r], action, now + ttl)],
            quota := ExtendRunQuota(s.quota, r, now + ttl)))
  }

  function RequestCancellation(s: State, r: nat): Result<State, StoreError> {
    if r >= |s.runs| || s.runs[r].status != "running" then Err(RunMissing)
    else if s.runs[r].cancellation != NotRequested then Ok(s)
    else Ok(s.(runs := s.runs[r := s.runs[r].(cancellation := CancelRequested, requestedAction := Some("cancel"))]))
  }

  /** The claims that were consumed into a run: at most one. */
  function ClaimsOfRun(claims: seq<Claim>, r: nat): set<nat> {
    set c: nat | c < |claims| && claims[c].run == Some(r)
  }

  /** The lease and the locks of a run are released. */
  function ReleaseLease(s: State, r: nat): State
    requires r < |s.runs|
  {
    s.(runs := s.runs[r := s.runs[r].(lease := s.runs[r].lease.(released := true))],
       locks := ReleaseLocks(s.locks, ClaimsOfRun(s.claims, r)))
  }

  function ReleaseRunReservations(s: State, r: nat): State {
    s.(quota := ReleaseRunQuota(s.quota, r), api := Api.ReleaseForRuns(s.api, {r}))
  }

  datatype OutcomeStatus = OutcomeStatus(run: string, task: TaskStatus)

  function OutcomeOf(failure: Option<FailureCategory>, requestedAction: Option<string>): OutcomeStatus {
    if failure.None? then OutcomeStatus("verifying", Verifying)
    else if failure.value == CancelledByRequest && requestedAction == Some("pause") then OutcomeStatus("paused", Paused)
    else if failure.value == CancelledByRequest then OutcomeStatus("cancelled", Cancelled)
    else OutcomeStatus("failed", Failed)
  }

  /** A process that succeeded keeps its lease and locks through verification; reservations always end. */
  function RecordOutcome(s: State, r: nat, failure: Option<FailureCategory>): Result<State, StoreError> {
    if r >= |s.runs| then Err(RunMissing)
    else if !AtWork(s.runs[r], s.graph.tasks) then Err(NotRunning)
    else
      var outcome := OutcomeOf(failure, s.runs[r].requestedAction);
      var cancellation :=
        if failure == Some(CancelledByRequest) then CancelCompleted else s.runs[r].cancellation;
      var recorded := s.(graph := TaskGraph.SetStatus(s.graph, s.runs[r].task, outcome.task),
                         runs := s.runs[r := s.runs[r].(status := outcome.run, cancellation := cancellation)]);
      Ok(ReleaseRunReservations(if failure.Some? then ReleaseLease(recorded, r) else recorded, r))
  }

  function FinishRun(s: State, r: nat, status: string): Result<State, StoreError> {
    if r >= |s.runs| then Err(RunMissing)
    else
      var finished := s.(runs := s.runs[r := s.runs[r].(status := status)]);
      Ok(ReleaseRunReservations(ReleaseLease(finished, r), r))
  }

  // --- Lease recovery ---

  predicate LeaseOverdue(r: Run, tasks: seq<TaskGraph.Task>, now: int) {
    && !r.lease.released && r.lease.expiresAt < now
    && r.task < |tasks| && TaskGraph.Recoverable(tasks[r.task].status)
  }

  function OverdueRuns(runs: seq<Run>, tasks: seq<TaskGraph.Task>, now: int, n: nat): (rs: seq<nat>)
    requires n <= |runs|
    ensures forall k :: 0 <= k < |rs| ==> rs[k] < n && LeaseOverdue(runs[rs[k]], tasks, now)
    ensures forall r: nat :: r < n && LeaseOverdue(runs[r], tasks, now) ==> r in rs
    ensures forall j, k :: 0 <= j < k < |rs| ==> rs[j] < rs[k]
  {
    if n == 0 then []
    else OverdueRuns(runs, tasks, now, n - 1) + (if LeaseOverdue(runs[n - 1], tasks, now) then [n - 1] else [])
  }

  /** The task is paused whatever it was doing, and the run is orphaned. */
  function OrphanRun(s: State, r: nat): (h: State)
    requires r < |s.runs| && s.runs[r].task < |s.graph.tasks|
  {
    var orphaned := s.(graph := TaskGraph.SetStatus(s.graph, s.runs[r].task, Paused),
                       runs := s.runs[r := s.runs[r].(status := "orphaned")]);
    ReleaseRunReservations(ReleaseLease(orphaned, r), r)
  }

  function OrphanRuns(s: State, rs: seq<nat>): (h: State)
    requires forall k :: 0 <= k < |rs| ==> rs[k] < |s.runs| && s.runs[rs[k]].task < |s.graph.tasks|
    ensures |h.runs| == |s.runs| && (forall r :: 0 <= r < |s.runs| ==> h.runs[r].task == s.runs[r].task)
    ensures h.graph.deps == s.graph.deps && |h.graph.tasks| == |s.graph.tasks|
  {
    if rs == [] then s else OrphanRun(OrphanRuns(s, rs[..|rs| - 1]), rs[|rs| - 1])
  }

  function RecoverLeases(s: State, now: int): State {
    OrphanRuns(s, OverdueRuns(s.runs, s.graph.tasks, now, |s.runs|))
  }

  // --- Quota evidence ---

  /** A user's report: an unknown remainder needs a reason. */
  function CheckReport(observed: Option<real>, reserve: real, unknownReason: Option<string>): Result<(), StoreError> {
    if (observed.Some? && !ValidPercentage(observed.value)) || !ValidPercentage(reserve) then Err(InvalidPercentage)
    else if observed.None? && unknownReason.None? then Err(UnknownReasonRequired)
    else Ok(())
  }

  /** One observation of a collector. */
  datatype Observation = Observation(
    provider: string, account: string, key: string, remaining: Option<real>, reserve: real,
    confidence: string, unknownReason: Option<string>, observedAt: int, validUntil: int, payload: string)

  function CheckObservation(o: Observation): Result<(), StoreError> {
    if (o.remaining.Some? && !ValidPercentage(o.remaining.value)) || !ValidPercentage(o.reserve)
    then Err(InvalidPercentage)
    else if o.validUntil <= o.observedAt then Err(ValidityEndsEarly)
    else if o.confidence !in {"provider_reported", "unknown"} then Err(UnsupportedConfidence)
    else if o.remaining.None? && o.unknownReason.None? then Err(UnknownReasonRequired)
    else if o.remaining.Some? && o.unknownReason.Some? then Err(UnknownReasonUnexpected)
    else if !IsSha256Hex(o.payload) then Err(InvalidDigest)
    else Ok(())
  }

  predicate Identifies(surface: Surface, provider: string, account: string, key: string) {
    surface.provider == provider && surface.account == account && surface.key == key
  }

  /** The primary key of a surface, which two different identities may share. */
  function SurfaceId(provider: string, account: string, key: string): string {
    provider + ":" + account + ":" + key
  }

  predicate SurfaceIdTaken(surfaces: seq<Surface>, id: string) {
    exists i :: 0 <= i < |surfaces| && SurfaceId(surfaces[i].provider, surfaces[i].account, surfaces[i].key) == id
  }

  function FindSurface(surfaces: seq<Surface>, provider: string, account: string, key: string): (r: Option<nat>)
    ensures r.Some? ==> r.value < |surfaces| && Identifies(surfaces[r.value], provider, account, key)
    ensures r.None? ==> forall i :: 0 <= i < |surfaces| ==> !Identifies(surfaces[i], provider, account, key)
  {
    if surfaces == [] then None
    else if Identifies(surfaces[|surfaces| - 1], provider, account, key) then Some(|surfaces| - 1)
    else FindSurface(surfaces[..|surfaces| - 1], provider, account, key)
  }

  /** The evidence of a known surface is replaced; a new surface needs an unused primary key. */
  function UpsertSurface(surfaces: seq<Surface>, provider: string, account: string, key: string,
                         observed: Option<real>, reserve: real, validUntil: Option<int>)
    : Result<seq<Surface>, StoreError>
  {
    match FindSurface(surfaces, provider, account, key)
    case Some(i) =>
      Ok(surfaces[i := surfaces[i].(observed := observed, reserve := reserve, validUntil := validUntil)])
    case None =>
      if SurfaceIdTaken(surfaces, SurfaceId(provider, account, key)) then Err(SurfaceIdClash)
      else Ok(surfaces + [Surface(provider, account, key, observed, reserve, validUntil, [])])
  }

  function WithSurfaces(s: State, surfaces: Result<seq<Surface>, StoreError>): Result<State, StoreError> {
    match surfaces
    case Err(e) => Err(e)
    case Ok(rows) => Ok(s.(surfaces := rows))
  }

  /** What a user reports stays valid until it is replaced. */
  function ObserveQuota(s: State, provider: string, account: string, key: string,
                        observed: Option<real>, reserve: real, unknownReason: Option<string>)
    : Result<State, StoreError>
  {
    match CheckReport(observed, reserve, unknownReason)
    case Err(e) => Err(e)
    case Ok(_) => WithSurfaces(s, UpsertSurface(s.surfaces, provider, account, key, observed, reserve, None))
  }

  /** A collector's observations are recorded in turn; the first refusal refuses them all. */
  function RecordObservations(surfaces: seq<Surface>, os: seq<Observation>): Result<seq<Surface>, StoreError> {
    if os == [] then Ok(surfaces)
    else
      match RecordObservations(surfaces, os[..|os| - 1])
      case Err(e) => Err(e)
      case Ok(before) =>
        var o := os[|os| - 1];
        match CheckObservation(o)
        case Err(e) => Err(e)
        case Ok(_) =>
          UpsertSurface(before, o.provider, o.account, o.key, o.remaining, o.reserve, Some(o.validUntil))
  }

  function RefreshQuota(s: State, os: seq<Observation>): Result<State, StoreError> {
    if os == [] then Err(NoObservations) else WithSurfaces(s, RecordObservations(s.surfaces, os))
  }

  function AddOverride(surface: Surface, effective: real, expiresAt: Option<int>): Surface {
    surface.(overrides := surface.overrides + [Override(effective, expiresAt)])
  }

  function OverrideQuota(s: State, provider: string, account: string, key: string,
                         effective: real, reason: string, expiresAt: Option<int>): Result<State, StoreError> {
    if !ValidPercentage(effective) then Err(InvalidPercentage)
    else if !NonBlank(reason) then Err(ReasonRequired)
    else
      match FindSurface(s.surfaces, provider, account, key)
      case None => Err(SurfaceMissing)
      case Some(i) => Ok(s.(surfaces := s.surfaces[i := AddOverride(s.surfaces[i], effective, expiresAt)]))
  }

  // --- Steps ---

  datatype Op =
    | RegisterInstanceOp(instance: string, hostname: string)
    | AcquireLeaderOp(instance: string, ttl: nat)
    | HeartbeatLeaderOp(instance: string, generation: nat, ttl: nat)
    | StopInstanceOp(instance: string)
    | SetPauseOp(paused: bool, pauseReason: Option<string>)
    | ResumeOp(reason: string)
    | EmergencyStopOp(reason: string)
    | AddTaskOp(project: string, dependencies: seq<nat>, pin: Option<TaskGraph.RoutePin>)
    | SetRoutePinOp(task: nat, pin: Option<TaskGraph.RoutePin>, reason: string)
    | AddDependencyOp(task: nat, on: nat)
    | CompleteReviewOp(task: nat)
    | TransitionTaskOp(task: nat, expected: TaskStatus, next: TaskStatus)
    | RecordRouteOp(route: Route)
    | ClaimTaskOp(request: ClaimRequest)
    | HeartbeatClaimsOp(instance: string, generation: nat, ttl: nat)
    | BeginClaimedRunOp(claim: nat, instance: string, generation: nat, runId: string, adapter: string, ttl: nat)
    | RecoverClaimsOp
    | CheckpointOp(run: nat, owner: string, generation: nat, ttl: nat, action: CheckpointAction)
    | RequestCancellationOp(run: nat)
    | RecordOutcomeOp(run: nat, failure: Option<FailureCategory>)
    | FinishRunOp(run: nat, status: string)
    | RecoverLeasesOp
    | ObserveQuotaOp(provider: string, account: string, key: string,
                     observed: Option<real>, reserve: real, unknownReason: Option<string>)
    | RefreshQuotaOp(observations: seq<Observation>)
    | OverrideQuotaOp(provider: string, account: string, key: string,
                      effective: real, overrideReason: string, expiresAt: Option<int>)
    | LedgerOp(ledgerOp: Api.LedgerOp)

  ghost function WithGraph(s: State, g: Result<TaskGraph.Graph, TaskGraph.GraphError>): Result<State, StoreError> {
    match g
    case Err(e) => Err(GraphFailure(e))
    case Ok(graph) => Ok(s.(graph := graph))
  }

  /** A reservation request is read together with the project of its task. */
  function ResolveTask(s: State, op: Api.LedgerOp): Api.LedgerOp {
    match op
    case ReserveOp(r) =>
      Api.ReserveOp(r.(taskProject := if r.task < |s.graph.tasks| then Some(s.graph.tasks[r.task].project) else None))
    case _ => op
  }

  function ApplyLedger(s: State, op: Api.LedgerOp, now: int): Result<State, StoreError> {
    match Api.Apply(s.api, ResolveTask(s, op), now)
    case Err(e) => Err(ApiFailure(e))
    case Ok(api) => Ok(s.(api := api))
  }

  ghost function Apply(s: State, op: Op, now: int): Result<State, StoreError>
    requires TaskGraph.WellFormed(s.graph)
  {
    match op
    case RegisterInstanceOp(i, hostname) => RegisterInstance(s, i, hostname)
    case AcquireLeaderOp(i, ttl) => AcquireLeader(s, i, ttl, now)
    case HeartbeatLeaderOp(i, g, ttl) => HeartbeatLeader(s, i, g, ttl, now)
    case StopInstanceOp(i) => StopInstance(s, i, now)
    case SetPauseOp(paused, reason) => SetPause(s, paused, reason)
    case ResumeOp(reason) => Resume(s, reason)
    case EmergencyStopOp(reason) => EmergencyStop(s, reason)
    case AddTaskOp(project, dependencies, pin) => WithGraph(s, TaskGraph.AddTask(s.graph, project, dependencies, pin))
    case SetRoutePinOp(t, pin, reason) => WithGraph(s, TaskGraph.SetRoutePin(s.graph, t, pin, reason))
    case AddDependencyOp(t, d) => WithGraph(s, TaskGraph.AddDependency(s.graph, t, d))
    case CompleteReviewOp(t) => WithGraph(s, TaskGraph.CompleteReview(s.graph, t))
    case TransitionTaskOp(t, expected, next) => WithGraph(s, TaskGraph.TransitionTask(s.graph, t, expected, next))
    case RecordRouteOp(route) =>
      if route.task < |s.graph.tasks| then Ok(s.(routes := s.routes + [route])) else Err(TaskMissing)
    case ClaimTaskOp(r) => ClaimTask(s, r, now)
    case HeartbeatClaimsOp(i, g, ttl) => HeartbeatClaims(s, i, g, ttl, now)
    case BeginClaimedRunOp(c, i, g, runId, adapter, ttl) => BeginClaimedRun(s, c, i, g, runId, adapter, ttl, now)
    case RecoverClaimsOp => Ok(ExpireClaims(s, now))
    case CheckpointOp(r, owner, g, ttl, action) => Checkpoint(s, r, owner, g, ttl, action, now)
    case RequestCancellationOp(r) => RequestCancellation(s, r)
    case RecordOutcomeOp(r, failure) => RecordOutcome(s, r, failure)
    case FinishRunOp(r, status) => FinishRun(s, r, status)
    case RecoverLeasesOp => Ok(RecoverLeases(s, now))
    case ObserveQuotaOp(p, a, k, observed, reserve, unknown) => ObserveQuota(s, p, a, k, observed, reserve, unknown)
    case RefreshQuotaOp(os) => RefreshQuota(s, os)
    case OverrideQuotaOp(p, a, k, effective, reason, expiresAt) => OverrideQuota(s, p, a, k, effective, reason, expiresAt)
    case LedgerOp(op) => ApplyLedger(s, op, now)
  }
}
