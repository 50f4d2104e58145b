/**
 The store as the program runs it: each transaction reads the committed tables, works on its own copy, with
 loops where the program has them, and commits that copy or leaves the tables alone. Every transaction is
 proved to do exactly what the step it stands for says.
 */
module Database {
  import opened Prelude
  import opened Domain
  import opened Store
  import opened StoreInvariant
  import opened StoreSteps
  import TaskGraph
  import Api = ApiBudget

  /** A transaction either commits what its step yields or fails with the step's error and changes nothing. */
  ghost predicate Outcome<T>(before: State, step: Result<State, StoreError>, after: State, result: Result<T, StoreError>) {
    match step
    case Err(e) => result == Err(e) && after == before
    case Ok(s) => result.Ok? && after == s
  }

  // --- Ending claims ---

  lemma TaskEndsAsLooped(g: TaskGraph.Graph, t: nat, ending: Ending)
    requires t < |g.tasks|
    ensures EndTask(g, t, ending) ==
            if g.tasks[t].status != TaskStatus.Leased then g
            else if ending == Emergency then TaskGraph.SetStatus(g, t, Paused)
            else TaskGraph.SetStatus(TaskGraph.SetStatus(g, t, Paused), t, Ready)
  {
    var paused := TaskGraph.SetStatus(g, t, Paused);
    var looped := if g.tasks[t].status != TaskStatus.Leased then g
                  else if ending == Emergency then paused else TaskGraph.SetStatus(paused, t, Ready);
    assert EndTask(g, t, ending).tasks == looped.tasks;
  }

  /** One turn of the loops that end claims. */
  method EndOneClaim(s: State, c: nat, ending: Ending) returns (h: State)
    requires c < |s.claims| && s.claims[c].task < |s.graph.tasks|
    ensures h == EndClaim(s, c, ending)
    ensures |h.claims| == |s.claims| && |h.graph.tasks| == |s.graph.tasks|
    ensures forall d :: 0 <= d < |s.claims| ==> h.claims[d].task == s.claims[d].task
  {
    var t, graph := s.claims[c].task, s.graph;
    if graph.tasks[t].status == TaskStatus.Leased {
      graph := TaskGraph.SetStatus(graph, t, Paused);
      if ending != Emergency {
        graph := TaskGraph.SetStatus(graph, t, Ready);
      }
    }
    TaskEndsAsLooped(s.graph, t, ending);
    var claims := s.claims[c := s.claims[c].(status := if ending == Expiry then ClaimExpired else ClaimReleased)];
    h := s.(graph := graph, claims := claims,
            locks := ReleaseLocks(s.locks, {c}),
            quota := ReleaseClaimQuota(s.quota, c),
            api := Api.ReleaseForClaims(s.api, {c}));
  }

  /** The loop of claim expiry, of a graceful stop and of an emergency stop. */
  method EndClaimsTx(s: State, cs: seq<nat>, ending: Ending) returns (h: State)
    requires forall k :: 0 <= k < |cs| ==> cs[k] < |s.claims| && s.claims[cs[k]].task < |s.graph.tasks|
    ensures h == EndClaims(s, cs, ending)
  {
    hide EndClaim;
    h := s;
    for k := 0 to |cs|
      invariant h == EndClaims(s, cs[..k], ending)
      invariant forall c :: 0 <= c < |s.claims| ==> h.claims[c].task == s.claims[c].task
    {
      assert cs[..k + 1][..k] == cs[..k];
      h := EndOneClaim(h, cs[k], ending);
    }
    assert cs[..|cs|] == cs;
  }

  lemma ClaimedTasksExist(s: State)
    requires Inv(s)
    ensures forall c :: 0 <= c < |s.claims| ==> s.claims[c].task < |s.graph.tasks|
    ensures forall r :: 0 <= r < |s.runs| ==> s.runs[r].task < |s.graph.tasks|
  {
    assert forall c :: 0 <= c < |s.claims| ==> ClaimFits(s.claims[c], |s.graph.tasks|, s.runs);
  }

  // --- Capacity and locks ---

  /** The search for a free slot, from the first on. */
  method AcquireCapacitySlot(locks: seq<Lock>, claim: nat, kind: string, owner: string, limit: nat)
    returns (r: Option<seq<Lock>>)
    ensures r == AcquireSlot(locks, claim, kind, owner, limit)
  {
    for slot := 0 to limit
      invariant FreeSlot(locks, kind, owner, 0, limit) == FreeSlot(locks, kind, owner, slot, limit)
    {
      var resource := Resource(kind, SlotKey(owner, slot));
      if !Occupied(locks, resource) {
        return Some(locks + [Lock(resource, claim, false)]);
      }
    }
    return None;
  }

  lemma {:induction false} LockFailureStands(locks: seq<Lock>, claim: nat, resources: seq<Resource>, k: nat)
    requires k <= |resources| && LockResources(locks, claim, resources[..k]).Err?
    ensures LockResources(locks, claim, resources) == LockResources(locks, claim, resources[..k])
    decreases |resources|
  {
    if k < |resources| {
      assert resources[..|resources| - 1][..k] == resources[..k];
      LockFailureStands(locks, claim, resources[..|resources| - 1], k);
    } else {
      assert resources[..k] == resources;
    }
  }

  /** One exclusive lock after the other; the first conflict fails the claim. */
  method LockAll(locks: seq<Lock>, claim: nat, resources: seq<Resource>) returns (r: Result<seq<Lock>, StoreError>)
    ensures r == LockResources(locks, claim, resources)
  {
    var held := locks;
    for k := 0 to |resources|
      invariant LockResources(locks, claim, resources[..k]) == Ok(held)
    {
      assert resources[..k + 1][..k] == resources[..k];
      if Occupied(held, resources[k]) {
        LockFailureStands(locks, claim, resources, k + 1);
        return Err(ResourceLocked);
      }
      held := held + [Lock(resources[k], claim, false)];
    }
    assert resources[..|resources|] == resources;
    return Ok(held);
  }

  // --- Quota ---

  lemma {:induction false} SurfaceFailureStands(
    quota: seq<QuotaRow>, surfaces: seq<Surface>, f: Forecast, n: nat, m: nat, now: int)
    requires n <= m <= |surfaces| && ReserveSurfaces(quota, surfaces, f, n, now).Err?
    ensures ReserveSurfaces(quota, surfaces, f, m, now) == ReserveSurfaces(quota, surfaces, f, n, now)
    decreases m
  {
    if n < m {
      SurfaceFailureStands(quota, surfaces, f, n, m - 1, now);
    }
  }

  /** The account's surfaces are checked and reserved one after the other. */
  method ReserveAccount(quota: seq<QuotaRow>, surfaces: seq<Surface>, f: Forecast, now: int)
    returns (r: Result<seq<QuotaRow>, StoreError>)
    ensures r == ReserveSurfaces(quota, surfaces, f, |surfaces|, now)
  {
    var rows := quota;
    for n := 0 to |surfaces|
      invariant ReserveSurfaces(quota, surfaces, f, n, now) == Ok(rows)
    {
      var surface := surfaces[n];
      if surface.provider == f.provider && surface.account == f.account {
        var checked := CheckSurface(surface, Live(rows, n, now), f.percent, now);
        if checked.Err? {
          SurfaceFailureStands(quota, surfaces, f, n + 1, |surfaces|, now);
          return Err(checked.error);
        }
        rows := rows + [QuotaRow(n, f.task, f.claim, None, f.percent, QuotaActive, f.expiresAt)];
      }
    }
    return Ok(rows);
  }

  method ReserveQuotaTx(s: State, route: nat, f: Forecast, now: int) returns (r: Result<seq<QuotaRow>, StoreError>)
    ensures r == ReserveQuota(s, route, f, now)
  {
    if route >= |s.routes| || s.routes[route].task != f.task { return Err(RouteMissing); }
    var decided := s.routes[route];
    if !decided.allowed || decided.provider != Some(f.provider) || decided.account != Some(f.account) {
      return Err(RouteMismatch);
    }
    if forall i :: 0 <= i < |s.surfaces| ==> !OnAccount(s.surfaces[i], f) { return Err(QuotaUnavailable); }
    r := ReserveAccount(ExpireQuota(s.quota, now), s.surfaces, f, now);
  }

  // --- The API ledger ---

  /** Overdue active reservations are expired row by row. */
  method ExpireActiveReservations(l: Api.Ledger, now: int) returns (h: Api.Ledger)
    ensures h == Api.ExpireReservations(l, now)
  {
    var rows := l.reservations;
    for i := 0 to |l.reservations|
      invariant |rows| == |l.reservations|
      invariant forall j :: 0 <= j < i ==> rows[j] == Api.ExpireReservations(l, now).reservations[j]
      invariant forall j :: i <= j < |rows| ==> rows[j] == l.reservations[j]
    {
      if rows[i].status == Api.Active && rows[i].expiresAt <= now {
        rows := rows[i := rows[i].(status := Api.Expired)];
      }
    }
    h := l.(reservations := rows);
    assert h.reservations == Api.ExpireReservations(l, now).reservations;
  }

  method ReserveApiTx(l: Api.Ledger, r: Api.Request, claim: Option<nat>) returns (result: Result<Api.Ledger, Api.ApiError>)
    ensures result == Api.ReserveTx(l, r, claim)
  {
    var swept := ExpireActiveReservations(l, r.now);
    var latest := Api.LatestBudget(swept.budgets, r.project, r.provider, r.account);
    if latest.None? { return Err(Api.Disabled); }
    var policy := Api.CheckPolicy(swept.budgets[latest.value], r);
    if policy.Err? { return Err(policy.error); }
    var totals := Api.CheckTotals(swept, latest.value, r);
    if totals.Err? { return Err(totals.error); }
    var unique := Api.CheckUnique(swept, r, claim);
    if unique.Err? { return Err(unique.error); }
    var row := Api.NewReservation(latest.value, r, claim);
    return Ok(swept.(reservations := swept.reservations + [row]));
  }

  // --- Claiming ---

  method ClaimCapacity(s: State, r: ClaimRequest) returns (result: Result<seq<Lock>, StoreError>)
    ensures result == ClaimSlots(s, r)
  {
    if r.limits.None? { return Ok(s.locks); }
    var l, claim := r.limits.value, |s.claims|;
    var withAdapter := AcquireCapacitySlot(s.locks, claim, ADAPTER_SLOT, l.adapter, l.perAdapter);
    if withAdapter.None? { return Err(AdapterCapacity); }
    var withAccount := AcquireCapacitySlot(withAdapter.value, claim, ACCOUNT_SLOT, l.provider + ":" + l.account, l.perAccount);
    if withAccount.None? { return Err(AccountCapacity); }
    return Ok(withAccount.value);
  }

  method ClaimQuotaTx(s: State, r: ClaimRequest, now: int) returns (result: Result<seq<QuotaRow>, StoreError>)
    ensures result == ClaimQuota(s, r, now)
  {
    if r.limits.None? || r.limits.value.adapter == "api" || r.route.None? { return Ok(s.quota); }
    result := ReserveQuotaTx(s, r.route.value, ForecastOf(s, r, now), now);
  }

  method ClaimApiTx(s: State, r: ClaimRequest, now: int) returns (result: Result<Api.Ledger, StoreError>)
    requires r.task < |s.graph.tasks|
    ensures result == ClaimApi(s, r, now)
  {
    if r.reservation.None? { return Ok(s.api); }
    if r.route.None? { return Err(RouteBindingRequired); }
    if r.route.value >= |s.routes| || s.routes[r.route.value].task != r.task { return Err(RouteMissing); }
    if r.limits.None? { return Err(RouteBindingRequired); }
    var route, l := s.routes[r.route.value], r.limits.value;
    if !route.allowed || route.adapter != Some("api") || route.provider != Some(l.provider)
       || route.account != Some(l.account) {
      return Err(RouteMismatch);
    }
    var request := ApiRequest(s, r, now);
    if !Api.ValidRequest(request) { return Err(ApiFailure(Api.InvalidRequest)); }
    var reserved := ReserveApiTx(s.api, request, Some(|s.claims|));
    if reserved.Err? { return Err(ApiFailure(reserved.error)); }
    return Ok(reserved.value);
  }

  method AcquireForClaimTx(s: State, r: ClaimRequest, now: int) returns (result: Result<State, StoreError>)
    requires r.task < |s.graph.tasks|
    ensures result == AcquireForClaim(s, r, now)
  {
    var slots := ClaimCapacity(s, r);
    if slots.Err? { return Err(slots.error); }
    var quota := ClaimQuotaTx(s, r, now);
    if quota.Err? { return Err(quota.error); }
    var resources := [Resource(PROJECT, s.graph.tasks[r.task].project)] + r.resources;
    var locks := LockAll(slots.value, |s.claims|, resources);
    if locks.Err? { return Err(locks.error); }
    var api := ClaimApiTx(s, r, now);
    if api.Err? { return Err(api.error); }
    var claim := Claim(r.task, r.instance, r.generation, ClaimActive, now + r.ttl, r.route, None);
    return Ok(s.(graph := TaskGraph.SetStatus(s.graph, r.task, TaskStatus.Leased), claims := s.claims + [claim],
                 locks := locks.value, quota := quota.value, api := api.value));
  }

  method ClaimTx(s: State, r: ClaimRequest, now: int) returns (result: Result<State, StoreError>)
    requires TaskGraph.WellFormed(s.graph)
    requires forall c :: 0 <= c < |s.claims| ==> s.claims[c].task < |s.graph.tasks|
    ensures result == ClaimTask(s, r, now)
  {
    if r.limits.Some? && (r.limits.value.perAdapter == 0 || r.limits.value.perAccount == 0) { return Err(InvalidLimits); }
    if r.limits.Some? && !ValidPercentage(r.limits.value.forecast) { return Err(InvalidPercentage); }
    if r.maxActive == 0 { return Err(InvalidLimits); }
    if !Leads(s.leader, r.instance, r.generation, now) { return Err(LeadershipLost); }
    if s.control.emergency { return Err(EmergencyActive); }
    if s.control.pause { return Err(WorkPaused); }
    var swept := EndClaimsTx(s, OverdueClaims(s.claims, now), Expiry);
    result := AdmitClaimTx(swept, r, now);
  }

  method AdmitClaimTx(s: State, r: ClaimRequest, now: int) returns (result: Result<State, StoreError>)
    requires TaskGraph.WellFormed(s.graph)
    ensures result == match CheckClaim(s, r, now) case Err(e) => Err(e) case Ok(_) => AcquireForClaim(s, r, now)
  {
    hide AcquireForClaim;
    if LiveClaims(s.claims, now) >= r.maxActive { return Err(GlobalCapacity); }
    if r.task >= |s.graph.tasks| { return Err(TaskMissing); }
    var task := s.graph.tasks[r.task];
    if task.status != Ready || task.version != r.version { return Err(TaskNotReady); }
    if !TaskGraph.DependenciesCompleted(s.graph, r.task) { return Err(DependenciesIncomplete); }
    if HasActiveClaim(s.claims, r.task) { return Err(TaskAlreadyClaimed); }
    result := AcquireForClaimTx(s, r, now);
  }

  lemma ClaimIsAppended(s: State, r: ClaimRequest, now: int)
    requires TaskGraph.WellFormed(s.graph) && ClaimTask(s, r, now).Ok?
    ensures |ClaimTask(s, r, now).value.claims| == |s.claims| + 1
    ensures ClaimTask(s, r, now).value.claims[|s.claims|] == NewClaim(r, now)
  {
  }

  // --- Runs ---

  /** The loop that asks every run at work to cancel. */
  method CancelRuns(runs: seq<Run>, tasks: seq<TaskGraph.Task>) returns (h: seq<Run>)
    ensures h == CancelAtWork(runs, tasks)
  {
    h := runs;
    for r := 0 to |runs|
      invariant |h| == |runs|
      invariant forall q :: 0 <= q < r ==> h[q] == CancelAtWork(runs, tasks)[q]
      invariant forall q :: r <= q < |runs| ==> h[q] == runs[q]
    {
      if AtWork(h[r], tasks) && h[r].cancellation != CancelCompleted {
        h := h[r := h[r].(cancellation := CancelRequested, requestedAction := Some("cancel"))];
      }
    }
  }

  /** The loop of lease recovery. */
  method OrphanRunsTx(s: State, rs: seq<nat>) returns (h: State)
    requires forall k :: 0 <= k < |rs| ==> rs[k] < |s.runs| && s.runs[rs[k]].task < |s.graph.tasks|
    ensures h == OrphanRuns(s, rs)
  {
    h := s;
    for k := 0 to |rs|
      invariant h == OrphanRuns(s, rs[..k])
    {
      var r := rs[k];
      var t := h.runs[r].task;
      assert rs[..k + 1][..k] == rs[..k];
      var graph := TaskGraph.SetStatus(h.graph, t, Paused);
      var lease := h.runs[r].lease.(released := true);
      var runs := h.runs[r := h.runs[r].(status := "orphaned", lease := lease)];
      h := h.(graph := graph, runs := runs,
              locks := ReleaseLocks(h.locks, ClaimsOfRun(h.claims, r)),
              quota := ReleaseRunQuota(h.quota, r),
              api := Api.ReleaseForRuns(h.api, {r}));
    }
    assert rs[..|rs|] == rs;
  }

  // --- Tasks ---

  lemma {:induction false} EdgeFailureStands(g: TaskGraph.Graph, t: nat, ds: seq<nat>, k: nat)
    requires k <= |ds| && TaskGraph.AddEdges(g, t, ds[..k]).Err?
    ensures TaskGraph.AddEdges(g, t, ds) == TaskGraph.AddEdges(g, t, ds[..k])
    decreases |ds|
  {
    if k < |ds| {
      assert ds[..|ds| - 1][..k] == ds[..k];
      EdgeFailureStands(g, t, ds[..|ds| - 1], k);
    } else {
      assert ds[..k] == ds;
    }
  }

  /** Dependency rows are inserted one by one. */
  method InsertDependencies(g: TaskGraph.Graph, t: nat, ds: seq<nat>)
    returns (r: Result<set<TaskGraph.Dependency>, TaskGraph.GraphError>)
    ensures r == TaskGraph.AddEdges(g, t, ds)
  {
    var deps := g.deps;
    for k := 0 to |ds|
      invariant TaskGraph.AddEdges(g, t, ds[..k]) == Ok(deps)
    {
      assert ds[..k + 1][..k] == ds[..k];
      var row := TaskGraph.Dependency(t, ds[k]);
      if ds[k] >= |g.tasks| {
        EdgeFailureStands(g, t, ds, k + 1);
        return Err(TaskGraph.DependencyNotFound);
      }
      if row in deps {
        EdgeFailureStands(g, t, ds, k + 1);
        return Err(TaskGraph.DuplicateDependency);
      }
      deps := deps + {row};
    }
    assert ds[..|ds|] == ds;
    return Ok(deps);
  }

  lemma WellFormedIsWithin(g: TaskGraph.Graph)
    requires TaskGraph.WellFormed(g)
    ensures TaskGraph.Within(g.deps, |g.tasks|)
  {
  }

  method AddTaskTx(g: TaskGraph.Graph, project: string, ds: seq<nat>, pin: Option<TaskGraph.RoutePin>)
    returns (r: Result<TaskGraph.Graph, TaskGraph.GraphError>)
    requires TaskGraph.WellFormed(g)
    ensures r == TaskGraph.AddTask(g, project, ds, pin)
  {
    if !TaskGraph.ValidPin(pin) { return Err(TaskGraph.InvalidPin); }
    var t := |g.tasks|;
    var deps := InsertDependencies(g, t, ds);
    if deps.Err? { return Err(deps.error); }
    TaskGraph.AddEdgesShape(g, t, ds);
    var drafted := TaskGraph.Graph(g.tasks + [TaskGraph.Task(project, Draft, 1, pin)], deps.value);
    WellFormedIsWithin(drafted);
    var cycle, _ := TaskGraph.DetectCycle(drafted.deps, |drafted.tasks|);
    if cycle { return Err(TaskGraph.CycleDetected); }
    if TaskGraph.DependenciesCompleted(drafted, t) { return Ok(TaskGraph.SetStatus(drafted, t, Ready)); }
    return Ok(drafted);
  }

  method AddDependencyTx(g: TaskGraph.Graph, t: nat, d: nat) returns (r: Result<TaskGraph.Graph, TaskGraph.GraphError>)
    requires TaskGraph.WellFormed(g)
    ensures r == TaskGraph.AddDependency(g, t, d)
  {
    if t >= |g.tasks| || d >= |g.tasks| { return Err(TaskGraph.TaskNotFound); }
    if g.tasks[t].status !in {Draft, Ready, Paused} { return Err(TaskGraph.NotEditable); }
    if t == d { return Err(TaskGraph.SelfDependency); }
    var row := TaskGraph.Dependency(t, d);
    if row in g.deps { return Err(TaskGraph.DuplicateDependency); }
    var linked := g.(deps := g.deps + {row});
    WellFormedIsWithin(linked);
    var cycle, _ := TaskGraph.DetectCycle(linked.deps, |linked.tasks|);
    if cycle { return Err(TaskGraph.CycleDetected); }
    if g.tasks[t].status == Ready { return Ok(TaskGraph.SetStatus(linked, t, Paused)); }
    return Ok(linked);
  }

  /** The accepted review completes, and then its waiting dependents are promoted one by one. */
  method CompleteReviewTx(g: TaskGraph.Graph, t: nat) returns (r: Result<TaskGraph.Graph, TaskGraph.GraphError>)
    requires TaskGraph.WellFormed(g)
    ensures r == TaskGraph.CompleteReview(g, t)
  {
    if t >= |g.tasks| { return Err(TaskGraph.TaskNotFound); }
    if g.tasks[t].status != Review { return Err(TaskGraph.CompareAndSwapFailed); }
    var done := TaskGraph.SetStatus(g, t, Completed);
    var candidates := TaskGraph.Promotable(done, t);
    var graph := done;
    ghost var promoted := TaskGraph.Promote(done, candidates);
    for i := 0 to |done.tasks|
      invariant graph.deps == done.deps && |graph.tasks| == |done.tasks|
      invariant forall j :: 0 <= j < i ==> graph.tasks[j] == promoted.tasks[j]
      invariant forall j :: i <= j < |done.tasks| ==> graph.tasks[j] == done.tasks[j]
    {
      if i in candidates {
        graph := TaskGraph.SetStatus(graph, i, Ready);
      }
    }
    assert graph.tasks == promoted.tasks;
    return Ok(graph);
  }

  // --- Quota evidence ---

  method UpsertTx(surfaces: seq<Surface>, provider: string, account: string, key: string,
                  observed: Option<real>, reserve: real, validUntil: Option<int>)
    returns (r: Result<seq<Surface>, StoreError>)
    ensures r == UpsertSurface(surfaces, provider, account, key, observed, reserve, validUntil)
  {
    var found := FindSurface(surfaces, provider, account, key);
    if found.Some? {
      var row := surfaces[found.value].(observed := observed, reserve := reserve, validUntil := validUntil);
      return Ok(surfaces[found.value := row]);
    }
    if SurfaceIdTaken(surfaces, SurfaceId(provider, account, key)) { return Err(SurfaceIdClash); }
    return Ok(surfaces + [Surface(provider, account, key, observed, reserve, validUntil, [])]);
  }

  lemma {:induction false} RefusedRecordingStays(surfaces: seq<Surface>, os: seq<Observation>, n: nat)
    requires n <= |os| && RecordObservations(surfaces, os[..n]).Err?
    ensures RecordObservations(surfaces, os) == RecordObservations(surfaces, os[..n])
  {
    if n < |os| {
      assert os[..|os| - 1][..n] == os[..n];
      RefusedRecordingStays(surfaces, os[..|os| - 1], n);
    } else {
      assert os[..n] == os;
    }
  }

  /** Each observation is checked and recorded in turn. */
  method RecordObservationsTx(surfaces: seq<Surface>, os: seq<Observation>) returns (r: Result<seq<Surface>, StoreError>)
    ensures r == RecordObservations(surfaces, os)
  {
    var rows := surfaces;
    for n := 0 to |os|
      invariant RecordObservations(surfaces, os[..n]) == Ok(rows)
    {
      assert os[..n + 1][..n] == os[..n];
      var o := os[n];
      var checked := CheckObservation(o);
      if checked.Err? {
        RefusedRecordingStays(surfaces, os, n + 1);
        return Err(checked.error);
      }
      var recorded := UpsertTx(rows, o.provider, o.account, o.key, o.remaining, o.reserve, Some(o.validUntil));
      if recorded.Err? {
        RefusedRecordingStays(surfaces, os, n + 1);
        return recorded;
      }
      rows := recorded.value;
    }
    assert os[..|os|] == os;
    return Ok(rows);
  }

  // --- The committed tables ---

  class Database {
    var tables: State

    ghost predicate Valid()
      reads this
    {
      Inv(tables)
    }

    constructor ()
      ensures Valid() && tables == EmptyState
    {
      tables := EmptyState;
      new;
      EmptyStateInv();
    }

    method RegisterSchedulerInstance(instance: string, hostname: string) returns (result: Result<(), StoreError>)
      requires Valid()
      modifies this
      ensures Valid() && Outcome(old(tables), RegisterInstance(old(tables), instance, hostname), tables, result)
    {
      if !NonBlank(instance) || !NonBlank(hostname) { return Err(InstanceInvalid); }
      OtherOpKeepsInv(tables, RegisterInstanceOp(instance, hostname), 0);
      tables := tables.(instances := tables.instances + {instance});
      return Ok(());
    }

    method AcquireSchedulerLeader(instance: string, ttl: nat, now: int) returns (result: Result<nat, StoreError>)
      requires Valid()
      modifies this
      ensures Valid() && Outcome(old(tables), AcquireLeader(old(tables), instance, ttl, now), tables, result)
      ensures result.Ok? ==> tables.leader == Some(Leader(instance, result.value, now + ttl))
    {
      if instance !in tables.instances { return Err(InstanceMissing); }
      var generation := 1;
      if tables.leader.Some? {
        var current := tables.leader.value;
        if current.instance == instance {
          generation := current.generation;
        } else if current.expiresAt <= now {
          generation := current.generation + 1;
        } else {
          return Err(LeaderHeld);
        }
      }
      AcquireLeaderKeepsInv(tables, instance, ttl, now);
      tables := tables.(leader := Some(Leader(instance, generation, now + ttl)));
      return Ok(generation);
    }

    method HeartbeatSchedulerLeader(instance: string, generation: nat, ttl: nat, now: int)
      returns (result: Result<(), StoreError>)
      requires Valid()
      modifies this
      ensures Valid() && Outcome(old(tables), HeartbeatLeader(old(tables), instance, generation, ttl, now), tables, result)
    {
      if !Leads(tables.leader, instance, generation, now) { return Err(LeadershipLost); }
      OtherOpKeepsInv(tables, HeartbeatLeaderOp(instance, generation, ttl), now);
      tables := tables.(leader := Some(tables.leader.value.(expiresAt := now + ttl)));
      return Ok(());
    }

    method StopSchedulerInstance(instance: string, now: int) returns (result: Result<(), StoreError>)
      requires Valid()
      modifies this
      ensures Valid() && Outcome(old(tables), StopInstance(old(tables), instance, now), tables, result)
    {
      if instance !in tables.instances { return Err(InstanceMissing); }
      StopInstanceKeepsInv(tables, instance, now);
      ClaimedTasksExist(tables);
      var s := tables.(instances := tables.instances - {instance});
      if s.leader.Some? && s.leader.value.instance == instance {
        s := s.(leader := Some(s.leader.value.(expiresAt := now)));
      }
      var h := EndClaimsTx(s, ClaimsOf(s.claims, instance), GracefulStop);
      tables := h;
      return Ok(());
    }

    method SetPauseNewWork(paused: bool, reason: Option<string>) returns (result: Result<(), StoreError>)
      requires Valid()
      modifies this
      ensures Valid() && Outcome(old(tables), SetPause(old(tables), paused, reason), tables, result)
    {
      if paused && (reason.None? || !NonBlank(reason.value)) { return Err(ReasonRequired); }
      if tables.control.emergency && !paused { return Err(EmergencyActive); }
      OtherOpKeepsInv(tables, SetPauseOp(paused, reason), 0);
      tables := tables.(control := tables.control.(pause := paused));
      return Ok(());
    }

    method ResumeOperations(reason: string) returns (result: Result<(), StoreError>)
      requires Valid()
      modifies this
      ensures Valid() && Outcome(old(tables), Resume(old(tables), reason), tables, result)
    {
      if !NonBlank(reason) { return Err(ReasonRequired); }
      OtherOpKeepsInv(tables, ResumeOp(reason), 0);
      tables := tables.(control := Control(false, false));
      return Ok(());
    }

    method StopEverything(reason: string) returns (result: Result<(), StoreError>)
      requires Valid()
      modifies this
      ensures Valid() && Outcome(old(tables), EmergencyStop(old(tables), reason), tables, result)
    {
      if !NonBlank(reason) { return Err(ReasonRequired); }
      EmergencyStopKeepsInv(tables, reason);
      ClaimedTasksExist(tables);
      var s := tables.(control := Control(true, true));
      var runs := CancelRuns(s.runs, s.graph.tasks);
      s := s.(runs := runs);
      var h := EndClaimsTx(s, ActiveClaims(s.claims), Emergency);
      tables := h;
      return Ok(());
    }

    method AddTask(project: string, dependencies: seq<nat>, pin: Option<TaskGraph.RoutePin>)
      returns (result: Result<nat, StoreError>)
      requires Valid()
      modifies this
      ensures Valid()
      ensures Outcome(
                old(tables), WithGraph(old(tables), TaskGraph.AddTask(old(tables).graph, project, dependencies, pin)),
                tables, result)
    {
      var graph := AddTaskTx(tables.graph, project, dependencies, pin);
      if graph.Err? { return Err(GraphFailure(graph.error)); }
      AddTaskKeepsAll(tables, project, dependencies, pin);
      result := Ok(|tables.graph.tasks|);
      tables := tables.(graph := graph.value);
    }

    method SetTaskRoutePin(t: nat, pin: Option<TaskGraph.RoutePin>, reason: string) returns (result: Result<(), StoreError>)
      requires Valid()
      modifies this
      ensures Valid()
      ensures Outcome(
                old(tables), WithGraph(old(tables), TaskGraph.SetRoutePin(old(tables).graph, t, pin, reason)), tables, result)
    {
      var graph := TaskGraph.SetRoutePin(tables.graph, t, pin, reason);
      if graph.Err? { return Err(GraphFailure(graph.error)); }
      SetRoutePinKeepsAll(tables, t, pin, reason);
      tables := tables.(graph := graph.value);
      return Ok(());
    }

    method AddDependency(t: nat, d: nat) returns (result: Result<(), StoreError>)
      requires Valid()
      modifies this
      ensures Valid()
      ensures Outcome(old(tables), WithGraph(old(tables), TaskGraph.AddDependency(old(tables).graph, t, d)), tables, result)
    {
      var graph := AddDependencyTx(tables.graph, t, d);
      if graph.Err? { return Err(GraphFailure(graph.error)); }
      AddDependencyKeepsAll(tables, t, d);
      tables := tables.(graph := graph.value);
      return Ok(());
    }

    method CompleteReview(t: nat) returns (result: Result<(), StoreError>)
      requires Valid()
      modifies this
      ensures Valid()
      ensures Outcome(old(tables), WithGraph(old(tables), TaskGraph.CompleteReview(old(tables).graph, t)), tables, result)
    {
      var graph := CompleteReviewTx(tables.graph, t);
      if graph.Err? { return Err(GraphFailure(graph.error)); }
      CompleteReviewKeepsAll(tables, t);
      tables := tables.(graph := graph.value);
      return Ok(());
    }

    /** A bare transition keeps the tables in agreement unless it leases or completes past the scheduler. */
    method TransitionTask(t: nat, expected: TaskStatus, next: TaskStatus) returns (result: Result<(), StoreError>)
      requires Valid()
      modifies this
      ensures Outcome(
                old(tables), WithGraph(old(tables), TaskGraph.TransitionTask(old(tables).graph, t, expected, next)),
                tables, result)
      ensures Disciplined(TransitionTaskOp(t, expected, next)) ==> Valid()
    {
      var graph := TaskGraph.TransitionTask(tables.graph, t, expected, next);
      if graph.Err? { return Err(GraphFailure(graph.error)); }
      if Disciplined(TransitionTaskOp(t, expected, next)) {
        TransitionKeepsAll(tables, t, expected, next);
      }
      hide Inv;
      tables := tables.(graph := graph.value);
      return Ok(());
    }

    method ClaimTaskForScheduler(r: ClaimRequest, now: int) returns (result: Result<nat, StoreError>)
      requires Valid()
      modifies this
      ensures Valid() && Outcome(old(tables), ClaimTask(old(tables), r, now), tables, result)
      ensures result.Ok? ==> result.value < |tables.claims| && tables.claims[result.value] == NewClaim(r, now)
    {
      ClaimedTasksExist(tables);
      var claimed := ClaimTx(tables, r, now);
      if claimed.Err? { return Err(claimed.error); }
      ClaimTaskKeepsInv(tables, r, now);
      ClaimIsAppended(tables, r, now);
      hide Inv, ClaimTask;
      result := Ok(|tables.claims|);
      tables := claimed.value;
    }

    method HeartbeatSchedulerClaims(instance: string, generation: nat, ttl: nat, now: int)
      returns (result: Result<(), StoreError>)
      requires Valid()
      modifies this
      ensures Valid() && Outcome(old(tables), HeartbeatClaims(old(tables), instance, generation, ttl, now), tables, result)
    {
      if !Leads(tables.leader, instance, generation, now) { return Err(LeadershipLost); }
      ClaimedTasksExist(tables);
      HeartbeatClaimsKeepsInv(tables, instance, generation, ttl, now);
      var swept := EndClaimsTx(tables, OverdueClaims(tables.claims, now), Expiry);
      var renewed := RenewedSet(swept.claims, instance, generation);
      tables := swept.(claims := RenewClaims(swept.claims, instance, generation, now + ttl),
                       quota := RenewQuota(swept.quota, renewed, now + ttl),
                       api := Api.ExtendForClaims(swept.api, renewed, now + ttl));
      return Ok(());
    }

    method BeginRun(c: nat, instance: string, generation: nat, runId: string, adapter: string, ttl: nat, now: int)
      returns (result: Result<nat, StoreError>)
      requires Valid()
      modifies this
      ensures Valid()
      ensures Outcome(
                old(tables), BeginClaimedRun(old(tables), c, instance, generation, runId, adapter, ttl, now), tables, result)
      ensures result.Ok? ==> result.value == |old(tables).runs|
    {
      ClaimedTasksExist(tables);
      var begun := BeginClaimedRun(tables, c, instance, generation, runId, adapter, ttl, now);
      if begun.Err? { return Err(begun.error); }
      BeginClaimedRunKeepsInv(tables, c, instance, generation, runId, adapter, ttl, now);
      result := Ok(|tables.runs|);
      tables := begun.value;
    }

    method RecoverExpiredSchedulerClaims(now: int)
      requires Valid()
      modifies this
      ensures Valid() && tables == ExpireClaims(old(tables), now)
    {
      ClaimedTasksExist(tables);
      SweepKeepsInv(tables, now);
      var h := EndClaimsTx(tables, OverdueClaims(tables.claims, now), Expiry);
      tables := h;
    }

    method ApplyRunCheckpoint(r: nat, owner: string, generation: nat, ttl: nat, action: CheckpointAction, now: int)
      returns (result: Result<(), StoreError>)
      requires Valid()
      modifies this
      ensures Valid()
      ensures Outcome(old(tables), Checkpoint(old(tables), r, owner, generation, ttl, action, now), tables, result)
    {
      if r >= |tables.runs| || tables.runs[r].lease.released || tables.runs[r].lease.owner != owner {
        return Err(LeaseMissing);
      }
      var run := tables.runs[r];
      if run.lease.generation != generation || run.lease.expiresAt <= now { return Err(LeaseFenced); }
      if !AtWork(run, tables.graph.tasks) { return Err(NotRunning); }
      CheckpointKeepsInv(tables, r, owner, generation, ttl, action, now);
      run := run.(lease := run.lease.(expiresAt := now + ttl));
      if action == Pause || action == Cancel {
        var requested := if action == Pause then "pause" else "cancel";
        run := run.(cancellation := CancelRequested, requestedAction := Some(requested));
      }
      tables := tables.(runs := tables.runs[r := run], quota := ExtendRunQuota(tables.quota, r, now + ttl));
      return Ok(());
    }

    method RequestRunCancellation(r: nat) returns (result: Result<(), StoreError>)
      requires Valid()
      modifies this
      ensures Valid() && Outcome(old(tables), RequestCancellation(old(tables), r), tables, result)
    {
      if r >= |tables.runs| || tables.runs[r].status != "running" { return Err(RunMissing); }
      RequestCancellationKeepsInv(tables, r);
      if tables.runs[r].cancellation == NotRequested {
        var run := tables.runs[r].(cancellation := CancelRequested, requestedAction := Some("cancel"));
        tables := tables.(runs := tables.runs[r := run]);
      }
      return Ok(());
    }

    method RecordProcessOutcome(r: nat, failure: Option<FailureCategory>) returns (result: Result<(), StoreError>)
      requires Valid()
      modifies this
      ensures Valid() && Outcome(old(tables), RecordOutcome(old(tables), r, failure), tables, result)
    {
      var recorded := RecordOutcome(tables, r, failure);
      if recorded.Err? { return Err(recorded.error); }
      RecordOutcomeKeepsInv(tables, r, failure);
      tables := recorded.value;
      return Ok(());
    }

    method Finish(r: nat, status: string) returns (result: Result<(), StoreError>)
      requires Valid()
      modifies this
      ensures Valid() && Outcome(old(tables), FinishRun(old(tables), r, status), tables, result)
    {
      var finished := FinishRun(tables, r, status);
      if finished.Err? { return Err(finished.error); }
      FinishRunKeepsInv(tables, r, status);
      tables := finished.value;
      return Ok(());
    }

    method RecoverExpiredLeases(now: int)
      requires Valid()
      modifies this
      ensures Valid() && tables == RecoverLeases(old(tables), now)
    {
      RecoverLeasesKeepsInv(tables, now);
      var h := OrphanRunsTx(tables, OverdueRuns(tables.runs, tables.graph.tasks, now, |tables.runs|));
      tables := h;
    }

    method SetQuotaObservation(provider: string, account: string, key: string,
                               observed: Option<real>, reserve: real, unknownReason: Option<string>)
      returns (result: Result<(), StoreError>)
      requires Valid()
      modifies this
      ensures Valid()
      ensures Outcome(
                old(tables), ObserveQuota(old(tables), provider, account, key, observed, reserve, unknownReason), tables, result)
    {
      if observed.Some? && !ValidPercentage(observed.value) { return Err(InvalidPercentage); }
      if !ValidPercentage(reserve) { return Err(InvalidPercentage); }
      if observed.None? && unknownReason.None? { return Err(UnknownReasonRequired); }
      var recorded := UpsertTx(tables.surfaces, provider, account, key, observed, reserve, None);
      if recorded.Err? { return Err(recorded.error); }
      ObserveKeepsInv(tables, provider, account, key, observed, reserve, unknownReason);
      tables := tables.(surfaces := recorded.value);
      return Ok(());
    }

    method RecordQuotaObservations(os: seq<Observation>) returns (result: Result<(), StoreError>)
      requires Valid()
      modifies this
      ensures Valid() && Outcome(old(tables), RefreshQuota(old(tables), os), tables, result)
    {
      if os == [] { return Err(NoObservations); }
      var recorded := RecordObservationsTx(tables.surfaces, os);
      if recorded.Err? { return Err(recorded.error); }
      RefreshKeepsInv(tables, os);
      tables := tables.(surfaces := recorded.value);
      return Ok(());
    }

    method OverrideSurfaceQuota(provider: string, account: string, key: string,
                                effective: real, reason: string, expiresAt: Option<int>)
      returns (result: Result<(), StoreError>)
      requires Valid()
      modifies this
      ensures Valid()
      ensures Outcome(
                old(tables), OverrideQuota(old(tables), provider, account, key, effective, reason, expiresAt), tables, result)
    {
      if !ValidPercentage(effective) { return Err(InvalidPercentage); }
      if !NonBlank(reason) { return Err(ReasonRequired); }
      var found := FindSurface(tables.surfaces, provider, account, key);
      if found.None? { return Err(SurfaceMissing); }
      OverrideKeepsInv(tables, provider, account, key, effective, reason, expiresAt);
      var surface := tables.surfaces[found.value];
      surface := surface.(overrides := surface.overrides + [Override(effective, expiresAt)]);
      tables := tables.(surfaces := tables.surfaces[found.value := surface]);
      return Ok(());
    }

    // --- The API ledger ---

    /** Every ledger transaction but the two with loops below. */
    method TransactLedger(op: Api.LedgerOp, now: int) returns (result: Result<(), StoreError>)
      requires Valid() && !op.ReserveOp? && !op.RecoverReservationsOp?
      modifies this
      ensures Valid() && Outcome(old(tables), ApplyLedger(old(tables), op, now), tables, result)
    {
      var api := Api.Apply(tables.api, op, now);
      if api.Err? { return Err(ApiFailure(api.error)); }
      LedgerOpKeepsInv(tables, op, now);
      tables := tables.(api := api.value);
      return Ok(());
    }

    method ReserveApiBudget(r: Api.Request, now: int) returns (result: Result<(), StoreError>)
      requires Valid()
      modifies this
      ensures Valid() && Outcome(old(tables), ApplyLedger(old(tables), Api.ReserveOp(r), now), tables, result)
    {
      hide Api.ValidRequest, Api.ReserveTx;
      var taskProject := if r.task < |tables.graph.tasks| then Some(tables.graph.tasks[r.task].project) else None;
      var request := r.(taskProject := taskProject, now := now);
      if !Api.ValidRequest(request) { return Err(ApiFailure(Api.InvalidRequest)); }
      var api := ReserveApiTx(tables.api, request, None);
      if api.Err? { return Err(ApiFailure(api.error)); }
      LedgerOpKeepsInv(tables, Api.ReserveOp(r), now);
      tables := tables.(api := api.value);
      return Ok(());
    }

    method RecoverExpiredApiReservations(now: int)
      requires Valid()
      modifies this
      ensures Valid() && ApplyLedger(old(tables), Api.RecoverReservationsOp, now) == Ok(tables)
    {
      var api := ExpireActiveReservations(tables.api, now);
      LedgerOpKeepsInv(tables, Api.RecoverReservationsOp, now);
      tables := tables.(api := api);
    }
  }
}
