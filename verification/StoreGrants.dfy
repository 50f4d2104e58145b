/**
 Exactly when a claim is granted, and everything a grant, a heartbeat and the end of a run write.
 */
module StoreGrants {
  import opened Prelude
  import opened Domain
  import opened Store
  import opened StoreInvariant
  import opened StoreSteps
  import TaskGraph
  import Api = ApiBudget
  import Admission = ApiAdmission
  import Quota = StoreQuota
  import Slots = StoreSlots

  // --- What a claim needs ---

  /** Limits, when given, are positive, and the forecast is a percentage. */
  predicate WellFormedRequest(r: ClaimRequest) {
    && r.maxActive > 0
    && (r.limits.Some? ==>
          && r.limits.value.perAdapter > 0 && r.limits.value.perAccount > 0
          && 0.0 <= r.limits.value.forecast <= 100.0)
  }

  /** The leader asks, and nothing holds work back. */
  predicate MayClaim(s: State, r: ClaimRequest, now: int) {
    && s.leader.Some? && s.leader.value.instance == r.instance && s.leader.value.generation == r.generation
    && now < s.leader.value.expiresAt
    && !s.control.pause && !s.control.emergency
  }

  /** The task is ready as it was read, waits for nothing and is not claimed. */
  predicate Claimable(s: State, r: ClaimRequest)
    requires TaskGraph.WellFormed(s.graph)
  {
    && r.task < |s.graph.tasks| && s.graph.tasks[r.task].status == Ready && s.graph.tasks[r.task].version == r.version
    && (forall d :: d in s.graph.deps && d.task == r.task ==> s.graph.tasks[d.on].status == Completed)
    && (forall c :: 0 <= c < |s.claims| && s.claims[c].task == r.task ==> s.claims[c].status != ClaimActive)
  }

  ghost predicate SlotFree(locks: seq<Lock>, kind: string, owner: string, limit: nat) {
    exists k :: 0 <= k < limit && NotLocked(locks, Resource(kind, SlotKey(owner, k)))
  }

  ghost predicate NotLocked(locks: seq<Lock>, r: Resource) {
    forall l :: 0 <= l < |locks| && locks[l].resource == r ==> locks[l].released
  }

  /** An allowed route on record ties the task to the account, and to the adapter if one is named. */
  predicate RoutedTo(s: State, r: ClaimRequest) {
    && r.limits.Some? && r.route.Some? && r.route.value < |s.routes|
    && s.routes[r.route.value].task == r.task && s.routes[r.route.value].allowed
    && s.routes[r.route.value].provider == Some(r.limits.value.provider)
    && s.routes[r.route.value].account == Some(r.limits.value.account)
  }

  predicate OnItsAccount(surface: Surface, r: ClaimRequest) {
    r.limits.Some? && surface.provider == r.limits.value.provider && surface.account == r.limits.value.account
  }

  /** A subscription claim needs a routed account with quota surfaces, each with room for the forecast. */
  ghost predicate QuotaAllows(s: State, r: ClaimRequest, now: int) {
    r.limits.Some? && r.limits.value.adapter != "api" && r.route.Some? ==>
      && RoutedTo(s, r)
      && (exists i :: 0 <= i < |s.surfaces| && OnItsAccount(s.surfaces[i], r))
      && (forall i :: 0 <= i < |s.surfaces| && OnItsAccount(s.surfaces[i], r) ==>
            Quota.Fits(s.surfaces[i], Live(s.quota, i, now) + r.limits.value.forecast, now))
  }

  lemma SweptQuotaIsLive(quota: seq<QuotaRow>, surface: nat, now: int)
    ensures Live(ExpireQuota(quota, now), surface, now) == Live(quota, surface, now)
  {
    assert LiveWeights(ExpireQuota(quota, now), surface, now) == LiveWeights(quota, surface, now);
  }

  lemma QuotaAllowsExactly(s: State, r: ClaimRequest, now: int)
    requires WellFormedRequest(r)
    ensures ClaimQuota(s, r, now).Ok? <==> QuotaAllows(s, r, now)
  {
    if WantsQuota(r) {
      var f, swept := ForecastOf(s, r, now), ExpireQuota(s.quota, now);
      Quota.ReservingSucceedsExactly(swept, s.surfaces, f, |s.surfaces|, now);
      forall i: nat | i < |s.surfaces|
        ensures Live(swept, i, now) == Live(s.quota, i, now)
        ensures OnAccount(s.surfaces[i], f) <==> OnItsAccount(s.surfaces[i], r)
      {
        SweptQuotaIsLive(s.quota, i, now);
      }
      hide Live, ReserveSurfaces, ExpireQuota, Quota.Fits;
    }
  }

  /** A slot of the adapter and one of the account are free. */
  ghost predicate SlotsAllow(s: State, r: ClaimRequest) {
    r.limits.Some? ==>
      && SlotFree(s.locks, "adapter-slot", r.limits.value.adapter, r.limits.value.perAdapter)
      && SlotFree(s.locks, "account-slot", r.limits.value.provider + ":" + r.limits.value.account, r.limits.value.perAccount)
  }

  lemma SlotFreeExactly(locks: seq<Lock>, claim: nat, kind: string, owner: string, limit: nat)
    ensures AcquireSlot(locks, claim, kind, owner, limit).Some? <==> SlotFree(locks, kind, owner, limit)
  {
    Slots.SlotRefusedExactlyWhenAllTaken(locks, claim, kind, owner, limit);
    hide AcquireSlot, SlotKey;
    assert forall k :: 0 <= k < limit ==>
      (NotLocked(locks, Resource(kind, SlotKey(owner, k))) <==> !Occupied(locks, Resource(kind, SlotKey(owner, k))));
  }

  /** A lock on another resource takes no slot of this kind. */
  lemma OtherKindLeavesSlots(locks: seq<Lock>, lock: Lock, kind: string, owner: string, limit: nat)
    requires lock.resource.kind != kind
    ensures SlotFree(locks + [lock], kind, owner, limit) <==> SlotFree(locks, kind, owner, limit)
  {
    forall x: Resource | x.kind == kind
      ensures NotLocked(locks + [lock], x) <==> NotLocked(locks, x)
    {
      var more := locks + [lock];
      assert more[|locks|] == lock && forall l :: 0 <= l < |locks| ==> more[l] == locks[l];
    }
  }

  lemma SlotsAllowExactly(s: State, r: ClaimRequest)
    ensures ClaimSlots(s, r).Ok? <==> SlotsAllow(s, r)
  {
    if r.limits.Some? {
      var l, c := r.limits.value, |s.claims|;
      SlotFreeExactly(s.locks, c, ADAPTER_SLOT, l.adapter, l.perAdapter);
      Slots.SlotRefusedExactlyWhenAllTaken(s.locks, c, ADAPTER_SLOT, l.adapter, l.perAdapter);
      var withAdapter := AcquireSlot(s.locks, c, ADAPTER_SLOT, l.adapter, l.perAdapter);
      if withAdapter.Some? {
        SlotFreeExactly(withAdapter.value, c, ACCOUNT_SLOT, AccountOwner(l), l.perAccount);
        assert "adapter-slot"[1] != "account-slot"[1];
        OtherKindLeavesSlots(s.locks, withAdapter.value[|s.locks|], ACCOUNT_SLOT, AccountOwner(l), l.perAccount);
      }
      hide AcquireSlot, SlotFree;
    }
  }

  /** The resources are different ones, and none of them is locked. */
  ghost predicate AllFree(locks: seq<Lock>, resources: seq<Resource>) {
    && (forall k :: 0 <= k < |resources| ==> NotLocked(locks, resources[k]))
    && (forall j, k :: 0 <= j < k < |resources| ==> resources[j] != resources[k])
  }

  lemma {:induction false} LockedExactlyWhenFree(locks: seq<Lock>, claim: nat, resources: seq<Resource>)
    ensures LockResources(locks, claim, resources).Ok? <==> AllFree(locks, resources)
  {
    if resources != [] {
      var n := |resources| - 1;
      var front, last := resources[..n], resources[n];
      LockedExactlyWhenFree(locks, claim, front);
      if LockResources(locks, claim, front).Ok? {
        LockResourcesShape(locks, claim, front);
        LastIsFreeExactly(locks, LockResources(locks, claim, front).value, claim, front, last);
      }
      FreeOneMore(locks, resources);
    }
  }

  lemma FreeOneMore(locks: seq<Lock>, resources: seq<Resource>)
    requires resources != []
    ensures
      var n := |resources| - 1;
      AllFree(locks, resources) <==>
        && AllFree(locks, resources[..n]) && NotLocked(locks, resources[n])
        && forall k :: 0 <= k < n ==> resources[k] != resources[n]
  {
    hide NotLocked;
    var n := |resources| - 1;
    assert forall k :: 0 <= k < n ==> resources[..n][k] == resources[k];
  }

  lemma LastIsFreeExactly(locks: seq<Lock>, h: seq<Lock>, claim: nat, front: seq<Resource>, last: Resource)
    requires locks <= h && |h| == |locks| + |front|
    requires forall i :: |locks| <= i < |h| ==> h[i] == Lock(front[i - |locks|], claim, false)
    ensures !Occupied(h, last) <==> NotLocked(locks, last) && forall k :: 0 <= k < |front| ==> front[k] != last
  {
    if NotLocked(locks, last) && forall k :: 0 <= k < |front| ==> front[k] != last {
      forall i | 0 <= i < |h| && h[i].resource == last
        ensures h[i].released
      {
        if i < |locks| { assert h[i] == locks[i]; }
      }
    }
    if k :| 0 <= k < |front| && front[k] == last {
      assert h[|locks| + k] == Lock(last, claim, false);
    }
    if l :| 0 <= l < |locks| && locks[l].resource == last && !locks[l].released {
      assert h[l] == locks[l];
    }
  }

  /** The project of the task and every named resource. */
  function Wanted(s: State, r: ClaimRequest): seq<Resource>
    requires r.task < |s.graph.tasks|
  {
    [Resource("project", s.graph.tasks[r.task].project)] + r.resources
  }

  /** The paid request a claim brings, for the project of its task and as long as the claim. */
  function PaidRequest(s: State, r: ClaimRequest, now: int): Api.Request
    requires r.task < |s.graph.tasks| && r.limits.Some? && r.reservation.Some?
  {
    var project, paid := s.graph.tasks[r.task].project, r.reservation.value;
    Api.Request(
      project, r.task, Some(project), r.limits.value.provider, r.limits.value.account, paid.model, paid.role, paid.digest,
      paid.currency, paid.inputTokens, paid.outputTokens, paid.attempts, now, now + r.ttl)
  }

  /** A paid claim is routed to the account over the API, and its request is admitted for the claim to be. */
  predicate ApiAllows(s: State, r: ClaimRequest, now: int)
    requires r.task < |s.graph.tasks|
  {
    r.reservation.Some? ==>
      && RoutedTo(s, r) && s.routes[r.route.value].adapter == Some("api")
      && Api.ValidRequest(PaidRequest(s, r, now))
      && Api.ReserveTx(s.api, PaidRequest(s, r, now), Some(|s.claims|)).Ok?
  }

  lemma ApiAllowsExactly(s: State, r: ClaimRequest, now: int)
    requires r.task < |s.graph.tasks|
    ensures ClaimApi(s, r, now).Ok? <==> ApiAllows(s, r, now)
  {
    hide Api.ReserveTx, Api.ValidRequest;
  }

  /** Everything the claim is to hold can be had. */
  ghost predicate CanHold(s: State, r: ClaimRequest, now: int)
    requires r.task < |s.graph.tasks|
  {
    && SlotsAllow(s, r) && QuotaAllows(s, r, now) && ApiAllows(s, r, now)
    && ClaimSlots(s, r).Ok? && AllFree(ClaimSlots(s, r).value, Wanted(s, r))
  }

  lemma AcquiredExactly(s: State, r: ClaimRequest, now: int)
    requires WellFormedRequest(r) && r.task < |s.graph.tasks|
    ensures AcquireForClaim(s, r, now).Ok? <==> CanHold(s, r, now)
  {
    SlotsAllowExactly(s, r);
    QuotaAllowsExactly(s, r, now);
    ApiAllowsExactly(s, r, now);
    if ClaimSlots(s, r).Ok? { LockedExactlyWhenFree(ClaimSlots(s, r).value, |s.claims|, Wanted(s, r)); }
    hide ClaimSlots, ClaimQuota, LockResources, ClaimApi, SlotsAllow, QuotaAllows, ApiAllows, AllFree;
  }

  /** Who may claim what, in the words of the source. */
  lemma CheckedExactly(s: State, r: ClaimRequest, now: int)
    requires TaskGraph.WellFormed(s.graph)
    ensures CheckClaim(s, r, now).Ok? <==> LiveClaims(s.claims, now) < r.maxActive && Claimable(s, r)
  {
    hide LiveClaims;
  }

  /**
   A claim is granted exactly when its request is well formed, the leader makes it while nothing holds work back,
   and in the tables as the sweep leaves them fewer claims are active than allowed, the task can be claimed, and
   its slots, its quota, its resources and its paid request can all be had.
   */
  lemma ClaimGrantedExactly(s: State, r: ClaimRequest, now: int)
    requires Inv(s)
    ensures
      var swept := ExpireClaims(s, now);
      TaskGraph.WellFormed(swept.graph)
      && (ClaimTask(s, r, now).Ok? <==>
            && WellFormedRequest(r) && MayClaim(s, r, now)
            && |Slots.ActiveSet(swept.claims)| < r.maxActive
            && Claimable(swept, r) && CanHold(swept, r, now))
  {
    SweptIsWellFormed(s, now);
    hide Inv, ExpireClaims, ClaimTask, TaskGraph.WellFormed, Claimable, CanHold, LiveClaims, WellFormedRequest, MayClaim;
    var swept := ExpireClaims(s, now);
    GrantInSteps(s, r, now);
    SweptClaims(s, now);
    CheckedExactly(swept, r, now);
    ClaimableHasTask(swept, r);
    hide CheckClaim, AcquireForClaim;
    if WellFormedRequest(r) && r.task < |swept.graph.tasks| { AcquiredExactly(swept, r, now); }
  }

  lemma SweptIsWellFormed(s: State, now: int)
    requires Inv(s)
    ensures TaskGraph.WellFormed(s.graph) && TaskGraph.WellFormed(ExpireClaims(s, now).graph)
  {
    SweepKeepsInv(s, now);
  }

  lemma GrantInSteps(s: State, r: ClaimRequest, now: int)
    requires TaskGraph.WellFormed(s.graph) && TaskGraph.WellFormed(ExpireClaims(s, now).graph)
    ensures
      var swept := ExpireClaims(s, now);
      ClaimTask(s, r, now).Ok? <==>
        && WellFormedRequest(r) && MayClaim(s, r, now)
        && CheckClaim(swept, r, now).Ok? && r.task < |swept.graph.tasks| && AcquireForClaim(swept, r, now).Ok?
  {
    hide ExpireClaims, AcquireForClaim, TaskGraph.WellFormed, LiveClaims, HasActiveClaim, TaskGraph.DependenciesCompleted;
  }

  lemma ClaimableHasTask(s: State, r: ClaimRequest)
    requires TaskGraph.WellFormed(s.graph)
    ensures Claimable(s, r) ==> r.task < |s.graph.tasks|
  {
  }

  lemma SweptClaims(s: State, now: int)
    ensures |Slots.ActiveSet(ExpireClaims(s, now).claims)| == LiveClaims(ExpireClaims(s, now).claims, now)
  {
    SweepExpiresExactly(s, now);
    hide ExpireClaims;
    Slots.LiveClaimsCountsActive(ExpireClaims(s, now).claims, now);
  }

  // --- What a grant writes ---

  /** One new row for every surface of the account, for the forecast and as long as the claim; overdue rows expire. */
  ghost predicate QuotaGranted(s: State, quota: seq<QuotaRow>, r: ClaimRequest, now: int) {
    if r.limits.Some? && r.limits.value.adapter != "api" && r.route.Some? then
      && |s.quota| <= |quota|
      && (forall i :: 0 <= i < |s.quota| ==> quota[i] == SweptRow(s.quota[i], now))
      && (forall i :: |s.quota| <= i < |quota| ==>
            && quota[i].surface < |s.surfaces| && OnItsAccount(s.surfaces[quota[i].surface], r)
            && quota[i] == QuotaRow(quota[i].surface, r.task, |s.claims|, None, r.limits.value.forecast, QuotaActive,
                                    now + r.ttl))
      && (forall i, j :: |s.quota| <= i < j < |quota| ==> quota[i].surface < quota[j].surface)
      && (forall x :: 0 <= x < |s.surfaces| && OnItsAccount(s.surfaces[x], r) ==> HasNewRow(quota, |s.quota|, x))
    else quota == s.quota
  }

  function SweptRow(row: QuotaRow, now: int): QuotaRow {
    if (row.status == QuotaActive || row.status == QuotaRunning) && row.expiresAt <= now
    then row.(status := QuotaExpired) else row
  }

  ghost predicate HasNewRow(quota: seq<QuotaRow>, from: nat, surface: nat) {
    exists i :: from <= i < |quota| && quota[i].surface == surface
  }

  lemma {:induction false} ReservedRows(quota: seq<QuotaRow>, surfaces: seq<Surface>, f: Forecast, n: nat, now: int)
    requires n <= |surfaces| && ReserveSurfaces(quota, surfaces, f, n, now).Ok?
    ensures
      var h := ReserveSurfaces(quota, surfaces, f, n, now).value;
      && quota <= h
      && (forall i :: |quota| <= i < |h| ==>
            h[i].surface < n && OnAccount(surfaces[h[i].surface], f) && h[i] == NewQuotaRow(h[i].surface, f))
      && (forall i, j :: |quota| <= i < j < |h| ==> h[i].surface < h[j].surface)
      && (forall x :: 0 <= x < n && OnAccount(surfaces[x], f) ==> HasNewRow(h, |quota|, x))
  {
    hide HasNewRow, CheckSurface, Live;
    if n > 0 {
      ReservedRows(quota, surfaces, f, n - 1, now);
      var before, h := ReserveSurfaces(quota, surfaces, f, n - 1, now).value, ReserveSurfaces(quota, surfaces, f, n, now).value;
      forall x | 0 <= x < n && OnAccount(surfaces[x], f)
        ensures HasNewRow(h, |quota|, x)
      {
        if x < n - 1 { NewRowStays(before, h, |quota|, x); } else { LastRowIsNew(h, |quota|, x); }
      }
    }
  }

  lemma NewRowStays(before: seq<QuotaRow>, h: seq<QuotaRow>, from: nat, surface: nat)
    requires before <= h && HasNewRow(before, from, surface)
    ensures HasNewRow(h, from, surface)
  {
    var i :| from <= i < |before| && before[i].surface == surface;
    assert h[i] == before[i];
  }

  lemma LastRowIsNew(h: seq<QuotaRow>, from: nat, surface: nat)
    requires from < |h| && h[|h| - 1].surface == surface
    ensures HasNewRow(h, from, surface)
  {
  }

  lemma ClaimQuotaGrants(s: State, r: ClaimRequest, now: int)
    requires ClaimQuota(s, r, now).Ok?
    ensures QuotaGranted(s, ClaimQuota(s, r, now).value, r, now)
  {
    if WantsQuota(r) {
      var f, swept := ForecastOf(s, r, now), ExpireQuota(s.quota, now);
      ReservedRows(swept, s.surfaces, f, |s.surfaces|, now);
      hide ReserveSurfaces, HasNewRow;
      assert forall x :: 0 <= x < |s.surfaces| ==> (OnAccount(s.surfaces[x], f) <==> OnItsAccount(s.surfaces[x], r));
    }
  }

  /** The reservation of a paid claim is added, after the overdue ones have expired; nothing else in the ledger changes. */
  predicate ApiGranted(s: State, api: Api.Ledger, r: ClaimRequest, now: int)
    requires r.task < |s.graph.tasks|
  {
    if r.reservation.Some? then
      && r.limits.Some? && api == s.api.(reservations := api.reservations)
      && |api.reservations| == |s.api.reservations| + 1
      && (forall i :: 0 <= i < |s.api.reservations| ==>
            api.reservations[i]
            == if s.api.reservations[i].status == Api.Active && s.api.reservations[i].expiresAt <= now
               then s.api.reservations[i].(status := Api.Expired) else s.api.reservations[i])
      && Admission.RowForRequest(api.reservations[|s.api.reservations|], PaidRequest(s, r, now), Some(|s.claims|))
    else api == s.api
  }

  lemma ClaimApiGrants(s: State, r: ClaimRequest, now: int)
    requires r.task < |s.graph.tasks| && ClaimApi(s, r, now).Ok?
    ensures ApiGranted(s, ClaimApi(s, r, now).value, r, now)
  {
    if r.reservation.Some? {
      Admission.AdmittedUnderTheLatestRevision(s.api, ApiRequest(s, r, now), Some(|s.claims|));
      hide Api.ValidRequest, Api.CheckPolicy, Api.CheckTotals, Api.CheckUnique;
    }
  }

  /**
   A grant, on the tables the sweep leaves: the claim is added for as long as it asked, with its route, its task is
   leased and one version on, and its quota and its paid request are reserved for it.
   */
  lemma GrantWrites(s: State, r: ClaimRequest, now: int)
    requires TaskGraph.WellFormed(s.graph) && ClaimTask(s, r, now).Ok?
    ensures
      var swept, h := ExpireClaims(s, now), ClaimTask(s, r, now).value;
      && r.task < |swept.graph.tasks|
      && h.claims == swept.claims + [Claim(r.task, r.instance, r.generation, ClaimActive, now + r.ttl, r.route, None)]
      && h.graph.deps == swept.graph.deps && |h.graph.tasks| == |swept.graph.tasks|
      && (forall t :: 0 <= t < |h.graph.tasks| ==>
            h.graph.tasks[t]
            == if t == r.task
               then swept.graph.tasks[t].(status := TaskStatus.Leased, version := swept.graph.tasks[t].version + 1)
               else swept.graph.tasks[t])
      && h.runs == swept.runs && QuotaGranted(swept, h.quota, r, now) && ApiGranted(swept, h.api, r, now)
  {
    hide ExpireClaims, QuotaGranted, ApiGranted, ClaimSlots, LockResources, TaskGraph.WellFormed;
    var swept := ExpireClaims(s, now);
    ClaimQuotaGrants(swept, r, now);
    ClaimApiGrants(swept, r, now);
    hide ClaimQuota, ClaimApi;
  }

  // --- What a heartbeat writes ---

  /** The claim is one of the asking leader's that is still active after the sweep. */
  predicate Renewed(claims: seq<Claim>, c: nat, instance: string, generation: nat) {
    && c < |claims| && claims[c].status == ClaimActive
    && claims[c].instance == instance && claims[c].generation == generation
  }

  /**
   A heartbeat is the leader's, and on the tables the sweep leaves it extends exactly the leader's active claims,
   their waiting quota and their undispatched paid requests.
   */
  lemma HeartbeatWrites(s: State, instance: string, generation: nat, ttl: nat, now: int)
    ensures HeartbeatClaims(s, instance, generation, ttl, now).Ok? <==>
              && s.leader.Some? && s.leader.value.instance == instance && s.leader.value.generation == generation
              && now < s.leader.value.expiresAt
    ensures HeartbeatClaims(s, instance, generation, ttl, now).Ok? ==>
              var w, h := ExpireClaims(s, now), HeartbeatClaims(s, instance, generation, ttl, now).value;
              && |h.claims| == |w.claims| && |h.quota| == |w.quota| && |h.api.reservations| == |w.api.reservations|
              && h == w.(claims := h.claims, quota := h.quota, api := w.api.(reservations := h.api.reservations))
              && (forall c: nat :: c < |w.claims| ==>
                    h.claims[c] == if Renewed(w.claims, c, instance, generation)
                                   then w.claims[c].(expiresAt := now + ttl) else w.claims[c])
              && (forall i :: 0 <= i < |w.quota| ==>
                    h.quota[i] == if Renewed(w.claims, w.quota[i].claim, instance, generation)
                                     && w.quota[i].status == QuotaActive
                                  then w.quota[i].(expiresAt := now + ttl) else w.quota[i])
              && (forall i :: 0 <= i < |w.api.reservations| ==>
                    var r := w.api.reservations[i];
                    h.api.reservations[i]
                    == if r.status == Api.Active && r.claim.Some? && Renewed(w.claims, r.claim.value, instance, generation)
                       then r.(expiresAt := now + ttl) else r)
  {
    hide ExpireClaims;
  }
}
