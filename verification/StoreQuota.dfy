/**
 Quota admission: each claim leaves its reserve on every surface of its account, ended reservations
 never come back, and no other step takes more of a surface.
 */
module StoreQuota {
  import opened Prelude
  import opened Domain
  import opened Store
  import opened StoreInvariant
  import opened StoreSteps
  import opened StoreTheorems
  import TaskGraph

  // --- Rows never revive ---

  /** A row that is live after a step was live before it, for the same surface and percentage. */
  ghost predicate RowSettles(a: QuotaRow, b: QuotaRow, now: int) {
    && b.surface == a.surface && b.percent == a.percent
    && (QuotaHeld(b) && b.expiresAt > now ==> QuotaHeld(a) && a.expiresAt > now)
  }

  ghost predicate QuotaSettles(a: seq<QuotaRow>, b: seq<QuotaRow>, now: int) {
    |a| == |b| && forall i :: 0 <= i < |a| ==> RowSettles(a[i], b[i], now)
  }

  ghost predicate NonNegative(quota: seq<QuotaRow>) {
    forall i :: 0 <= i < |quota| ==> 0.0 <= quota[i].percent
  }

  lemma InvNonNegative(s: State)
    requires Inv(s)
    ensures NonNegative(s.quota)
  {
    assert forall i :: 0 <= i < |s.quota| ==> QuotaFits(s.quota[i], s.claims, s.runs);
  }

  lemma SettlingFreesQuota(a: seq<QuotaRow>, b: seq<QuotaRow>, surface: nat, now: int)
    requires QuotaSettles(a, b, now) && NonNegative(a)
    ensures Live(b, surface, now) <= Live(a, surface, now)
  {
    assert forall i :: 0 <= i < |a| ==> RowSettles(a[i], b[i], now);
    SumRealMonotone(LiveWeights(b, surface, now), LiveWeights(a, surface, now));
  }

  /** Time alone only frees quota. */
  lemma TimeFreesQuota(quota: seq<QuotaRow>, surface: nat, t: int, now: int)
    requires t <= now && NonNegative(quota)
    ensures Live(quota, surface, now) <= Live(quota, surface, t)
  {
    SumRealMonotone(LiveWeights(quota, surface, now), LiveWeights(quota, surface, t));
  }

  lemma SettlesTransitive(a: seq<QuotaRow>, b: seq<QuotaRow>, c: seq<QuotaRow>, now: int)
    requires QuotaSettles(a, b, now) && QuotaSettles(b, c, now)
    ensures QuotaSettles(a, c, now)
  {
    assert forall i :: 0 <= i < |a| ==> RowSettles(a[i], b[i], now) && RowSettles(b[i], c[i], now);
  }

  lemma {:induction false} EndingSettles(s: State, cs: seq<nat>, ending: Ending, now: int)
    requires forall k :: 0 <= k < |cs| ==> cs[k] < |s.claims|
    ensures QuotaSettles(s.quota, EndClaims(s, cs, ending).quota, now)
  {
    if cs != [] {
      var front := EndClaims(s, cs[..|cs| - 1], ending);
      EndingSettles(s, cs[..|cs| - 1], ending, now);
      assert QuotaSettles(front.quota, EndClaims(s, cs, ending).quota, now);
      SettlesTransitive(s.quota, front.quota, EndClaims(s, cs, ending).quota, now);
    }
  }

  lemma {:induction false} OrphansSettle(s: State, rs: seq<nat>, now: int)
    requires forall k :: 0 <= k < |rs| ==> rs[k] < |s.runs| && s.runs[rs[k]].task < |s.graph.tasks|
    ensures QuotaSettles(s.quota, OrphanRuns(s, rs).quota, now)
  {
    if rs != [] {
      var front := OrphanRuns(s, rs[..|rs| - 1]);
      OrphansSettle(s, rs[..|rs| - 1], now);
      assert QuotaSettles(front.quota, OrphanRuns(s, rs).quota, now);
      SettlesTransitive(s.quota, front.quota, OrphanRuns(s, rs).quota, now);
    }
  }

  /** A heartbeat only extends reservations of claims that survived the sweep, so ones still counted. */
  lemma RenewSettles(s: State, instance: string, generation: nat, expiresAt: int, now: int)
    requires Inv(s)
    requires forall c :: 0 <= c < |s.claims| && s.claims[c].status == ClaimActive ==> s.claims[c].expiresAt > now
    ensures QuotaSettles(s.quota, Renew(s, instance, generation, expiresAt).quota, now)
  {
    var h := Renew(s, instance, generation, expiresAt);
    forall i | 0 <= i < |s.quota|
      ensures RowSettles(s.quota[i], h.quota[i], now)
    {
      assert QuotaFits(s.quota[i], s.claims, s.runs);
    }
  }

  lemma HeartbeatSettles(s: State, instance: string, generation: nat, ttl: nat, now: int)
    requires Inv(s) && HeartbeatClaims(s, instance, generation, ttl, now).Ok?
    ensures QuotaSettles(s.quota, HeartbeatClaims(s, instance, generation, ttl, now).value.quota, now)
  {
    hide Inv, QuotaSettles;
    var swept := ExpireClaims(s, now);
    EndingSettles(s, OverdueClaims(s.claims, now), Expiry, now);
    SweepKeepsInv(s, now);
    SweepExpiresExactly(s, now);
    RenewSettles(swept, instance, generation, now + ttl, now);
    SettlesTransitive(s.quota, swept.quota, Renew(swept, instance, generation, now + ttl).quota, now);
  }

  lemma BeginSettles(s: State, c: nat, instance: string, generation: nat, runId: string, adapter: string,
                     ttl: nat, now: int)
    requires Inv(s) && BeginClaimedRun(s, c, instance, generation, runId, adapter, ttl, now).Ok?
    ensures QuotaSettles(s.quota, BeginClaimedRun(s, c, instance, generation, runId, adapter, ttl, now).value.quota, now)
  {
    var h := StartQuota(s.quota, c, |s.runs|, now + ttl);
    forall i | 0 <= i < |s.quota|
      ensures RowSettles(s.quota[i], h[i], now)
    {
      assert QuotaFits(s.quota[i], s.claims, s.runs);
    }
  }

  lemma CheckpointSettles(s: State, r: nat, owner: string, generation: nat, ttl: nat, action: CheckpointAction, now: int)
    requires Inv(s) && Checkpoint(s, r, owner, generation, ttl, action, now).Ok?
    ensures QuotaSettles(s.quota, Checkpoint(s, r, owner, generation, ttl, action, now).value.quota, now)
  {
    var h := ExtendRunQuota(s.quota, r, now + ttl);
    forall i | 0 <= i < |s.quota|
      ensures RowSettles(s.quota[i], h[i], now)
    {
      assert QuotaFits(s.quota[i], s.claims, s.runs);
    }
  }

  lemma OutcomeSettles(s: State, r: nat, failure: Option<FailureCategory>, now: int)
    requires RecordOutcome(s, r, failure).Ok?
    ensures QuotaSettles(s.quota, RecordOutcome(s, r, failure).value.quota, now)
  {
  }

  lemma FinishSettles(s: State, r: nat, status: string, now: int)
    requires FinishRun(s, r, status).Ok?
    ensures QuotaSettles(s.quota, FinishRun(s, r, status).value.quota, now)
  {
  }

  lemma SameQuotaSettles(quota: seq<QuotaRow>, now: int)
    ensures QuotaSettles(quota, quota, now)
  {
  }

  lemma StopSettles(s: State, instance: string, now: int)
    requires StopInstance(s, instance, now).Ok?
    ensures QuotaSettles(s.quota, StopInstance(s, instance, now).value.quota, now)
  {
    var leader := if s.leader.Some? && s.leader.value.instance == instance
                  then Some(s.leader.value.(expiresAt := now)) else s.leader;
    EndingSettles(s.(instances := s.instances - {instance}, leader := leader), ClaimsOf(s.claims, instance), GracefulStop, now);
  }

  lemma EmergencySettles(s: State, reason: string, now: int)
    requires EmergencyStop(s, reason).Ok?
    ensures QuotaSettles(s.quota, EmergencyStop(s, reason).value.quota, now)
  {
    var stopped := s.(control := Control(true, true), runs := CancelAtWork(s.runs, s.graph.tasks));
    EndingSettles(stopped, ActiveClaims(s.claims), Emergency, now);
  }

  lemma RecoverySettles(s: State, now: int)
    ensures QuotaSettles(s.quota, RecoverLeases(s, now).quota, now)
  {
    OrphansSettle(s, OverdueRuns(s.runs, s.graph.tasks, now, |s.runs|), now);
  }

  lemma SweepSettles(s: State, now: int)
    ensures QuotaSettles(s.quota, ExpireClaims(s, now).quota, now)
  {
    EndingSettles(s, OverdueClaims(s.claims, now), Expiry, now);
  }

  /** Every step but a claim only frees quota, on every surface. */
  lemma StepSettles(s: State, op: Op, now: int)
    requires Inv(s) && Apply(s, op, now).Ok? && !op.ClaimTaskOp?
    ensures QuotaSettles(s.quota, Apply(s, op, now).value.quota, now)
  {
    assert TaskGraph.WellFormed(s.graph);
    hide Inv, QuotaSettles, StopInstance, EmergencyStop, ExpireClaims, RecoverLeases, HeartbeatClaims, BeginClaimedRun,
      Checkpoint, RecordOutcome, FinishRun, TaskGraph.WellFormed;
    if op.StopInstanceOp? {
      StopSettles(s, op.instance, now);
    } else if op.EmergencyStopOp? {
      EmergencySettles(s, op.reason, now);
    } else if op.RecoverClaimsOp? {
      SweepSettles(s, now);
    } else if op.RecoverLeasesOp? {
      RecoverySettles(s, now);
    } else if op.HeartbeatClaimsOp? {
      HeartbeatSettles(s, op.instance, op.generation, op.ttl, now);
    } else if op.BeginClaimedRunOp? {
      BeginSettles(s, op.claim, op.instance, op.generation, op.runId, op.adapter, op.ttl, now);
    } else if op.CheckpointOp? {
      CheckpointSettles(s, op.run, op.owner, op.generation, op.ttl, op.action, now);
    } else if op.RecordOutcomeOp? {
      OutcomeSettles(s, op.run, op.failure, now);
    } else if op.FinishRunOp? {
      FinishSettles(s, op.run, op.status, now);
    } else {
      SameQuotaSettles(s.quota, now);
    }
  }

  // --- What a claim leaves ---

  lemma LiveAppend(quota: seq<QuotaRow>, row: QuotaRow, surface: nat, now: int)
    ensures Live(quota + [row], surface, now)
         == Live(quota, surface, now) + (if LiveRow(row, surface, now) then row.percent else 0.0)
  {
    var added := if LiveRow(row, surface, now) then row.percent else 0.0;
    assert LiveWeights(quota + [row], surface, now) == LiveWeights(quota, surface, now) + [added];
    SumRealAppend(LiveWeights(quota, surface, now), added);
  }

  /** The evidence of a surface is in force, and its reserve and everything live on it fit what remains. */
  ghost predicate Fits(surface: Surface, live: real, now: int) {
    && !Stale(surface, now) && Remaining(surface, now).Some?
    && surface.reserve + live <= Remaining(surface, now).value
  }

  /** Reserving an account succeeds exactly when the forecast fits every one of its surfaces as they are. */
  lemma {:induction false} ReservingSucceedsExactly(
    quota: seq<QuotaRow>, surfaces: seq<Surface>, f: Forecast, n: nat, now: int)
    requires n <= |surfaces| && 0.0 <= f.percent
    ensures ReserveSurfaces(quota, surfaces, f, n, now).Ok?
       <==> forall i :: 0 <= i < n && OnAccount(surfaces[i], f) ==>
              Fits(surfaces[i], Live(quota, i, now) + f.percent, now)
  {
    if n > 0 {
      ReservingSucceedsExactly(quota, surfaces, f, n - 1, now);
      if ReserveSurfaces(quota, surfaces, f, n - 1, now).Ok? {
        ReservingLeavesTheReserve(quota, surfaces, f, n - 1, now, n - 1);
      }
    }
  }

  lemma {:induction false} ReservingLeavesTheReserve(
    quota: seq<QuotaRow>, surfaces: seq<Surface>, f: Forecast, n: nat, now: int, i: nat)
    requires n <= |surfaces| && ReserveSurfaces(quota, surfaces, f, n, now).Ok? && 0.0 <= f.percent && i < |surfaces|
    ensures
      var h := ReserveSurfaces(quota, surfaces, f, n, now).value;
      if i < n && OnAccount(surfaces[i], f) then Fits(surfaces[i], Live(h, i, now), now)
      else Live(h, i, now) == Live(quota, i, now)
  {
    if n > 0 {
      ReservingLeavesTheReserve(quota, surfaces, f, n - 1, now, i);
      var before := ReserveSurfaces(quota, surfaces, f, n - 1, now).value;
      if OnAccount(surfaces[n - 1], f) {
        LiveAppend(before, NewQuotaRow(n - 1, f), i, now);
      }
    }
  }

  lemma SweepingQuotaSettles(quota: seq<QuotaRow>, now: int)
    ensures QuotaSettles(quota, ExpireQuota(quota, now), now)
  {
  }

  /** The surface is one the claim reserves on. */
  predicate Reserves(r: ClaimRequest, surface: Surface) {
    WantsQuota(r) && surface.provider == r.limits.value.provider && surface.account == r.limits.value.account
  }

  lemma ClaimQuotaLeavesTheReserve(s: State, r: ClaimRequest, now: int, i: nat)
    requires ClaimQuota(s, r, now).Ok? && NonNegative(s.quota) && i < |s.surfaces|
    requires r.limits.Some? ==> 0.0 <= r.limits.value.forecast
    ensures
      var h := ClaimQuota(s, r, now).value;
      if Reserves(r, s.surfaces[i]) then Fits(s.surfaces[i], Live(h, i, now), now)
      else Live(h, i, now) <= Live(s.quota, i, now)
  {
    if WantsQuota(r) {
      SweepingQuotaSettles(s.quota, now);
      SettlingFreesQuota(s.quota, ExpireQuota(s.quota, now), i, now);
      ReservingLeavesTheReserve(ExpireQuota(s.quota, now), s.surfaces, ForecastOf(s, r, now), |s.surfaces|, now, i);
    }
  }

  lemma AcquisitionLeavesTheReserve(s: State, r: ClaimRequest, now: int, i: nat)
    requires r.task < |s.graph.tasks| && AcquireForClaim(s, r, now).Ok? && NonNegative(s.quota) && i < |s.surfaces|
    requires r.limits.Some? ==> 0.0 <= r.limits.value.forecast
    ensures
      var h := AcquireForClaim(s, r, now).value;
      && h.surfaces == s.surfaces
      && if Reserves(r, s.surfaces[i]) then Fits(s.surfaces[i], Live(h.quota, i, now), now)
         else Live(h.quota, i, now) <= Live(s.quota, i, now)
  {
    hide Live, ClaimSlots, LockResources, ClaimApi;
    ClaimQuotaLeavesTheReserve(s, r, now, i);
  }

  lemma SweepFreesQuota(s: State, now: int, i: nat)
    requires Inv(s)
    ensures
      var swept := ExpireClaims(s, now);
      swept.surfaces == s.surfaces && NonNegative(swept.quota) && Live(swept.quota, i, now) <= Live(s.quota, i, now)
  {
    var cs := OverdueClaims(s.claims, now);
    EndClaimsFrame(s, cs, Expiry);
    EndingSettles(s, cs, Expiry, now);
    SweepKeepsInv(s, now);
    InvNonNegative(s);
    InvNonNegative(ExpireClaims(s, now));
    SettlingFreesQuota(s.quota, ExpireClaims(s, now).quota, i, now);
  }

  /**
   A successful claim leaves the reserve on every surface of its account, counting everything live
   there, and takes nothing on any other surface.
   */
  lemma ClaimLeavesTheReserve(s: State, r: ClaimRequest, now: int, i: nat)
    requires Inv(s) && ClaimTask(s, r, now).Ok? && i < |s.surfaces|
    ensures
      var h := ClaimTask(s, r, now).value;
      && h.surfaces == s.surfaces
      && if Reserves(r, s.surfaces[i]) then Fits(s.surfaces[i], Live(h.quota, i, now), now)
         else Live(h.quota, i, now) <= Live(s.quota, i, now)
  {
    hide Inv;
    SweepFreesQuota(s, now, i);
    AcquisitionLeavesTheReserve(ExpireClaims(s, now), r, now, i);
  }

  // --- Evidence ---

  predicate InForceAt(o: Override, now: int) {
    o.expiresAt.Some? ==> now < o.expiresAt.value
  }

  /** The k-th override is in force, and no newer one is. */
  predicate NewestInForce(overrides: seq<Override>, k: nat, now: int) {
    && k < |overrides| && InForceAt(overrides[k], now)
    && forall j :: k < j < |overrides| ==> !InForceAt(overrides[j], now)
  }

  lemma {:induction false} EffectiveIsNewest(overrides: seq<Override>, now: int)
    ensures
      var o := EffectiveOverride(overrides, now);
      if o.None? then forall k :: 0 <= k < |overrides| ==> !InForceAt(overrides[k], now)
      else exists k :: 0 <= k < |overrides| && NewestInForce(overrides, k, now) && o.value == overrides[k].effective
  {
    if overrides != [] {
      var n := |overrides| - 1;
      var front := overrides[..n];
      if InForceAt(overrides[n], now) {
        assert NewestInForce(overrides, n, now);
      } else {
        EffectiveIsNewest(front, now);
        if k :| 0 <= k < n && NewestInForce(front, k, now) && EffectiveOverride(front, now) == Some(front[k].effective) {
          assert NewestInForce(overrides, k, now) by {
            assert forall j :: k < j < n ==> overrides[j] == front[j];
          }
        }
      }
    }
  }

  /**
   What an admission counts on: the newest override still in force, else what was observed, which is stale from the
   end of its validity on.
   */
  lemma EvidenceExactly(surface: Surface, now: int, k: nat)
    ensures NewestInForce(surface.overrides, k, now) ==>
              Remaining(surface, now) == Some(surface.overrides[k].effective) && !Stale(surface, now)
    ensures (forall j :: 0 <= j < |surface.overrides| ==> !InForceAt(surface.overrides[j], now)) ==>
              && Remaining(surface, now) == surface.observed
              && (Stale(surface, now) <==> surface.validUntil.Some? && surface.validUntil.value <= now)
  {
    EffectiveIsNewest(surface.overrides, now);
  }

  /** What is live on a surface is the sum of what its held rows reserve until they expire. */
  lemma LiveExactly(quota: seq<QuotaRow>, row: QuotaRow, surface: nat, now: int)
    ensures Live([], surface, now) == 0.0
    ensures Live(quota + [row], surface, now)
         == Live(quota, surface, now)
            + (if row.surface == surface && (row.status == QuotaActive || row.status == QuotaRunning) && now < row.expiresAt
               then row.percent else 0.0)
  {
    LiveAppend(quota, row, surface, now);
  }

  /** An override governs its surface until it expires, and then what governed before does again. */
  lemma OverrideGovernsUntilExpiry(s: State, provider: string, account: string, key: string,
                                   effective: real, reason: string, expiresAt: Option<int>, at: int)
    requires OverrideQuota(s, provider, account, key, effective, reason, expiresAt).Ok?
    ensures
      var found := FindSurface(s.surfaces, provider, account, key);
      && found.Some?
      && var h, i := OverrideQuota(s, provider, account, key, effective, reason, expiresAt).value, found.value;
         && |h.surfaces| == |s.surfaces| && Identifies(h.surfaces[i], provider, account, key)
         && (forall j :: 0 <= j < |s.surfaces| && j != i ==> h.surfaces[j] == s.surfaces[j])
         && if expiresAt.None? || at < expiresAt.value
            then Remaining(h.surfaces[i], at) == Some(effective) && !Stale(h.surfaces[i], at)
            else Remaining(h.surfaces[i], at) == Remaining(s.surfaces[i], at)
                 && (Stale(h.surfaces[i], at) <==> Stale(s.surfaces[i], at))
  {
    var before := s.surfaces[FindSurface(s.surfaces, provider, account, key).value].overrides;
    assert (before + [Override(effective, expiresAt)])[..|before|] == before;
  }

  ghost predicate HasEvidence(surface: Surface, observed: Option<real>, reserve: real, validUntil: Option<int>) {
    surface.observed == observed && surface.reserve == reserve && surface.validUntil == validUntil
  }

  ghost predicate Known(surfaces: seq<Surface>, provider: string, account: string, key: string) {
    exists i :: 0 <= i < |surfaces| && Identifies(surfaces[i], provider, account, key)
  }

  /** Surfaces are only ever added, and keep their identities and overrides. */
  ghost predicate SurfacesKept(surfaces: seq<Surface>, h: seq<Surface>) {
    && |surfaces| <= |h|
    && forall i :: 0 <= i < |surfaces| ==>
         h[i] == surfaces[i].(observed := h[i].observed, reserve := h[i].reserve, validUntil := h[i].validUntil)
  }

  lemma SameIdentityIsSameSurface(surfaces: seq<Surface>, i: nat, j: nat, provider: string, account: string, key: string)
    requires SurfacesUnique(surfaces) && i < |surfaces| && j < |surfaces|
    requires Identifies(surfaces[i], provider, account, key) && Identifies(surfaces[j], provider, account, key)
    ensures i == j
  {
  }

  lemma UpsertExactly(surfaces: seq<Surface>, provider: string, account: string, key: string,
                      observed: Option<real>, reserve: real, validUntil: Option<int>)
    requires SurfacesUnique(surfaces)
    requires UpsertSurface(surfaces, provider, account, key, observed, reserve, validUntil).Ok?
    ensures
      var h := UpsertSurface(surfaces, provider, account, key, observed, reserve, validUntil).value;
      && SurfacesUnique(h) && SurfacesKept(surfaces, h) && |h| <= |surfaces| + 1
      && Known(h, provider, account, key)
      && forall i :: 0 <= i < |h| ==>
           if Identifies(h[i], provider, account, key) then HasEvidence(h[i], observed, reserve, validUntil)
           else i < |surfaces| && h[i] == surfaces[i]
  {
    hide SurfaceId;
    UpsertKeepsUnique(surfaces, provider, account, key, observed, reserve, validUntil);
    var h := UpsertSurface(surfaces, provider, account, key, observed, reserve, validUntil).value;
    var found := FindSurface(surfaces, provider, account, key);
    var at := if found.Some? then found.value else |surfaces|;
    assert Identifies(h[at], provider, account, key);
    forall i | 0 <= i < |h| && Identifies(h[i], provider, account, key)
      ensures i == at
    {
      SameIdentityIsSameSurface(h, i, at, provider, account, key);
    }
  }

  /** A report becomes the evidence of the one surface with its identity, and of no other. */
  lemma ObservationIsUpserted(s: State, provider: string, account: string, key: string,
                              observed: Option<real>, reserve: real, unknownReason: Option<string>)
    requires Inv(s) && ObserveQuota(s, provider, account, key, observed, reserve, unknownReason).Ok?
    ensures
      var h := ObserveQuota(s, provider, account, key, observed, reserve, unknownReason).value;
      && SurfacesKept(s.surfaces, h.surfaces) && |h.surfaces| <= |s.surfaces| + 1
      && Known(h.surfaces, provider, account, key)
      && (observed.Some? || unknownReason.Some?)
      && forall i :: 0 <= i < |h.surfaces| ==>
           if Identifies(h.surfaces[i], provider, account, key) then HasEvidence(h.surfaces[i], observed, reserve, None)
           else i < |s.surfaces| && h.surfaces[i] == s.surfaces[i]
  {
    UpsertExactly(s.surfaces, provider, account, key, observed, reserve, None);
  }

  /** Which reports, observations and overrides are accepted. */
  lemma EvidenceAcceptedExactly(s: State, provider: string, account: string, key: string, observed: Option<real>,
                                reserve: real, why: Option<string>, effective: real, reason: string, until: Option<int>)
    ensures ObserveQuota(s, provider, account, key, observed, reserve, why).Ok? <==>
              && (observed.Some? ==> 0.0 <= observed.value <= 100.0) && 0.0 <= reserve <= 100.0
              && (observed.Some? || why.Some?)
              && (Known(s.surfaces, provider, account, key)
                  || !SurfaceIdTaken(s.surfaces, provider + ":" + account + ":" + key))
    ensures OverrideQuota(s, provider, account, key, effective, reason, until).Ok? <==>
              0.0 <= effective <= 100.0 && NonBlank(reason) && Known(s.surfaces, provider, account, key)
  {
    var found := FindSurface(s.surfaces, provider, account, key);
    if found.Some? { assert Known(s.surfaces, provider, account, key); }
  }

  lemma ObservationAcceptedExactly(o: Observation)
    ensures CheckObservation(o).Ok? <==>
              && (o.remaining.Some? ==> 0.0 <= o.remaining.value <= 100.0) && 0.0 <= o.reserve <= 100.0
              && o.observedAt < o.validUntil
              && (o.confidence == "provider_reported" || o.confidence == "unknown")
              && (o.remaining.Some? <==> o.unknownReason.None?)
              && IsSha256Hex(o.payload)
  {
  }

  function NewestFor(os: seq<Observation>, x: Surface): (r: Option<nat>)
    ensures r.Some? ==> r.value < |os| && Identifies(x, os[r.value].provider, os[r.value].account, os[r.value].key)
    ensures forall k :: (if r.Some? then r.value + 1 else 0) <= k < |os| ==>
              !Identifies(x, os[k].provider, os[k].account, os[k].key)
  {
    if os == [] then None
    else
      var o := os[|os| - 1];
      if Identifies(x, o.provider, o.account, o.key) then Some(|os| - 1) else NewestFor(os[..|os| - 1], x)
  }

  /** A surface of a refreshed table has the newest observation that names it, and is untouched if none does. */
  ghost predicate Refreshed(surfaces: seq<Surface>, os: seq<Observation>, x: Surface, i: nat) {
    var k := NewestFor(os, x);
    if k.Some? then HasEvidence(x, os[k.value].remaining, os[k.value].reserve, Some(os[k.value].validUntil))
    else i < |surfaces| && x == surfaces[i]
  }

  /** The table after one more observation. */
  ghost predicate OneMore(before: seq<Surface>, o: Observation, h: seq<Surface>) {
    && SurfacesKept(before, h) && Known(h, o.provider, o.account, o.key)
    && forall i :: 0 <= i < |h| ==>
         if Identifies(h[i], o.provider, o.account, o.key) then HasEvidence(h[i], o.remaining, o.reserve, Some(o.validUntil))
         else i < |before| && h[i] == before[i]
  }

  lemma KnownStays(surfaces: seq<Surface>, h: seq<Surface>, provider: string, account: string, key: string)
    requires SurfacesKept(surfaces, h) && Known(surfaces, provider, account, key)
    ensures Known(h, provider, account, key)
  {
    var i :| 0 <= i < |surfaces| && Identifies(surfaces[i], provider, account, key);
    assert Identifies(h[i], provider, account, key);
  }

  lemma OneMoreRefreshes(surfaces: seq<Surface>, os: seq<Observation>, before: seq<Surface>, h: seq<Surface>, i: nat)
    requires os != [] && OneMore(before, os[|os| - 1], h) && i < |h|
    requires i < |before| ==> Refreshed(surfaces, os[..|os| - 1], before[i], i)
    ensures Refreshed(surfaces, os, h[i], i)
  {
  }

  ghost predicate Recorded(o: Observation, h: seq<Surface>) {
    CheckObservation(o).Ok? && Known(h, o.provider, o.account, o.key)
  }

  ghost predicate RefreshedTable(surfaces: seq<Surface>, os: seq<Observation>, h: seq<Surface>) {
    && SurfacesKept(surfaces, h) && |h| <= |surfaces| + |os|
    && (forall k :: 0 <= k < |os| ==> Recorded(os[k], h))
    && (forall i :: 0 <= i < |h| ==> Refreshed(surfaces, os, h[i], i))
  }

  lemma OneMoreRefreshesTable(surfaces: seq<Surface>, os: seq<Observation>, before: seq<Surface>, h: seq<Surface>)
    requires os != [] && RefreshedTable(surfaces, os[..|os| - 1], before)
    requires OneMore(before, os[|os| - 1], h) && CheckObservation(os[|os| - 1]).Ok? && |h| <= |before| + 1
    ensures RefreshedTable(surfaces, os, h)
  {
    var front := os[..|os| - 1];
    forall k | 0 <= k < |os|
      ensures Recorded(os[k], h)
    {
      if k < |front| {
        assert Recorded(front[k], before);
        KnownStays(before, h, os[k].provider, os[k].account, os[k].key);
      }
    }
    hide Recorded, Refreshed, CheckObservation;
    forall i | 0 <= i < |h|
      ensures Refreshed(surfaces, os, h[i], i)
    {
      assert i < |before| ==> Refreshed(surfaces, front, before[i], i);
      OneMoreRefreshes(surfaces, os, before, h, i);
    }
  }

  lemma {:induction false} RecordingExactly(surfaces: seq<Surface>, os: seq<Observation>)
    requires SurfacesUnique(surfaces) && RecordObservations(surfaces, os).Ok?
    ensures RefreshedTable(surfaces, os, RecordObservations(surfaces, os).value)
  {
    if os != [] {
      var front, o := os[..|os| - 1], os[|os| - 1];
      var before := RecordObservations(surfaces, front).value;
      RecordingExactly(surfaces, front);
      RecordingKeepsUnique(surfaces, front);
      UpsertExactly(before, o.provider, o.account, o.key, o.remaining, o.reserve, Some(o.validUntil));
      hide RefreshedTable;
      OneMoreRefreshesTable(surfaces, os, before, RecordObservations(surfaces, os).value);
    }
  }

  /**
   A refresh is all or nothing: every observation is valid, every surface named has the newest observation
   that names it as its evidence, and every other surface is as it was.
   */
  lemma RefreshTakesTheNewest(s: State, os: seq<Observation>)
    requires Inv(s) && RefreshQuota(s, os).Ok?
    ensures os != [] && RefreshedTable(s.surfaces, os, RefreshQuota(s, os).value.surfaces)
  {
    RecordingExactly(s.surfaces, os);
  }

  // --- Whole runs ---

  /** The clock never runs backwards. */
  ghost predicate Timed(start: int, steps: seq<Step>) {
    && (forall k :: 0 <= k < |steps| ==> start <= steps[k].now)
    && (forall j, k :: 0 <= j < k < |steps| ==> steps[j].now <= steps[k].now)
  }

  function EndTime(start: int, steps: seq<Step>): int {
    if steps == [] then start else steps[|steps| - 1].now
  }

  /** Throughout the run a surface has one reserve and one effective remainder. */
  ghost predicate EvidenceAt(s: State, i: nat, now: int, reserve: real, remaining: real) {
    i < |s.surfaces| && s.surfaces[i].reserve == reserve && Remaining(s.surfaces[i], now) == Some(remaining)
  }

  ghost predicate EvidenceStands(s: State, steps: seq<Step>, i: nat, reserve: real, remaining: real)
    requires Inv(s) && AllDisciplined(steps)
  {
    forall k :: 0 <= k < |steps| ==> EvidenceAt(After(s, steps[..k]), i, steps[k].now, reserve, remaining)
  }

  ghost predicate Headroom(live: real, reserve: real, remaining: real) {
    live <= 0.0 || reserve + live <= remaining
  }

  lemma StepKeepsHeadroom(s: State, step: Step, i: nat, reserve: real, remaining: real)
    requires Inv(s) && Disciplined(step.op) && EvidenceAt(s, i, step.now, reserve, remaining)
    requires Headroom(Live(s.quota, i, step.now), reserve, remaining)
    ensures Headroom(Live(Next(s, step).quota, i, step.now), reserve, remaining)
  {
    if Apply(s, step.op, step.now).Ok? {
      InvNonNegative(s);
      if step.op.ClaimTaskOp? {
        ClaimLeavesTheReserve(s, step.op.request, step.now, i);
      } else {
        StepSettles(s, step.op, step.now);
        SettlingFreesQuota(s.quota, Next(s, step).quota, i, step.now);
      }
    }
  }

  lemma EvidenceStandsInPrefix(s: State, steps: seq<Step>, i: nat, reserve: real, remaining: real)
    requires Inv(s) && AllDisciplined(steps) && steps != [] && EvidenceStands(s, steps, i, reserve, remaining)
    ensures
      var n := |steps| - 1;
      && EvidenceStands(s, steps[..n], i, reserve, remaining)
      && EvidenceAt(After(s, steps[..n]), i, steps[n].now, reserve, remaining)
  {
    hide Inv, After, EvidenceAt;
    var front := steps[..|steps| - 1];
    forall k | 0 <= k < |front|
      ensures EvidenceAt(After(s, front[..k]), i, front[k].now, reserve, remaining)
    {
      assert front[..k] == steps[..k];
    }
  }

  /**
   Quota never overcommits: while the evidence of a surface stands, whatever is live on it and the
   surface's reserve together stay within what remains, at the end of every run and ever after.
   */
  lemma {:induction false} QuotaNeverOvercommits(
    s: State, start: int, steps: seq<Step>, i: nat, reserve: real, remaining: real, now: int)
    requires Inv(s) && AllDisciplined(steps) && Timed(start, steps) && EndTime(start, steps) <= now
    requires EvidenceStands(s, steps, i, reserve, remaining)
    requires Headroom(Live(s.quota, i, start), reserve, remaining)
    ensures Headroom(Live(After(s, steps).quota, i, now), reserve, remaining)
  {
    hide Inv, Next, Live;
    if steps == [] {
      InvNonNegative(s);
      TimeFreesQuota(s.quota, i, start, now);
    } else {
      var front, last := steps[..|steps| - 1], steps[|steps| - 1];
      EvidenceStandsInPrefix(s, steps, i, reserve, remaining);
      QuotaNeverOvercommits(s, start, front, i, reserve, remaining, last.now);
      StepKeepsHeadroom(After(s, front), last, i, reserve, remaining);
      InvNonNegative(After(s, steps));
      TimeFreesQuota(After(s, steps).quota, i, last.now, now);
    }
  }

  lemma StepFreesQuota(s: State, step: Step, i: nat)
    requires Inv(s) && Disciplined(step.op) && !step.op.ClaimTaskOp?
    ensures Live(Next(s, step).quota, i, step.now) <= Live(s.quota, i, step.now)
  {
    if Apply(s, step.op, step.now).Ok? {
      InvNonNegative(s);
      StepSettles(s, step.op, step.now);
      SettlingFreesQuota(s.quota, Next(s, step).quota, i, step.now);
    }
  }

  /** A run in which no claim is made. */
  ghost predicate ClaimsNothing(steps: seq<Step>) {
    forall k :: 0 <= k < |steps| ==> !steps[k].op.ClaimTaskOp?
  }

  /** Reservations never revive: without claims the live total of a surface never grows. */
  lemma {:induction false} ReservationsNeverRevive(s: State, start: int, steps: seq<Step>, i: nat, now: int)
    requires Inv(s) && AllDisciplined(steps) && Timed(start, steps) && EndTime(start, steps) <= now && ClaimsNothing(steps)
    ensures Live(After(s, steps).quota, i, now) <= Live(s.quota, i, start)
  {
    hide Inv;
    if steps == [] {
      InvNonNegative(s);
      TimeFreesQuota(s.quota, i, start, now);
    } else {
      var front, last := steps[..|steps| - 1], steps[|steps| - 1];
      ReservationsNeverRevive(s, start, front, i, last.now);
      StepFreesQuota(After(s, front), last, i);
      InvNonNegative(After(s, steps));
      TimeFreesQuota(After(s, steps).quota, i, last.now, now);
    }
  }
}
