/**
 What the scheduler's transactions do to each table, told by the tables they leave behind.
 */
module StoreEffects {
  import opened Prelude
  import opened Domain
  import opened Store
  import opened StoreInvariant
  import opened StoreSteps
  import TaskGraph
  import Api = ApiBudget

  // --- Ending claims ---

  ghost predicate TaskOfSome(claims: seq<Claim>, cs: seq<nat>, t: nat) {
    exists k :: 0 <= k < |cs| && cs[k] < |claims| && claims[cs[k]].task == t
  }

  function AfterEnding(status: TaskStatus, ended: bool, ending: Ending): TaskStatus {
    if status == TaskStatus.Leased && ended then (if ending == Emergency then Paused else Ready) else status
  }

  lemma EndTaskStatus(g: TaskGraph.Graph, ended: nat, ending: Ending, t: nat)
    requires t < |g.tasks|
    ensures EndTask(g, ended, ending).tasks[t].status == AfterEnding(g.tasks[t].status, t == ended, ending)
    ensures t != ended ==> EndTask(g, ended, ending).tasks[t] == g.tasks[t]
  {
  }

  lemma TaskOfLonger(claims: seq<Claim>, cs: seq<nat>, t: nat)
    requires cs != [] && cs[|cs| - 1] < |claims|
    ensures TaskOfSome(claims, cs, t) <==> TaskOfSome(claims, cs[..|cs| - 1], t) || claims[cs[|cs| - 1]].task == t
  {
    var n := |cs| - 1;
    if k :| 0 <= k < n && cs[..n][k] < |claims| && claims[cs[..n][k]].task == t {
      assert cs[k] == cs[..n][k];
    }
    if k :| 0 <= k < |cs| && cs[k] < |claims| && claims[cs[k]].task == t {
      assert k < n ==> cs[..n][k] == cs[k];
    }
  }

  /** Tasks of ended claims leave Leased, for Paused in an emergency and for Ready otherwise; no other task changes. */
  lemma {:induction false} EndedTasks(s: State, cs: seq<nat>, ending: Ending, t: nat)
    requires Endable(s, cs) && t < |s.graph.tasks|
    ensures EndClaims(s, cs, ending).graph.tasks[t].status
         == AfterEnding(s.graph.tasks[t].status, TaskOfSome(s.claims, cs, t), ending)
    ensures !TaskOfSome(s.claims, cs, t) ==> EndClaims(s, cs, ending).graph.tasks[t] == s.graph.tasks[t]
  {
    if cs != [] {
      var front, c := cs[..|cs| - 1], cs[|cs| - 1];
      EndedTasks(s, front, ending, t);
      EndClaimsExactly(s, front, ending);
      TaskOfLonger(s.claims, cs, t);
      assert c !in front;
      hide EndTask, TaskOfSome;
      EndTaskStatus(EndClaims(s, front, ending).graph, s.claims[c].task, ending, t);
    }
  }

  lemma ElementsOfLonger(cs: seq<nat>)
    requires cs != []
    ensures Elements(cs) == Elements(cs[..|cs| - 1]) + {cs[|cs| - 1]}
  {
    assert cs == cs[..|cs| - 1] + [cs[|cs| - 1]];
  }

  lemma LocksReleasedTogether(locks: seq<Lock>, cs: set<nat>, ds: set<nat>)
    ensures ReleaseLocks(ReleaseLocks(locks, cs), ds) == ReleaseLocks(locks, cs + ds)
  {
  }

  /** Locks of ended claims are released, and no others. */
  lemma {:induction false} EndedLocks(s: State, cs: seq<nat>, ending: Ending)
    requires forall k :: 0 <= k < |cs| ==> cs[k] < |s.claims|
    ensures EndClaims(s, cs, ending).locks == ReleaseLocks(s.locks, Elements(cs))
  {
    if cs == [] {
      assert ReleaseLocks(s.locks, {}) == s.locks;
    } else {
      EndedLocks(s, cs[..|cs| - 1], ending);
      ElementsOfLonger(cs);
      LocksReleasedTogether(s.locks, Elements(cs[..|cs| - 1]), {cs[|cs| - 1]});
    }
  }

  /** Held quota rows of ended claims are released, and no others. */
  lemma {:induction false} EndedQuota(s: State, cs: seq<nat>, ending: Ending)
    requires forall k :: 0 <= k < |cs| ==> cs[k] < |s.claims|
    ensures
      var quota := EndClaims(s, cs, ending).quota;
      && |quota| == |s.quota|
      && forall i :: 0 <= i < |s.quota| ==>
           quota[i] == if s.quota[i].claim in Elements(cs) && QuotaHeld(s.quota[i])
                       then s.quota[i].(status := QuotaReleased) else s.quota[i]
  {
    if cs != [] {
      EndedQuota(s, cs[..|cs| - 1], ending);
      ElementsOfLonger(cs);
    }
  }

  lemma ReservationsReleasedTogether(l: Api.Ledger, cs: set<nat>, ds: set<nat>)
    ensures Api.ReleaseForClaims(Api.ReleaseForClaims(l, cs), ds) == Api.ReleaseForClaims(l, cs + ds)
  {
    assert Api.ReleaseForClaims(Api.ReleaseForClaims(l, cs), ds).reservations
        == Api.ReleaseForClaims(l, cs + ds).reservations;
  }

  lemma NothingToRelease(l: Api.Ledger)
    ensures Api.ReleaseForClaims(l, {}) == l
  {
    assert Api.ReleaseForClaims(l, {}).reservations == l.reservations;
  }

  /** Undispatched API reservations of ended claims are released, and nothing else in the ledger changes. */
  lemma {:induction false} EndedReservations(s: State, cs: seq<nat>, ending: Ending)
    requires forall k :: 0 <= k < |cs| ==> cs[k] < |s.claims|
    ensures EndClaims(s, cs, ending).api == Api.ReleaseForClaims(s.api, Elements(cs))
  {
    if cs == [] {
      NothingToRelease(s.api);
      assert Elements(cs) == {};
    } else {
      EndedReservations(s, cs[..|cs| - 1], ending);
      ElementsOfLonger(cs);
      ReservationsReleasedTogether(s.api, Elements(cs[..|cs| - 1]), {cs[|cs| - 1]});
    }
  }

  /** A sweep requeues exactly the leased tasks whose claims are overdue. */
  lemma SweepRequeuesExactly(s: State, now: int, t: nat)
    requires Inv(s) && t < |s.graph.tasks|
    ensures
      var overdue := exists c :: 0 <= c < |s.claims| && s.claims[c].status == ClaimActive && s.claims[c].expiresAt <= now
                                 && s.claims[c].task == t;
      ExpireClaims(s, now).graph.tasks[t].status
      == if overdue && s.graph.tasks[t].status == TaskStatus.Leased then Ready else s.graph.tasks[t].status
  {
    hide Inv, EndClaims;
    SelectionIsEndable(s, (c: Claim) => c.status == ClaimActive && c.expiresAt <= now);
    var cs := OverdueClaims(s.claims, now);
    EndedTasks(s, cs, Expiry, t);
    if c :| 0 <= c < |s.claims| && s.claims[c].status == ClaimActive && s.claims[c].expiresAt <= now && s.claims[c].task == t {
      assert c in cs;
      var k :| 0 <= k < |cs| && cs[k] == c;
      assert TaskOfSome(s.claims, cs, t);
    }
  }

  lemma {:induction false} SelectsNothing(claims: seq<Claim>, test: Claim -> bool, n: nat)
    requires n <= |claims| && forall c: nat :: c < n ==> !test(claims[c])
    ensures SelectClaims(claims, test, n) == []
  {
    if n > 0 {
      SelectsNothing(claims, test, n - 1);
    }
  }

  /** Sweeping twice at one time is sweeping once. */
  lemma SweepIsIdempotent(s: State, now: int)
    ensures ExpireClaims(ExpireClaims(s, now), now) == ExpireClaims(s, now)
  {
    var h := ExpireClaims(s, now);
    SweepExpiresExactly(s, now);
    SelectsNothing(h.claims, (c: Claim) => c.status == ClaimActive && c.expiresAt <= now, |h.claims|);
    assert OverdueClaims(h.claims, now) == [];
  }

  /** Stopping an instance releases exactly its active claims, and ends its leadership. */
  lemma StopReleasesExactly(s: State, instance: string, now: int)
    requires StopInstance(s, instance, now).Ok?
    ensures
      var h := StopInstance(s, instance, now).value;
      && |h.claims| == |s.claims|
      && (forall c: nat :: c < |s.claims| ==>
            h.claims[c] == if s.claims[c].status == ClaimActive && s.claims[c].instance == instance
                           then s.claims[c].(status := ClaimReleased) else s.claims[c])
      && (forall generation :: !Leads(h.leader, instance, generation, now))
  {
    var leader := if s.leader.Some? && s.leader.value.instance == instance
                  then Some(s.leader.value.(expiresAt := now)) else s.leader;
    var stopped := s.(instances := s.instances - {instance}, leader := leader);
    SelectionIsEndable(stopped, (c: Claim) => c.status == ClaimActive && c.instance == instance);
    EndClaimsExactly(stopped, ClaimsOf(s.claims, instance), GracefulStop);
    EndClaimsFrame(stopped, ClaimsOf(s.claims, instance), GracefulStop);
  }

  /** A heartbeat expires what is overdue, renews exactly the holder's other active claims, and leaves the rest. */
  lemma HeartbeatRenewsExactly(s: State, instance: string, generation: nat, ttl: nat, now: int)
    requires HeartbeatClaims(s, instance, generation, ttl, now).Ok?
    ensures
      var h := HeartbeatClaims(s, instance, generation, ttl, now).value;
      forall c: nat :: c < |s.claims| ==>
        h.claims[c] ==
        if s.claims[c].status != ClaimActive then s.claims[c]
        else if s.claims[c].expiresAt <= now then s.claims[c].(status := ClaimExpired)
        else if s.claims[c].instance == instance && s.claims[c].generation == generation
        then s.claims[c].(expiresAt := now + ttl) else s.claims[c]
  {
    SweepExpiresExactly(s, now);
  }

  // --- Granting a claim ---

  function ClaimResources(project: string, r: ClaimRequest): seq<Resource> {
    [Resource(PROJECT, project)] + r.resources
  }

  ghost predicate HoldsSlot(locks: seq<Lock>, before: nat, kind: string, owner: string, limit: nat) {
    exists l, k: nat :: before <= l < |locks| && k < limit && locks[l].resource == Resource(kind, SlotKey(owner, k))
  }

  lemma SweepKeepsCompletions(s: State, now: int, t: nat)
    requires Inv(s) && t < |s.graph.tasks| && TaskGraph.WellFormed(ExpireClaims(s, now).graph)
    ensures TaskGraph.DependenciesCompleted(ExpireClaims(s, now).graph, t) ==> TaskGraph.DependenciesCompleted(s.graph, t)
  {
    var swept := ExpireClaims(s, now);
    if TaskGraph.DependenciesCompleted(swept.graph, t) {
      forall d | d in s.graph.deps && d.task == t
        ensures s.graph.tasks[d.on].status == Completed
      {
        assert swept.graph.tasks[d.on].status == Completed;
        SweepRequeuesExactly(s, now, d.on);
      }
    }
  }

  /** What a granted claim says of the store it was granted in. */
  lemma GrantConditions(s: State, r: ClaimRequest, now: int)
    requires Inv(s) && ClaimTask(s, r, now).Ok?
    ensures
      var swept := ExpireClaims(s, now);
      && s.leader.Some? && s.leader.value.instance == r.instance && s.leader.value.generation == r.generation
      && now < s.leader.value.expiresAt
      && !s.control.pause && !s.control.emergency
      && r.task < |s.graph.tasks|
      && swept.graph.tasks[r.task].status == Ready && swept.graph.tasks[r.task].version == r.version
      && TaskGraph.DependenciesCompleted(s.graph, r.task)
  {
    SweepKeepsInv(s, now);
    SweepKeepsCompletions(s, now, r.task);
  }

  lemma SlotIsHeld(locks: seq<Lock>, claim: nat, kind: string, owner: string, limit: nat)
    requires AcquireSlot(locks, claim, kind, owner, limit).Some?
    ensures
      var h := AcquireSlot(locks, claim, kind, owner, limit).value;
      |h| == |locks| + 1 && HoldsSlot(h, |locks|, kind, owner, limit)
  {
    FreeSlotIsFirst(locks, kind, owner, 0, limit);
    var h := AcquireSlot(locks, claim, kind, owner, limit).value;
    assert h[|locks|].resource == Resource(kind, SlotKey(owner, FreeSlot(locks, kind, owner, 0, limit).value));
  }

  /** A granted claim holds a slot of its adapter, one of its account, its project and every resource it named. */
  lemma GrantHoldsEveryLock(s: State, r: ClaimRequest, now: int)
    requires r.task < |s.graph.tasks| && AcquireForClaim(s, r, now).Ok?
    ensures
      var h, n := AcquireForClaim(s, r, now).value, |s.locks|;
      && (forall l :: n <= l < |h.locks| ==> h.locks[l].claim == |s.claims| && !h.locks[l].released)
      && (forall k :: 0 <= k < 1 + |r.resources| ==>
            HoldsLock(h.locks, |s.claims|, ClaimResources(s.graph.tasks[r.task].project, r)[k]))
      && (r.limits.Some? ==>
            && HoldsSlot(h.locks, n, ADAPTER_SLOT, r.limits.value.adapter, r.limits.value.perAdapter)
            && HoldsSlot(h.locks, n, ACCOUNT_SLOT, r.limits.value.provider + ":" + r.limits.value.account,
                         r.limits.value.perAccount))
      && |h.locks| == n + (if r.limits.Some? then 2 else 0) + 1 + |r.resources|
  {
    var h, n, c := AcquireForClaim(s, r, now).value, |s.locks|, |s.claims|;
    var slots, resources := ClaimSlots(s, r).value, ClaimResources(s.graph.tasks[r.task].project, r);
    LockResourcesShape(slots, c, resources);
    ClaimLocksAdded(s, r, resources);
    forall k | 0 <= k < |resources|
      ensures HoldsLock(h.locks, c, resources[k])
    {
      assert h.locks[|slots| + k] == Lock(resources[k], c, false);
    }
    if r.limits.Some? {
      GrantHoldsSlots(s, r);
      SlotsStayHeld(slots, h.locks, n, ADAPTER_SLOT, r.limits.value.adapter, r.limits.value.perAdapter);
      SlotsStayHeld(slots, h.locks, n, ACCOUNT_SLOT, AccountOwner(r.limits.value), r.limits.value.perAccount);
    }
  }

  lemma GrantHoldsSlots(s: State, r: ClaimRequest)
    requires r.limits.Some? && ClaimSlots(s, r).Ok?
    ensures
      var slots, l := ClaimSlots(s, r).value, r.limits.value;
      && |slots| == |s.locks| + 2
      && HoldsSlot(slots, |s.locks|, ADAPTER_SLOT, l.adapter, l.perAdapter)
      && HoldsSlot(slots, |s.locks|, ACCOUNT_SLOT, AccountOwner(l), l.perAccount)
  {
    var l, c := r.limits.value, |s.claims|;
    SlotIsHeld(s.locks, c, ADAPTER_SLOT, l.adapter, l.perAdapter);
    var withAdapter := AcquireSlot(s.locks, c, ADAPTER_SLOT, l.adapter, l.perAdapter).value;
    SlotIsHeld(withAdapter, c, ACCOUNT_SLOT, AccountOwner(l), l.perAccount);
    SlotsStayHeld(withAdapter, ClaimSlots(s, r).value, |s.locks|, ADAPTER_SLOT, l.adapter, l.perAdapter);
    SlotsStayHeld(ClaimSlots(s, r).value, ClaimSlots(s, r).value, |s.locks|, ACCOUNT_SLOT, AccountOwner(l), l.perAccount)
      by { HeldFromEarlier(ClaimSlots(s, r).value, |withAdapter|, |s.locks|, ACCOUNT_SLOT, AccountOwner(l), l.perAccount); }
  }

  lemma HeldFromEarlier(locks: seq<Lock>, from: nat, before: nat, kind: string, owner: string, limit: nat)
    requires before <= from && HoldsSlot(locks, from, kind, owner, limit)
    ensures HoldsSlot(locks, before, kind, owner, limit)
  {
    var l, k: nat :| from <= l < |locks| && k < limit && locks[l].resource == Resource(kind, SlotKey(owner, k));
  }

  lemma SlotsStayHeld(locks: seq<Lock>, h: seq<Lock>, before: nat, kind: string, owner: string, limit: nat)
    requires locks <= h && HoldsSlot(locks, before, kind, owner, limit)
    ensures HoldsSlot(h, before, kind, owner, limit)
  {
    var l, k: nat :| before <= l < |locks| && k < limit && locks[l].resource == Resource(kind, SlotKey(owner, k));
    assert h[l] == locks[l];
  }

  // --- A claim becomes a run ---

  /** Consuming a claim conserves what it reserved: no quota row ends, and the ledger's totals stay the same. */
  lemma ConsumingConserves(s: State, c: nat, runId: string, expiresAt: int, b: nat, m: Api.Measure)
    requires Inv(s) && c < |s.claims| && s.claims[c].status == ClaimActive && s.claims[c].task < |s.graph.tasks|
    ensures
      var h := Consume(s, c, runId, expiresAt);
      && |h.quota| == |s.quota|
      && (forall i :: 0 <= i < |s.quota| ==>
            && (QuotaHeld(h.quota[i]) <==> QuotaHeld(s.quota[i])) && h.quota[i].percent == s.quota[i].percent
            && (h.quota[i].claim == c && QuotaHeld(h.quota[i]) ==>
                  h.quota[i].status == QuotaRunning && h.quota[i].run == Some(|s.runs|) && h.quota[i].expiresAt == expiresAt))
      && Api.Reserved(h.api, b, m) == Api.Reserved(s.api, b, m) && Api.Spent(h.api, b, m) == Api.Spent(s.api, b, m)
  {
    var h := Consume(s, c, runId, expiresAt);
    forall i | 0 <= i < |s.quota|
      ensures h.quota[i].claim == c && QuotaHeld(h.quota[i]) ==> h.quota[i].status == QuotaRunning
    {
      assert QuotaFits(s.quota[i], s.claims, s.runs);
      assert ClaimFits(s.claims[c], |s.graph.tasks|, s.runs);
    }
    BindingConserves(s.api, c, |s.runs|, expiresAt, b, m);
  }

  lemma BindingConserves(l: Api.Ledger, c: nat, run: nat, expiresAt: int, b: nat, m: Api.Measure)
    ensures
      var h := Api.BindRun(l, c, run, expiresAt);
      Api.Reserved(h, b, m) == Api.Reserved(l, b, m) && Api.Spent(h, b, m) == Api.Spent(l, b, m)
  {
    var h := Api.BindRun(l, c, run, expiresAt);
    assert Api.ReservedWeights(h, b, m) == Api.ReservedWeights(l, b, m);
    assert Api.SpendWeights(h, b, m) == Api.SpendWeights(l, b, m);
    assert Api.AttemptWeights(h, b, m) == Api.AttemptWeights(l, b, m);
  }

  // --- A run ends ---

  /** Nothing is reserved for the run any more. */
  ghost predicate NothingReserved(s: State, r: nat) {
    && (forall i :: 0 <= i < |s.quota| && s.quota[i].run == Some(r) ==> !QuotaHeld(s.quota[i]))
    && (forall i :: 0 <= i < |s.api.reservations| && s.api.reservations[i].run == Some(r) ==>
          s.api.reservations[i].status != Api.Active)
  }

  /** No lock of the claim that became the run is live. */
  ghost predicate NothingLocked(s: State, r: nat) {
    forall l :: 0 <= l < |s.locks| && s.locks[l].claim < |s.claims| && s.claims[s.locks[l].claim].run == Some(r) ==>
      s.locks[l].released
  }

  /**
   The outcome of a process ends every reservation of its run. Its lease and locks end exactly when
   it failed; a success keeps them for verification.
   */
  lemma OutcomeReleases(s: State, r: nat, failure: Option<FailureCategory>)
    requires RecordOutcome(s, r, failure).Ok?
    ensures
      var h := RecordOutcome(s, r, failure).value;
      && NothingReserved(h, r)
      && (failure.Some? ==> h.runs[r].lease.released && NothingLocked(h, r))
      && (failure.None? ==> h.runs[r].lease == s.runs[r].lease && h.locks == s.locks)
      && h.graph.tasks[s.runs[r].task].status.IsTerminal() == (h.graph.tasks[s.runs[r].task].status == Cancelled)
      && (h.graph.tasks[s.runs[r].task].status == Verifying <==> failure.None?)
      && (h.graph.tasks[s.runs[r].task].status == Failed <==> failure.Some? && failure.value != CancelledByRequest)
      && (h.graph.tasks[s.runs[r].task].status == Paused
          <==> failure == Some(CancelledByRequest) && s.runs[r].requestedAction == Some("pause"))
      && Running.CanTransitionTo(h.graph.tasks[s.runs[r].task].status)
      && (failure == Some(CancelledByRequest) ==> h.runs[r].cancellation == CancelCompleted)
  {
  }

  /** Finishing a run ends its lease, its locks and its reservations, and leaves its task alone. */
  lemma FinishReleases(s: State, r: nat, status: string)
    requires FinishRun(s, r, status).Ok?
    ensures
      var h := FinishRun(s, r, status).value;
      && NothingReserved(h, r) && NothingLocked(h, r) && h.runs[r].lease.released && h.graph == s.graph
      && forall q :: 0 <= q < |s.runs| && q != r ==> h.runs[q] == s.runs[q]
  {
  }

  function Orphaned(r: Run): Run {
    r.(status := "orphaned", lease := r.lease.(released := true))
  }

  lemma OrphanOneRun(s: State, r: nat)
    requires r < |s.runs| && s.runs[r].task < |s.graph.tasks|
    ensures OrphanRun(s, r).runs == s.runs[r := Orphaned(s.runs[r])]
  {
  }

  /** The runs a recovery orphans. */
  lemma {:induction false} OrphanedRuns(s: State, rs: seq<nat>)
    requires forall k :: 0 <= k < |rs| ==> rs[k] < |s.runs| && s.runs[rs[k]].task < |s.graph.tasks|
    ensures forall r: nat :: r < |s.runs| ==>
              OrphanRuns(s, rs).runs[r] == if r in rs then Orphaned(s.runs[r]) else s.runs[r]
  {
    if rs != [] {
      var n := |rs| - 1;
      OrphanedRuns(s, rs[..n]);
      OrphanOneRun(OrphanRuns(s, rs[..n]), rs[n]);
      hide OrphanRun;
      assert rs == rs[..n] + [rs[n]];
    }
  }

  /** The tasks a recovery pauses, whatever those tasks were doing. */
  lemma {:induction false} OrphanedTasks(s: State, rs: seq<nat>, t: nat)
    requires forall k :: 0 <= k < |rs| ==> rs[k] < |s.runs| && s.runs[rs[k]].task < |s.graph.tasks|
    requires t < |s.graph.tasks|
    ensures OrphanRuns(s, rs).graph.tasks[t].status
         == if TaskOfRuns(s.runs, rs, t) then Paused else s.graph.tasks[t].status
  {
    if rs != [] {
      var n := |rs| - 1;
      var front := OrphanRuns(s, rs[..n]);
      OrphanedTasks(s, rs[..n], t);
      assert OrphanRun(front, rs[n]).graph.tasks[t].status
          == if front.runs[rs[n]].task == t then Paused else front.graph.tasks[t].status;
      hide OrphanRun;
      assert rs == rs[..n] + [rs[n]];
      assert forall r :: r in rs <==> r in rs[..n] || r == rs[n];
      assert TaskOfRuns(s.runs, rs, t) <==> TaskOfRuns(s.runs, rs[..n], t) || s.runs[rs[n]].task == t;
    }
  }

  ghost predicate TaskOfRuns(runs: seq<Run>, rs: seq<nat>, t: nat) {
    exists r :: r in rs && r < |runs| && runs[r].task == t
  }

  lemma OverdueRunsOrphaned(s: State, now: int)
    requires Inv(s)
    ensures
      var h := RecoverLeases(s, now);
      && |h.runs| == |s.runs| && |h.graph.tasks| == |s.graph.tasks|
      && (forall r: nat :: r < |s.runs| ==>
            h.runs[r] == if LeaseOverdue(s.runs[r], s.graph.tasks, now) then Orphaned(s.runs[r]) else s.runs[r])
      && (forall t: nat :: t < |s.graph.tasks| ==>
            h.graph.tasks[t].status
            == if exists r :: 0 <= r < |s.runs| && OverdueRunOf(s, r, t, now) then Paused else s.graph.tasks[t].status)
  {
    assert forall r :: 0 <= r < |s.runs| ==> s.runs[r].task < |s.graph.tasks|;
    hide Inv;
    var rs := OverdueRuns(s.runs, s.graph.tasks, now, |s.runs|);
    OrphanedRuns(s, rs);
    var h := RecoverLeases(s, now);
    forall t: nat | t < |s.graph.tasks|
      ensures h.graph.tasks[t].status == if TaskOfRuns(s.runs, rs, t) then Paused else s.graph.tasks[t].status
      ensures TaskOfRuns(s.runs, rs, t) <==> exists r :: 0 <= r < |s.runs| && OverdueRunOf(s, r, t, now)
    {
      OrphanedTasks(s, rs, t);
      if r :| 0 <= r < |s.runs| && OverdueRunOf(s, r, t, now) { assert r in rs; }
      if r :| r in rs && r < |s.runs| && s.runs[r].task == t { assert OverdueRunOf(s, r, t, now); }
    }
  }

  predicate OverdueRunOf(s: State, r: nat, t: nat, now: int)
    requires r < |s.runs|
  {
    s.runs[r].task == t && LeaseOverdue(s.runs[r], s.graph.tasks, now)
  }

  /** A lease that was neither released nor renewed in time, on a task that somebody was to be working on. */
  predicate Abandoned(r: Run, status: TaskStatus, now: int) {
    && !r.lease.released && r.lease.expiresAt < now
    && (status == TaskStatus.Leased || status == Planning || status == AwaitingApproval || status == Running
        || status == Verifying)
  }

  lemma OverdueMeansAbandoned(r: Run, tasks: seq<TaskGraph.Task>, now: int)
    requires r.task < |tasks|
    ensures LeaseOverdue(r, tasks, now) <==> Abandoned(r, tasks[r.task].status, now)
  {
  }

  /**
   Lease recovery orphans exactly the abandoned runs and releases their leases, pauses exactly the tasks of those,
   and leaves every other run and every other task's status as it was.
   */
  lemma RecoveryIsExact(s: State, now: int)
    requires Inv(s)
    ensures
      var h := RecoverLeases(s, now);
      && |h.runs| == |s.runs| && |h.graph.tasks| == |s.graph.tasks|
      && (forall r: nat :: r < |s.runs| ==>
            && s.runs[r].task < |s.graph.tasks|
            && h.runs[r] == if Abandoned(s.runs[r], s.graph.tasks[s.runs[r].task].status, now)
                            then s.runs[r].(status := "orphaned", lease := s.runs[r].lease.(released := true))
                            else s.runs[r])
      && (forall t: nat :: t < |s.graph.tasks| ==>
            h.graph.tasks[t].status
            == if exists r :: 0 <= r < |s.runs| && s.runs[r].task == t && Abandoned(s.runs[r], s.graph.tasks[t].status, now)
               then Paused else s.graph.tasks[t].status)
  {
    OverdueRunsOrphaned(s, now);
    var h := RecoverLeases(s, now);
    forall r: nat | r < |s.runs|
      ensures s.runs[r].task < |s.graph.tasks|
      ensures LeaseOverdue(s.runs[r], s.graph.tasks, now) <==> Abandoned(s.runs[r], s.graph.tasks[s.runs[r].task].status, now)
    {
      OverdueMeansAbandoned(s.runs[r], s.graph.tasks, now);
    }
    hide Inv, RecoverLeases, LeaseOverdue, Abandoned;
    forall t: nat | t < |s.graph.tasks|
      ensures (exists r :: 0 <= r < |s.runs| && OverdueRunOf(s, r, t, now)) <==>
                exists r :: 0 <= r < |s.runs| && s.runs[r].task == t && Abandoned(s.runs[r], s.graph.tasks[t].status, now)
    {
      if r :| 0 <= r < |s.runs| && s.runs[r].task == t && Abandoned(s.runs[r], s.graph.tasks[t].status, now) {
        assert OverdueRunOf(s, r, t, now);
      }
    }
  }

  /** After a recovery nothing is left abandoned: no run at work, and none under verification, is past its lease. */
  lemma RecoveryLeavesNoneAbandoned(s: State, now: int, r: nat)
    requires Inv(s) && r < |s.runs|
    ensures
      var h := RecoverLeases(s, now);
      && |h.runs| == |s.runs| && h.runs[r].task < |h.graph.tasks|
      && var status := h.graph.tasks[h.runs[r].task].status;
         && !Abandoned(h.runs[r], status, now)
         && ((h.runs[r].status == "running" && status == Running) || status == Verifying ==>
               h.runs[r].lease.released || now <= h.runs[r].lease.expiresAt)
  {
    RecoveryIsExact(s, now);
    hide Inv, RecoverLeases;
  }

  /** The design has recovery recheck a lease's generation; whatever generation the lease has, it is recovered alike. */
  lemma RecoveryIgnoresTheGeneration(s: State, r: nat, generation: nat, now: int)
    requires Inv(s) && r < |s.runs| && LeaseOverdue(s.runs[r], s.graph.tasks, now)
    ensures
      var other := s.runs[r].(lease := s.runs[r].lease.(generation := generation));
      var h := RecoverLeases(s.(runs := s.runs[r := other]), now);
      |h.runs| == |s.runs| && h.runs[r] == Orphaned(other)
  {
    assert forall q :: 0 <= q < |s.runs| ==> s.runs[q].task < |s.graph.tasks|;
    hide Inv;
    var other := s.runs[r].(lease := s.runs[r].lease.(generation := generation));
    var z := s.(runs := s.runs[r := other]);
    assert LeaseOverdue(z.runs[r], z.graph.tasks, now);
    OrphanedRuns(z, OverdueRuns(z.runs, z.graph.tasks, now, |z.runs|));
  }
}
