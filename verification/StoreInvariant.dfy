/**
 How the scheduler's tables agree with each other, and the few kinds of row change that keep them so.
 */
module StoreInvariant {
  import opened Prelude
  import opened Domain
  import opened Store
  import TaskGraph
  import Api = ApiBudget
  import LedgerProofs = ApiLedgerProofs

  // --- The invariant, table by table ---

  /** A claim is consumed exactly when it has a run, which does its task under its maker's lease. */
  ghost predicate ClaimFits(c: Claim, n: nat, runs: seq<Run>) {
    && c.task < n
    && (c.run.Some? <==> c.status == ClaimConsumed)
    && (c.run.Some? ==>
          && c.run.value < |runs| && runs[c.run.value].task == c.task
          && runs[c.run.value].lease.owner == c.instance && runs[c.run.value].lease.generation == c.generation)
  }

  ghost predicate ClaimsFit(n: nat, claims: seq<Claim>, runs: seq<Run>) {
    && (forall c :: 0 <= c < |claims| ==> ClaimFits(claims[c], n, runs))
    && (forall r :: 0 <= r < |runs| ==> runs[r].task < n)
  }

  /** No task has two active claims, and no run consumed two claims. */
  ghost predicate ClaimsUnique(claims: seq<Claim>) {
    forall c, d :: 0 <= c < d < |claims| ==>
      && (claims[c].status == ClaimActive && claims[d].status == ClaimActive ==> claims[c].task != claims[d].task)
      && (claims[c].run.Some? ==> claims[c].run != claims[d].run)
  }

  ghost predicate HasClaim(claims: seq<Claim>, r: nat) {
    exists c :: 0 <= c < |claims| && claims[c].run == Some(r)
  }

  /** Every run came from a claim. */
  ghost predicate RunsClaimed(claims: seq<Claim>, runs: seq<Run>) {
    forall r: nat :: r < |runs| ==> HasClaim(claims, r)
  }

  predicate UnderLease(c: Claim, runs: seq<Run>) {
    c.run.Some? && c.run.value < |runs| && !runs[c.run.value].lease.released
  }

  /** A claim is in force while it is active and then while its run's lease is unreleased. */
  predicate InForce(c: Claim, runs: seq<Run>) {
    c.status == ClaimActive || UnderLease(c, runs)
  }

  /** A lock is live exactly while its claim is in force. */
  ghost predicate LocksFit(claims: seq<Claim>, runs: seq<Run>, locks: seq<Lock>) {
    forall l :: 0 <= l < |locks| ==>
      locks[l].claim < |claims| && (locks[l].released <==> !InForce(claims[locks[l].claim], runs))
  }

  ghost predicate LocksUnique(locks: seq<Lock>) {
    forall i, j :: 0 <= i < j < |locks| && !locks[i].released && !locks[j].released ==>
      locks[i].resource != locks[j].resource
  }

  ghost predicate HoldsLock(locks: seq<Lock>, c: nat, r: Resource) {
    exists l :: 0 <= l < |locks| && locks[l].claim == c && locks[l].resource == r
  }

  /** Every claim locked its task's project. */
  ghost predicate ProjectsHeld(tasks: seq<TaskGraph.Task>, claims: seq<Claim>, locks: seq<Lock>) {
    forall c :: 0 <= c < |claims| ==>
      claims[c].task < |tasks| && HoldsLock(locks, c, Resource(PROJECT, tasks[claims[c].task].project))
  }

  /** A held quota row expires with its claim while active, and with its run's lease while running. */
  ghost predicate QuotaFits(row: QuotaRow, claims: seq<Claim>, runs: seq<Run>) {
    && row.claim < |claims| && 0.0 <= row.percent
    && (row.run.Some? ==> row.run == claims[row.claim].run)
    && (row.status == QuotaActive ==>
          claims[row.claim].status == ClaimActive && row.run.None? && row.expiresAt == claims[row.claim].expiresAt)
    && (row.status == QuotaRunning ==>
          && UnderLease(claims[row.claim], runs) && row.run == claims[row.claim].run
          && row.expiresAt == runs[row.run.value].lease.expiresAt)
  }

  ghost predicate QuotaFit(claims: seq<Claim>, runs: seq<Run>, quota: seq<QuotaRow>) {
    forall i :: 0 <= i < |quota| ==> QuotaFits(quota[i], claims, runs)
  }

  /** An undispatched API reservation of a claim expires with it, and outlives it only under its run's lease. */
  ghost predicate ApiFits(r: Api.Reservation, claims: seq<Claim>, runs: seq<Run>) {
    r.claim.Some? ==>
      && r.claim.value < |claims|
      && (r.run.Some? ==> r.run == claims[r.claim.value].run)
      && (r.status == Api.Active ==>
            if r.run.None?
            then claims[r.claim.value].status == ClaimActive && r.expiresAt == claims[r.claim.value].expiresAt
            else UnderLease(claims[r.claim.value], runs))
  }

  ghost predicate ApiFit(claims: seq<Claim>, runs: seq<Run>, rows: seq<Api.Reservation>) {
    forall i :: 0 <= i < |rows| ==> ApiFits(rows[i], claims, runs)
  }

  /** No two surfaces share a primary key, so none share an identity. */
  ghost predicate SurfacesUnique(surfaces: seq<Surface>) {
    forall i, j :: 0 <= i < j < |surfaces| ==> !SameSurface(surfaces[i], surfaces[j])
  }

  predicate SameSurface(a: Surface, b: Surface) {
    SurfaceId(a.provider, a.account, a.key) == SurfaceId(b.provider, b.account, b.key)
  }

  /** Under an emergency stop nothing is claimed and new work is paused. */
  ghost predicate EmergencyFits(control: Control, claims: seq<Claim>) {
    control.emergency ==> control.pause && forall c :: 0 <= c < |claims| ==> claims[c].status != ClaimActive
  }

  /** No claim is newer than the leadership, and those of its generation are its owner's. */
  ghost predicate LeaderFits(leader: Option<Leader>, claims: seq<Claim>) {
    forall c :: 0 <= c < |claims| ==>
      && leader.Some? && claims[c].generation <= leader.value.generation
      && (claims[c].generation == leader.value.generation ==> claims[c].instance == leader.value.instance)
  }

  ghost predicate ClaimTables(s: State) {
    && ClaimsFit(|s.graph.tasks|, s.claims, s.runs) && ClaimsUnique(s.claims) && RunsClaimed(s.claims, s.runs)
    && LocksFit(s.claims, s.runs, s.locks) && LocksUnique(s.locks)
    && ProjectsHeld(s.graph.tasks, s.claims, s.locks)
    && QuotaFit(s.claims, s.runs, s.quota)
    && ApiFit(s.claims, s.runs, s.api.reservations)
  }

  ghost predicate Inv(s: State) {
    && TaskGraph.Inv(s.graph) && LedgerProofs.Inv(s.api)
    && ClaimTables(s) && SurfacesUnique(s.surfaces)
    && EmergencyFits(s.control, s.claims) && LeaderFits(s.leader, s.claims)
  }

  lemma EmptyStateInv()
    ensures Inv(EmptyState)
  {
    TaskGraph.EmptyGraphInv();
    LedgerProofs.EmptyLedgerInv();
  }

  /** Claims that have become runs stay so, and no run is added. */
  lemma RunsStayClaimed(claims: seq<Claim>, runs: seq<Run>, later: seq<Claim>, after: seq<Run>)
    requires RunsClaimed(claims, runs) && |claims| <= |later| && |after| <= |runs|
    requires forall c :: 0 <= c < |claims| && claims[c].run.Some? ==> later[c].run == claims[c].run
    ensures RunsClaimed(later, after)
  {
    forall r: nat | r < |after|
      ensures HasClaim(later, r)
    {
      assert HasClaim(claims, r);
      var c :| 0 <= c < |claims| && claims[c].run == Some(r);
      assert later[c].run == Some(r);
    }
  }

  // --- An active claim ends ---

  predicate Ends(status: ClaimStatus) {
    status == ClaimReleased || status == ClaimExpired
  }

  lemma EndKeepsClaims(n: nat, claims: seq<Claim>, runs: seq<Run>, c: nat, status: ClaimStatus)
    requires ClaimsFit(n, claims, runs) && ClaimsUnique(claims)
    requires c < |claims| && claims[c].status == ClaimActive && Ends(status)
    ensures ClaimsFit(n, claims[c := claims[c].(status := status)], runs)
    ensures ClaimsUnique(claims[c := claims[c].(status := status)])
  {
    assert ClaimFits(claims[c], n, runs);
    assert ClaimFits(claims[c].(status := status), n, runs);
  }

  lemma EndKeepsLocks(n: nat, claims: seq<Claim>, runs: seq<Run>, locks: seq<Lock>, c: nat, status: ClaimStatus)
    requires LocksFit(claims, runs, locks) && LocksUnique(locks)
    requires c < |claims| && claims[c].status == ClaimActive && Ends(status) && ClaimFits(claims[c], n, runs)
    ensures LocksFit(claims[c := claims[c].(status := status)], runs, ReleaseLocks(locks, {c}))
    ensures LocksUnique(ReleaseLocks(locks, {c}))
  {
  }

  lemma EndKeepsQuota(n: nat, claims: seq<Claim>, runs: seq<Run>, quota: seq<QuotaRow>, c: nat, status: ClaimStatus)
    requires QuotaFit(claims, runs, quota)
    requires c < |claims| && claims[c].status == ClaimActive && Ends(status) && ClaimFits(claims[c], n, runs)
    ensures QuotaFit(claims[c := claims[c].(status := status)], runs, ReleaseClaimQuota(quota, c))
  {
    forall i | 0 <= i < |quota|
      ensures QuotaFits(ReleaseClaimQuota(quota, c)[i], claims[c := claims[c].(status := status)], runs)
    {
      assert QuotaFits(quota[i], claims, runs);
    }
  }

  lemma EndKeepsApi(n: nat, claims: seq<Claim>, runs: seq<Run>, l: Api.Ledger, c: nat, status: ClaimStatus)
    requires ApiFit(claims, runs, l.reservations)
    requires c < |claims| && claims[c].status == ClaimActive && Ends(status) && ClaimFits(claims[c], n, runs)
    ensures ApiFit(claims[c := claims[c].(status := status)], runs, Api.ReleaseForClaims(l, {c}).reservations)
  {
    forall i | 0 <= i < |l.reservations|
      ensures ApiFits(Api.ReleaseForClaims(l, {c}).reservations[i], claims[c := claims[c].(status := status)], runs)
    {
      assert ApiFits(l.reservations[i], claims, runs);
    }
  }

  ghost predicate SameProjects(tasks: seq<TaskGraph.Task>, after: seq<TaskGraph.Task>) {
    |tasks| <= |after| && forall t :: 0 <= t < |tasks| ==> after[t].project == tasks[t].project
  }

  /** Locks are only added or released, and claims keep their tasks. */
  lemma ProjectsStayHeld(tasks: seq<TaskGraph.Task>, claims: seq<Claim>, locks: seq<Lock>,
                         after: seq<TaskGraph.Task>, later: seq<Claim>, kept: seq<Lock>)
    requires ProjectsHeld(tasks, claims, locks) && SameProjects(tasks, after)
    requires |later| == |claims| && forall c :: 0 <= c < |claims| ==> later[c].task == claims[c].task
    requires |kept| >= |locks|
    requires forall l :: 0 <= l < |locks| ==> kept[l].claim == locks[l].claim && kept[l].resource == locks[l].resource
    ensures ProjectsHeld(after, later, kept)
  {
    forall c | 0 <= c < |later|
      ensures HoldsLock(kept, c, Resource(PROJECT, after[later[c].task].project))
    {
      var r := Resource(PROJECT, tasks[claims[c].task].project);
      assert HoldsLock(locks, c, r);
      var l :| 0 <= l < |locks| && locks[l].claim == c && locks[l].resource == r;
      assert kept[l].claim == c && kept[l].resource == r;
    }
  }

  lemma EndClaimKeepsTables(s: State, c: nat, ending: Ending)
    requires ClaimTables(s) && c < |s.claims| && s.claims[c].status == ClaimActive
    ensures ClaimTables(EndClaim(s, c, ending))
  {
    var h, n, status := EndClaim(s, c, ending), |s.graph.tasks|, EndedStatus(ending);
    assert ClaimFits(s.claims[c], n, s.runs);
    EndKeepsClaims(n, s.claims, s.runs, c, status);
    RunsStayClaimed(s.claims, s.runs, h.claims, h.runs);
    EndKeepsLocks(n, s.claims, s.runs, s.locks, c, status);
    EndKeepsQuota(n, s.claims, s.runs, s.quota, c, status);
    EndKeepsApi(n, s.claims, s.runs, s.api, c, status);
    ProjectsStayHeld(s.graph.tasks, s.claims, s.locks, h.graph.tasks, h.claims, h.locks);
  }

  lemma EndClaimKeepsInv(s: State, c: nat, ending: Ending)
    requires TaskGraph.Inv(s.graph) && LedgerProofs.Inv(s.api) && ClaimTables(s)
    requires LeaderFits(s.leader, s.claims)
    requires c < |s.claims| && s.claims[c].status == ClaimActive
    ensures
      var h := EndClaim(s, c, ending);
      TaskGraph.Inv(h.graph) && LedgerProofs.Inv(h.api) && ClaimTables(h) && LeaderFits(h.leader, h.claims)
  {
    EndClaimKeepsTables(s, c, ending);
    TaskGraph.RequeueKeepsInv(s.graph, {s.claims[c].task});
    LedgerProofs.SweepsAreRowwise(s.api, 0, {c}, {});
    LedgerProofs.RowwiseKeepsInv(s.api, Api.ReleaseForClaims(s.api, {c}));
  }

  /** A list of distinct active claims. */
  ghost predicate Endable(s: State, cs: seq<nat>) {
    && (forall k :: 0 <= k < |cs| ==> cs[k] < |s.claims| && s.claims[cs[k]].status == ClaimActive)
    && (forall j, k :: 0 <= j < k < |cs| ==> cs[j] != cs[k])
  }

  /** The claims of the list end and the others are untouched. */
  lemma {:induction false} EndClaimsExactly(s: State, cs: seq<nat>, ending: Ending)
    requires Endable(s, cs)
    ensures forall c: nat :: c < |s.claims| ==>
              EndClaims(s, cs, ending).claims[c] ==
              if c in cs then s.claims[c].(status := EndedStatus(ending)) else s.claims[c]
  {
    if cs != [] {
      var front := cs[..|cs| - 1];
      EndClaimsExactly(s, front, ending);
      assert cs[|cs| - 1] !in front;
      assert forall c: nat :: c in cs <==> c in front || c == cs[|cs| - 1];
    }
  }

  /** Everything EndClaims does not touch. */
  lemma {:induction false} EndClaimsFrame(s: State, cs: seq<nat>, ending: Ending)
    requires forall k :: 0 <= k < |cs| ==> cs[k] < |s.claims|
    ensures var h := EndClaims(s, cs, ending);
            && h.control == s.control && h.instances == s.instances && h.leader == s.leader && h.routes == s.routes
            && h.surfaces == s.surfaces && h.runs == s.runs && |h.locks| == |s.locks| && |h.quota| == |s.quota|
  {
    if cs != [] {
      EndClaimsFrame(s, cs[..|cs| - 1], ending);
    }
  }

  lemma {:induction false} EndClaimsKeepsInv(s: State, cs: seq<nat>, ending: Ending)
    requires TaskGraph.Inv(s.graph) && LedgerProofs.Inv(s.api) && ClaimTables(s) && LeaderFits(s.leader, s.claims)
    requires Endable(s, cs)
    ensures
      var h := EndClaims(s, cs, ending);
      TaskGraph.Inv(h.graph) && LedgerProofs.Inv(h.api) && ClaimTables(h) && LeaderFits(h.leader, h.claims)
  {
    if cs != [] {
      var front := cs[..|cs| - 1];
      EndClaimsKeepsInv(s, front, ending);
      EndClaimsExactly(s, front, ending);
      assert cs[|cs| - 1] !in front;
      EndClaimKeepsInv(EndClaims(s, front, ending), cs[|cs| - 1], ending);
    }
  }

  // --- Active claims are renewed ---

  lemma RenewKeepsTables(s: State, instance: string, generation: nat, expiresAt: int)
    requires ClaimTables(s)
    ensures ClaimTables(Renew(s, instance, generation, expiresAt))
  {
    var h := Renew(s, instance, generation, expiresAt);
    assert ClaimsFit(|s.graph.tasks|, h.claims, h.runs) by {
      assert forall c :: 0 <= c < |s.claims| ==> ClaimFits(s.claims[c], |s.graph.tasks|, s.runs);
    }
    RunsStayClaimed(s.claims, s.runs, h.claims, h.runs);
    forall i | 0 <= i < |h.quota|
      ensures QuotaFits(h.quota[i], h.claims, h.runs)
    {
      assert QuotaFits(s.quota[i], s.claims, s.runs);
    }
    forall i | 0 <= i < |h.api.reservations|
      ensures ApiFits(h.api.reservations[i], h.claims, h.runs)
    {
      assert ApiFits(s.api.reservations[i], s.claims, s.runs);
    }
    ProjectsStayHeld(s.graph.tasks, s.claims, s.locks, h.graph.tasks, h.claims, h.locks);
  }

  // --- A claim is consumed into a run ---

  lemma ConsumeKeepsClaims(s: State, c: nat, runId: string, expiresAt: int)
    requires ClaimsFit(|s.graph.tasks|, s.claims, s.runs) && ClaimsUnique(s.claims)
    requires c < |s.claims| && s.claims[c].status == ClaimActive && s.claims[c].task < |s.graph.tasks|
    ensures
      var h := Consume(s, c, runId, expiresAt);
      ClaimsFit(|s.graph.tasks|, h.claims, h.runs) && ClaimsUnique(h.claims)
  {
    var h := Consume(s, c, runId, expiresAt);
    forall d | 0 <= d < |h.claims|
      ensures ClaimFits(h.claims[d], |s.graph.tasks|, h.runs)
    {
      assert ClaimFits(s.claims[d], |s.graph.tasks|, s.runs);
    }
  }

  lemma ConsumeClaimsItsRun(s: State, c: nat, runId: string, expiresAt: int)
    requires ClaimsFit(|s.graph.tasks|, s.claims, s.runs) && RunsClaimed(s.claims, s.runs)
    requires c < |s.claims| && s.claims[c].status == ClaimActive && s.claims[c].task < |s.graph.tasks|
    ensures var h := Consume(s, c, runId, expiresAt); RunsClaimed(h.claims, h.runs)
  {
    var h := Consume(s, c, runId, expiresAt);
    assert ClaimFits(s.claims[c], |s.graph.tasks|, s.runs);
    RunsStayClaimed(s.claims, s.runs, h.claims, s.runs);
    assert h.claims[c].run == Some(|s.runs|);
    assert HasClaim(h.claims, |s.runs|);
  }

  lemma ConsumeKeepsRows(s: State, c: nat, runId: string, expiresAt: int)
    requires ClaimTables(s)
    requires c < |s.claims| && s.claims[c].status == ClaimActive && s.claims[c].task < |s.graph.tasks|
    ensures
      var h := Consume(s, c, runId, expiresAt);
      && LocksFit(h.claims, h.runs, h.locks) && QuotaFit(h.claims, h.runs, h.quota)
      && ApiFit(h.claims, h.runs, h.api.reservations)
  {
    var h, n := Consume(s, c, runId, expiresAt), |s.graph.tasks|;
    forall d | 0 <= d < |h.claims|
      ensures InForce(h.claims[d], h.runs) <==> InForce(s.claims[d], s.runs)
      ensures d != c ==> (UnderLease(h.claims[d], h.runs) <==> UnderLease(s.claims[d], s.runs))
      ensures UnderLease(h.claims[c], h.runs)
    {
      assert ClaimFits(s.claims[d], n, s.runs);
    }
    assert ClaimFits(s.claims[c], n, s.runs);
    forall i | 0 <= i < |h.quota|
      ensures QuotaFits(h.quota[i], h.claims, h.runs)
    {
      assert QuotaFits(s.quota[i], s.claims, s.runs);
    }
    forall i | 0 <= i < |h.api.reservations|
      ensures ApiFits(h.api.reservations[i], h.claims, h.runs)
    {
      assert ApiFits(s.api.reservations[i], s.claims, s.runs);
    }
  }

  lemma ConsumeKeepsTables(s: State, c: nat, runId: string, expiresAt: int)
    requires ClaimTables(s)
    requires c < |s.claims| && s.claims[c].status == ClaimActive && s.claims[c].task < |s.graph.tasks|
    ensures ClaimTables(Consume(s, c, runId, expiresAt))
  {
    var h := Consume(s, c, runId, expiresAt);
    ConsumeKeepsClaims(s, c, runId, expiresAt);
    ConsumeClaimsItsRun(s, c, runId, expiresAt);
    ConsumeKeepsRows(s, c, runId, expiresAt);
    ProjectsStayHeld(s.graph.tasks, s.claims, s.locks, h.graph.tasks, h.claims, h.locks);
  }

  // --- Runs change without their leases ---

  ghost predicate SameLeases(runs: seq<Run>, after: seq<Run>) {
    |after| == |runs|
    && forall r :: 0 <= r < |runs| ==> after[r].task == runs[r].task && after[r].lease == runs[r].lease
  }

  /** Statuses of tasks and runs, and cancellations, are of no concern to the claim tables. */
  lemma StatusChangeKeepsTables(s: State, h: State)
    requires ClaimTables(s) && SameLeases(s.runs, h.runs) && SameProjects(s.graph.tasks, h.graph.tasks)
    requires h.claims == s.claims && h.locks == s.locks && h.quota == s.quota && h.api.reservations == s.api.reservations
    ensures ClaimTables(h)
  {
    RunsStayClaimed(s.claims, s.runs, h.claims, h.runs);
    forall c | 0 <= c < |h.claims|
      ensures ClaimFits(h.claims[c], |h.graph.tasks|, h.runs)
      ensures UnderLease(h.claims[c], h.runs) <==> UnderLease(s.claims[c], s.runs)
    {
      assert ClaimFits(s.claims[c], |s.graph.tasks|, s.runs);
    }
    forall i | 0 <= i < |h.quota|
      ensures QuotaFits(h.quota[i], h.claims, h.runs)
    {
      assert QuotaFits(s.quota[i], s.claims, s.runs);
    }
    forall i | 0 <= i < |h.api.reservations|
      ensures ApiFits(h.api.reservations[i], h.claims, h.runs)
    {
      assert ApiFits(s.api.reservations[i], s.claims, s.runs);
    }
    ProjectsStayHeld(s.graph.tasks, s.claims, s.locks, h.graph.tasks, h.claims, h.locks);
  }

  // --- A lease is extended ---

  lemma ExtendLeaseKeepsTables(s: State, h: State, r: nat, expiresAt: int)
    requires ClaimTables(s) && r < |s.runs|
    requires h == s.(runs := s.runs[r := s.runs[r].(lease := s.runs[r].lease.(expiresAt := expiresAt))],
                     quota := ExtendRunQuota(s.quota, r, expiresAt))
    ensures ClaimTables(h)
  {
    RunsStayClaimed(s.claims, s.runs, h.claims, h.runs);
    forall c | 0 <= c < |h.claims|
      ensures ClaimFits(h.claims[c], |h.graph.tasks|, h.runs)
      ensures UnderLease(h.claims[c], h.runs) <==> UnderLease(s.claims[c], s.runs)
    {
      assert ClaimFits(s.claims[c], |s.graph.tasks|, s.runs);
    }
    forall i | 0 <= i < |h.quota|
      ensures QuotaFits(h.quota[i], h.claims, h.runs)
    {
      assert QuotaFits(s.quota[i], s.claims, s.runs);
    }
    forall i | 0 <= i < |h.api.reservations|
      ensures ApiFits(h.api.reservations[i], h.claims, h.runs)
    {
      assert ApiFits(s.api.reservations[i], s.claims, s.runs);
    }
  }

  // --- A run gives up what it holds ---

  lemma ReservationsEndKeepsTables(s: State, r: nat)
    requires ClaimTables(s)
    ensures ClaimTables(ReleaseRunReservations(s, r))
  {
    var h := ReleaseRunReservations(s, r);
    forall i | 0 <= i < |h.quota|
      ensures QuotaFits(h.quota[i], h.claims, h.runs)
    {
      assert QuotaFits(s.quota[i], s.claims, s.runs);
    }
    forall i | 0 <= i < |h.api.reservations|
      ensures ApiFits(h.api.reservations[i], h.claims, h.runs)
    {
      assert ApiFits(s.api.reservations[i], s.claims, s.runs);
    }
  }

  function EndRun(s: State, r: nat): State
    requires r < |s.runs|
  {
    ReleaseRunReservations(ReleaseLease(s, r), r)
  }

  lemma EndRunLeases(s: State, r: nat, c: nat)
    requires ClaimTables(s) && r < |s.runs| && c < |s.claims|
    ensures
      var h := EndRun(s, r);
      && ClaimFits(h.claims[c], |h.graph.tasks|, h.runs)
      && (UnderLease(h.claims[c], h.runs) <==> UnderLease(s.claims[c], s.runs) && s.claims[c].run != Some(r))
      && (c in ClaimsOfRun(s.claims, r) <==> s.claims[c].run == Some(r))
  {
    assert ClaimFits(s.claims[c], |s.graph.tasks|, s.runs);
  }

  lemma EndRunKeepsRows(s: State, r: nat)
    requires ClaimTables(s) && r < |s.runs|
    ensures
      var h := EndRun(s, r);
      && QuotaFit(h.claims, h.runs, h.quota) && ApiFit(h.claims, h.runs, h.api.reservations)
  {
    var h := EndRun(s, r);
    forall i | 0 <= i < |h.quota|
      ensures QuotaFits(h.quota[i], h.claims, h.runs)
    {
      assert QuotaFits(s.quota[i], s.claims, s.runs);
      EndRunLeases(s, r, s.quota[i].claim);
    }
    forall i | 0 <= i < |h.api.reservations|
      ensures ApiFits(h.api.reservations[i], h.claims, h.runs)
    {
      assert ApiFits(s.api.reservations[i], s.claims, s.runs);
      if s.api.reservations[i].claim.Some? {
        EndRunLeases(s, r, s.api.reservations[i].claim.value);
      }
    }
  }

  lemma EndRunKeepsTables(s: State, r: nat)
    requires ClaimTables(s) && r < |s.runs|
    ensures ClaimTables(EndRun(s, r))
  {
    var h := EndRun(s, r);
    RunsStayClaimed(s.claims, s.runs, h.claims, h.runs);
    EndRunKeepsRows(s, r);
    forall c | 0 <= c < |s.claims|
      ensures ClaimFits(h.claims[c], |h.graph.tasks|, h.runs)
      ensures UnderLease(h.claims[c], h.runs) <==> UnderLease(s.claims[c], s.runs) && s.claims[c].run != Some(r)
      ensures c in ClaimsOfRun(s.claims, r) <==> s.claims[c].run == Some(r)
    {
      EndRunLeases(s, r, c);
    }
    assert forall c :: 0 <= c < |s.claims| ==> ClaimFits(s.claims[c], |s.graph.tasks|, s.runs);
    assert LocksFit(h.claims, h.runs, h.locks) && LocksUnique(h.locks);
    ProjectsStayHeld(s.graph.tasks, s.claims, s.locks, h.graph.tasks, h.claims, h.locks);
  }

  // --- The ledger moves on its own ---

  /** Ledger transactions of the API client neither bind, renew nor revive a claim's reservation. */
  lemma LedgerStepKeepsTables(s: State, h: State)
    requires ClaimTables(s) && h == s.(api := h.api)
    requires |s.api.reservations| <= |h.api.reservations|
    requires forall i :: 0 <= i < |s.api.reservations| ==>
               var r, q := s.api.reservations[i], h.api.reservations[i];
               && q.claim == r.claim && q.run == r.run && q.expiresAt == r.expiresAt
               && (q.status == Api.Active ==> r.status == Api.Active)
    requires forall i :: |s.api.reservations| <= i < |h.api.reservations| ==> h.api.reservations[i].claim.None?
    ensures ClaimTables(h)
  {
    forall i | 0 <= i < |h.api.reservations|
      ensures ApiFits(h.api.reservations[i], h.claims, h.runs)
    {
      if i < |s.api.reservations| { assert ApiFits(s.api.reservations[i], s.claims, s.runs); }
    }
  }

  // --- A new claim with everything it holds ---

  lemma {:induction false} LockResourcesShape(locks: seq<Lock>, claim: nat, resources: seq<Resource>)
    requires LockResources(locks, claim, resources).Ok?
    ensures
      var h := LockResources(locks, claim, resources).value;
      && locks <= h && |h| == |locks| + |resources|
      && (forall i :: |locks| <= i < |h| ==> h[i] == Lock(resources[i - |locks|], claim, false))
    ensures LocksUnique(locks) ==> LocksUnique(LockResources(locks, claim, resources).value)
  {
    if resources != [] {
      LockResourcesShape(locks, claim, resources[..|resources| - 1]);
    }
  }

  /** New locks of one claim, on resources nobody holds. */
  ghost predicate LocksAdded(locks: seq<Lock>, h: seq<Lock>, claim: nat) {
    && locks <= h && (LocksUnique(locks) ==> LocksUnique(h))
    && forall i :: |locks| <= i < |h| ==> h[i].claim == claim && !h[i].released
  }

  lemma {:induction false} FreeSlotIsFirst(locks: seq<Lock>, kind: string, owner: string, slot: nat, limit: nat)
    ensures
      var r := FreeSlot(locks, kind, owner, slot, limit);
      && (r.Some? ==> slot <= r.value < limit && !Occupied(locks, Resource(kind, SlotKey(owner, r.value))))
      && (forall k :: slot <= k < (if r.Some? then r.value else limit) ==> Occupied(locks, Resource(kind, SlotKey(owner, k))))
    decreases limit - slot
  {
    hide SlotKey, Occupied;
    if slot < limit && Occupied(locks, Resource(kind, SlotKey(owner, slot))) {
      FreeSlotIsFirst(locks, kind, owner, slot + 1, limit);
    }
  }

  lemma AcquireSlotAdds(locks: seq<Lock>, claim: nat, kind: string, owner: string, limit: nat)
    requires AcquireSlot(locks, claim, kind, owner, limit).Some?
    ensures LocksAdded(locks, AcquireSlot(locks, claim, kind, owner, limit).value, claim)
  {
    FreeSlotIsFirst(locks, kind, owner, 0, limit);
  }

  lemma ClaimLocksAdded(s: State, r: ClaimRequest, resources: seq<Resource>)
    requires ClaimSlots(s, r).Ok? && LockResources(ClaimSlots(s, r).value, |s.claims|, resources).Ok?
    ensures
      var h := LockResources(ClaimSlots(s, r).value, |s.claims|, resources).value;
      && LocksAdded(s.locks, h, |s.claims|)
      && (resources != [] ==> HoldsLock(h, |s.claims|, resources[0]))
  {
    var slots := ClaimSlots(s, r).value;
    if r.limits.Some? {
      var l := r.limits.value;
      AcquireSlotAdds(s.locks, |s.claims|, ADAPTER_SLOT, l.adapter, l.perAdapter);
      var withAdapter := AcquireSlot(s.locks, |s.claims|, ADAPTER_SLOT, l.adapter, l.perAdapter).value;
      AcquireSlotAdds(withAdapter, |s.claims|, ACCOUNT_SLOT, AccountOwner(l), l.perAccount);
    }
    LockResourcesShape(slots, |s.claims|, resources);
    if resources != [] {
      assert LockResources(slots, |s.claims|, resources).value[|slots|].resource == resources[0];
    }
  }

  lemma {:induction false} ReserveSurfacesAdds(quota: seq<QuotaRow>, surfaces: seq<Surface>, f: Forecast, n: nat, now: int)
    requires n <= |surfaces| && ReserveSurfaces(quota, surfaces, f, n, now).Ok?
    ensures
      var h := ReserveSurfaces(quota, surfaces, f, n, now).value;
      quota <= h && forall i :: |quota| <= i < |h| ==> h[i] == NewQuotaRow(h[i].surface, f) && h[i].surface < n
  {
    if n > 0 {
      ReserveSurfacesAdds(quota, surfaces, f, n - 1, now);
    }
  }

  /** The states a successful claim goes from and to, with what it added to each table. */
  ghost predicate ClaimAdded(s: State, h: State, claim: Claim) {
    && claim.status == ClaimActive && claim.run.None? && claim.task < |s.graph.tasks|
    && !HasActiveClaim(s.claims, claim.task)
    && h.claims == s.claims + [claim] && h.runs == s.runs
    && h.graph == TaskGraph.SetStatus(s.graph, claim.task, TaskStatus.Leased)
    && LocksAdded(s.locks, h.locks, |s.claims|)
    && HoldsLock(h.locks, |s.claims|, Resource(PROJECT, s.graph.tasks[claim.task].project))
    && (forall i :: 0 <= i < |s.quota| <= |h.quota| ==>
          h.quota[i] == s.quota[i] || h.quota[i] == s.quota[i].(status := QuotaExpired))
    && |s.quota| <= |h.quota|
    && (forall i :: |s.quota| <= i < |h.quota| ==> QuotaRowOf(h.quota[i], claim, |s.claims|))
    && |s.api.reservations| <= |h.api.reservations|
    && (forall i :: 0 <= i < |s.api.reservations| ==>
          h.api.reservations[i] == s.api.reservations[i]
          || h.api.reservations[i] == s.api.reservations[i].(status := Api.Expired))
    && (forall i :: |s.api.reservations| <= i < |h.api.reservations| ==>
          ReservationOf(h.api.reservations[i], claim, |s.claims|))
  }

  ghost predicate QuotaRowOf(row: QuotaRow, claim: Claim, c: nat) {
    row.claim == c && row.run.None? && row.status == QuotaActive && row.expiresAt == claim.expiresAt && 0.0 <= row.percent
  }

  ghost predicate ReservationOf(r: Api.Reservation, claim: Claim, c: nat) {
    r.claim == Some(c) && r.run.None? && r.status == Api.Active && r.expiresAt == claim.expiresAt
  }

  lemma ClaimAddedKeepsClaims(s: State, h: State, claim: Claim)
    requires ClaimAdded(s, h, claim) && ClaimsFit(|s.graph.tasks|, s.claims, s.runs) && ClaimsUnique(s.claims)
    requires LocksFit(s.claims, s.runs, s.locks) && LocksUnique(s.locks)
    ensures ClaimsFit(|h.graph.tasks|, h.claims, h.runs) && ClaimsUnique(h.claims)
    ensures LocksFit(h.claims, h.runs, h.locks) && LocksUnique(h.locks)
  {
    forall c | 0 <= c < |h.claims|
      ensures ClaimFits(h.claims[c], |h.graph.tasks|, h.runs)
    {
      if c < |s.claims| { assert ClaimFits(s.claims[c], |s.graph.tasks|, s.runs); }
    }
    assert forall c :: 0 <= c < |s.claims| ==> h.claims[c] == s.claims[c];
  }

  lemma ClaimAddedKeepsRows(s: State, h: State, claim: Claim)
    requires ClaimAdded(s, h, claim)
    requires QuotaFit(s.claims, s.runs, s.quota) && ApiFit(s.claims, s.runs, s.api.reservations)
    ensures QuotaFit(h.claims, h.runs, h.quota) && ApiFit(h.claims, h.runs, h.api.reservations)
  {
    assert forall c :: 0 <= c < |s.claims| ==> h.claims[c] == s.claims[c];
    forall i | 0 <= i < |h.quota|
      ensures QuotaFits(h.quota[i], h.claims, h.runs)
    {
      if i < |s.quota| { assert QuotaFits(s.quota[i], s.claims, s.runs); }
      else { assert QuotaRowOf(h.quota[i], claim, |s.claims|); }
    }
    forall i | 0 <= i < |h.api.reservations|
      ensures ApiFits(h.api.reservations[i], h.claims, h.runs)
    {
      if i < |s.api.reservations| { assert ApiFits(s.api.reservations[i], s.claims, s.runs); }
      else { assert ReservationOf(h.api.reservations[i], claim, |s.claims|); }
    }
  }

  lemma ClaimAddedKeepsProjects(s: State, h: State, claim: Claim)
    requires ClaimAdded(s, h, claim) && ProjectsHeld(s.graph.tasks, s.claims, s.locks)
    ensures ProjectsHeld(h.graph.tasks, h.claims, h.locks)
  {
    ProjectsStayHeld(s.graph.tasks, s.claims, s.locks, h.graph.tasks, s.claims, h.locks);
  }

  lemma ClaimAddedKeepsTables(s: State, h: State, claim: Claim)
    requires ClaimAdded(s, h, claim) && ClaimTables(s)
    ensures ClaimTables(h)
  {
    ClaimAddedKeepsClaims(s, h, claim);
    RunsStayClaimed(s.claims, s.runs, h.claims, h.runs);
    ClaimAddedKeepsRows(s, h, claim);
    ClaimAddedKeepsProjects(s, h, claim);
  }
}
