/**
 One task from the empty store to its completion, step by step: the states at which the design and the
 program part, each reached by transactions.
 */
module StoreScenario {
  import opened Prelude
  import opened Domain
  import opened Store
  import opened StoreInvariant
  import opened StoreSteps
  import opened StoreTheorems
  import TaskGraph
  import Api = ApiBudget

  // --- Reachable states ---

  ghost predicate ReachedBy(s: State, steps: seq<Step>) {
    AllDisciplined(steps) && Reached(steps) == s
  }

  ghost predicate Reachable(s: State) {
    exists steps :: ReachedBy(s, steps)
  }

  lemma ReachableAgrees(s: State)
    requires Reachable(s)
    ensures Inv(s)
  {
  }

  lemma EmptyIsReachable()
    ensures Reachable(EmptyState)
  {
    hide Inv;
    assert ReachedBy(EmptyState, []);
  }

  lemma AfterOneMore(s: State, steps: seq<Step>, step: Step)
    requires Inv(s) && AllDisciplined(steps) && Disciplined(step.op)
    ensures AllDisciplined(steps + [step]) && After(s, steps + [step]) == Next(After(s, steps), step)
  {
    hide Inv, Next;
    assert (steps + [step])[..|steps|] == steps;
  }

  lemma NextIs(s: State, op: Op, now: int, h: State)
    requires Inv(s) && Disciplined(op) && Apply(s, op, now) == Ok(h)
    ensures Next(s, Step(now, op)) == h
  {
    hide Inv, Apply;
  }

  lemma ReachedByOneMore(s: State, steps: seq<Step>, step: Step)
    requires Inv(s) && ReachedBy(s, steps) && Disciplined(step.op)
    ensures ReachedBy(Next(s, step), steps + [step])
  {
    hide Inv, After, Next;
    EmptyStateInv();
    AfterOneMore(EmptyState, steps, step);
  }

  lemma StepReaches(s: State, op: Op, now: int, h: State)
    requires Reachable(s) && Disciplined(op) && TaskGraph.WellFormed(s.graph) && Apply(s, op, now) == Ok(h)
    ensures Reachable(h)
  {
    var steps: seq<Step> :| ReachedBy(s, steps);
    NextIs(s, op, now, h);
    hide Inv, Apply, After, Next;
    ReachedByOneMore(s, steps, Step(now, op));
  }

  // --- The states ---

  function Digest(): (s: string)
    ensures IsSha256Hex(s)
  {
    seq(64, _ => 'a')
  }

  const BUDGET := Api.Budget(
    "p", "openai", "a", true, None, None, None, Some(5), 0, 100, ["m"], [], ["planner"], 10, 1, 1, "r")
  const LIMITS := Limits("api", "openai", "a", 1, 1, 0.0)
  const REQUEST := ClaimRequest(
    "i", 1, 0, 2, 10, 1, Some(0), [], Some(LIMITS), Some(ApiClaim("m", "planner", Digest(), 0, 0, 1, 2)))
  const TIMEOUT := Api.Failure(Api.RetryableFailure, "timeout", true, None)

  const RegisteredStore := EmptyState.(instances := {"i"})
  const LedStore := RegisteredStore.(leader := Some(Leader("i", 1, 100)))
  const BudgetedStore := LedStore.(api := Api.EmptyLedger.(budgets := [BUDGET]))
  const NewTask := BudgetedStore.(graph := OneTask(Ready, 2))
  const RoutedTask := NewTask.(routes := [Route(0, true, Some("api"), Some("openai"), Some("a"))])

  /** Its claim holds a slot of the adapter, a slot of the account, the project, and an API reservation. */
  const ClaimedTask := RoutedTask.(
    graph := OneTask(TaskStatus.Leased, 3),
    claims := [Claim(0, "i", 1, ClaimActive, 10, Some(0), None)],
    locks := [Lock(Resource(ADAPTER_SLOT, SlotKey("api", 0)), 0, false),
              Lock(Resource(ACCOUNT_SLOT, SlotKey(AccountOwner(LIMITS), 0)), 0, false),
              Lock(Resource(PROJECT, "p"), 0, false)],
    api := BudgetedStore.api.(reservations := [Reserved(Api.Active, None)]))

  const RunningTask := ClaimedTask.(
    graph := OneTask(Running, 5),
    claims := [Claim(0, "i", 1, ClaimConsumed, 10, Some(0), Some(0))],
    runs := [Run("r", 0, "running", NotRequested, None, Lease("i", 1, 10, false))],
    api := BudgetedStore.api.(reservations := [Reserved(Api.Active, Some(0))]))

  /** Its API request was dispatched, and may be retried. */
  const RetryingTask := RunningTask.(
    api := BudgetedStore.api.(reservations := [Reserved(Api.Dispatched, Some(0))],
                              attempts := [Api.Attempt(0, 1, Api.RetryableFailure)]))

  /** Its process succeeded, and it is being verified. */
  const VerifyingTask := RunningTask.(
    graph := OneTask(Verifying, 6),
    runs := [Run("r", 0, "verifying", NotRequested, None, Lease("i", 1, 10, false))],
    api := BudgetedStore.api.(reservations := [Reserved(Api.Released, Some(0))]))

  /** It was judged, and its run has not been finished. */
  const ReviewedTask := VerifyingTask.(graph := OneTask(Review, 7))

  const CompletedTask := VerifyingTask.(graph := OneTask(Completed, 8))

  /** It was paused and readied by hand while it was claimed, and there is a task it could depend on. */
  const ReadyTaskHeld := ClaimedTask.(
    graph := TaskGraph.Graph([TaskGraph.Task("p", Ready, 5, None), TaskGraph.Task("q", Ready, 2, None)], {}))

  function OneTask(status: TaskStatus, version: nat): TaskGraph.Graph {
    TaskGraph.Graph([TaskGraph.Task("p", status, version, None)], {})
  }

  function Reserved(status: Api.ReservationStatus, run: Option<nat>): Api.Reservation {
    Api.Reservation(
      0, "p", 0, "openai", "a", "m", "planner", Digest(), 0, 0, 2, 2, 0, 1, status, 10, Some(0), run)
  }

  // --- The steps ---

  lemma NothingDependsOnNothing()
    ensures !TaskGraph.Cyclic({})
  {
    TaskGraph.EmptyGraphInv();
  }

  lemma BudgetIsValid()
    ensures Api.ValidBudget(BUDGET)
  {
    assert BUDGET.reason[0] == 'r';
  }

  lemma LedStoreReached()
    ensures Reachable(LedStore)
  {
    EmptyIsReachable();
    hide Reachable;
    assert NonBlank("i") by { assert !IsWhitespace("i"[0]); }
    assert EmptyState.instances + {"i"} == RegisteredStore.instances;
    StepReaches(EmptyState, RegisterInstanceOp("i", "i"), 0, RegisteredStore);
    StepReaches(RegisteredStore, AcquireLeaderOp("i", 100), 0, LedStore);
  }

  lemma BudgetedStoreReached()
    ensures Reachable(BudgetedStore)
  {
    LedStoreReached();
    BudgetIsValid();
    hide Reachable, Api.ValidBudget;
    assert LedStore.api.budgets + [BUDGET] == BudgetedStore.api.budgets;
    StepReaches(LedStore, LedgerOp(Api.ConfigureBudgetOp(BUDGET)), 0, BudgetedStore);
  }

  lemma NewTaskReached()
    ensures Reachable(NewTask)
  {
    BudgetedStoreReached();
    NothingDependsOnNothing();
    hide Reachable, TaskGraph.Cyclic;
    var g := BudgetedStore.graph;
    assert g.tasks + [TaskGraph.Task("p", Draft, 1, None)] == OneTask(Draft, 1).tasks;
    assert TaskGraph.SetStatus(OneTask(Draft, 1), 0, Ready).tasks == NewTask.graph.tasks;
    assert TaskGraph.AddTask(g, "p", [], None) == Ok(NewTask.graph);
    StepReaches(BudgetedStore, AddTaskOp("p", [], None), 0, NewTask);
  }

  lemma RoutedTaskReached()
    ensures Reachable(RoutedTask)
  {
    NewTaskReached();
    hide Reachable;
    assert NewTask.routes + [RoutedTask.routes[0]] == RoutedTask.routes;
    StepReaches(NewTask, RecordRouteOp(RoutedTask.routes[0]), 0, RoutedTask);
  }

  lemma ClaimIsReserved()
    ensures ClaimApi(RoutedTask, REQUEST, 0) == Ok(ClaimedTask.api)
  {
    var l, r := RoutedTask.api, ApiRequest(RoutedTask, REQUEST, 0);
    assert Api.ValidRequest(r);
    assert Api.ExpireReservations(l, 0).reservations == l.reservations;
    assert Api.CheckTotals(l, 0, r).Ok?;
    assert Api.NewReservation(0, r, Some(0)) == Reserved(Api.Active, None);
    assert l.reservations + [Reserved(Api.Active, None)] == ClaimedTask.api.reservations;
    assert Api.ReserveTx(l, r, Some(0)) == Ok(ClaimedTask.api);
  }

  lemma ClaimIsLocked()
    ensures
      var slots := ClaimSlots(RoutedTask, REQUEST);
      slots.Ok? && LockResources(slots.value, 0, [Resource(PROJECT, "p")]) == Ok(ClaimedTask.locks)
  {
    hide SlotKey;
    assert ADAPTER_SLOT[1] == 'd' && ACCOUNT_SLOT[1] == 'c' && PROJECT[1] == 'r';
    var locks := ClaimedTask.locks;
    assert RoutedTask.locks + [locks[0]] == locks[..1] && locks[..1] + [locks[1]] == locks[..2];
    assert AcquireSlot(RoutedTask.locks, 0, ADAPTER_SLOT, "api", 1) == Some(locks[..1]);
    assert AcquireSlot(locks[..1], 0, ACCOUNT_SLOT, AccountOwner(LIMITS), 1) == Some(locks[..2]);
    assert ClaimSlots(RoutedTask, REQUEST) == Ok(locks[..2]);
    assert [Resource(PROJECT, "p")][..0] == [];
    assert LockResources(locks[..2], 0, []) == Ok(locks[..2]);
    assert locks[..2] + [locks[2]] == locks;
  }

  lemma ClaimedTaskReached()
    ensures Reachable(ClaimedTask)
  {
    RoutedTaskReached();
    ClaimIsReserved();
    ClaimIsLocked();
    hide Reachable, ClaimApi, ClaimSlots, LockResources;
    var s := RoutedTask;
    assert OverdueClaims(s.claims, 0) == [] && UnexpiredClaims(s.claims, 0) == [];
    assert ExpireClaims(s, 0) == s;
    assert [Resource(PROJECT, "p")] + REQUEST.resources == [Resource(PROJECT, "p")];
    assert TaskGraph.SetStatus(s.graph, 0, TaskStatus.Leased).tasks == ClaimedTask.graph.tasks;
    assert s.claims + [NewClaim(REQUEST, 0)] == ClaimedTask.claims;
    assert AcquireForClaim(s, REQUEST, 0) == Ok(ClaimedTask);
    assert ClaimTask(s, REQUEST, 0) == Ok(ClaimedTask);
    StepReaches(s, ClaimTaskOp(REQUEST), 0, ClaimedTask);
  }

  lemma RunningTaskReached()
    ensures Reachable(RunningTask)
  {
    ClaimedTaskReached();
    hide Reachable;
    var s, h := ClaimedTask, Consume(ClaimedTask, 0, "r", 10);
    assert h.api.reservations == RunningTask.api.reservations;
    assert h.graph.tasks == RunningTask.graph.tasks && h.quota == s.quota;
    assert h.claims == RunningTask.claims && h.runs == RunningTask.runs;
    assert BeginClaimedRun(s, 0, "i", 1, "r", "api", 10, 0) == Ok(RunningTask);
    StepReaches(s, BeginClaimedRunOp(0, "i", 1, "r", "api", 10), 0, RunningTask);
  }

  lemma RetryingTaskReached()
    ensures Reachable(RetryingTask)
  {
    RunningTaskReached();
    hide Reachable;
    var l := RunningTask.api;
    var attempted := l.(reservations := RetryingTask.api.reservations, attempts := [Api.Attempt(0, 1, Api.Started)]);
    assert l.reservations[0 := Reserved(Api.Dispatched, Some(0))] == attempted.reservations;
    assert l.attempts + [Api.Attempt(0, 1, Api.Started)] == attempted.attempts;
    assert Api.BeginAttempt(l, 0, 1) == Ok(attempted);
    StepReaches(RunningTask, LedgerOp(Api.BeginAttemptOp(0)), 1, RunningTask.(api := attempted));
    assert NonBlank(TIMEOUT.kind) by { assert !IsWhitespace(TIMEOUT.kind[0]); }
    assert attempted.attempts[0 := Api.Attempt(0, 1, Api.RetryableFailure)] == RetryingTask.api.attempts;
    assert Api.FailAttempt(attempted, 0, TIMEOUT) == Ok(RetryingTask.api);
    StepReaches(RunningTask.(api := attempted), LedgerOp(Api.FailAttemptOp(0, TIMEOUT)), 2, RetryingTask);
  }

  lemma VerifyingTaskReached()
    ensures Reachable(VerifyingTask)
  {
    RunningTaskReached();
    hide Reachable;
    var s, h := RunningTask, RecordOutcome(RunningTask, 0, None).value;
    assert h.graph.tasks == VerifyingTask.graph.tasks && h.runs == VerifyingTask.runs && h.quota == s.quota;
    assert h.api.reservations == VerifyingTask.api.reservations;
    StepReaches(s, RecordOutcomeOp(0, None), 2, VerifyingTask);
  }

  lemma ReviewedTaskReached()
    ensures Reachable(ReviewedTask)
  {
    VerifyingTaskReached();
    hide Reachable;
    assert TaskGraph.SetStatus(VerifyingTask.graph, 0, Review).tasks == ReviewedTask.graph.tasks;
    StepReaches(VerifyingTask, TransitionTaskOp(0, Verifying, Review), 3, ReviewedTask);
  }

  lemma ReviewIsAccepted()
    ensures TaskGraph.CompleteReview(ReviewedTask.graph, 0) == Ok(CompletedTask.graph)
  {
    var done := TaskGraph.SetStatus(ReviewedTask.graph, 0, Completed);
    assert TaskGraph.Promotable(done, 0) == {};
    assert done.tasks == CompletedTask.graph.tasks;
    assert TaskGraph.Promote(done, {}).tasks == done.tasks;
  }

  lemma CompletedTaskReached()
    ensures Reachable(CompletedTask)
  {
    ReviewedTaskReached();
    ReviewIsAccepted();
    hide Reachable, TaskGraph.CompleteReview;
    StepReaches(ReviewedTask, CompleteReviewOp(0), 4, CompletedTask);
  }

  const PausedByHand := ClaimedTask.(graph := OneTask(Paused, 4))
  const ReadiedByHand := ClaimedTask.(graph := OneTask(Ready, 5))

  lemma ReadiedByHandReached()
    ensures Reachable(ReadiedByHand)
  {
    ClaimedTaskReached();
    hide Reachable;
    assert TaskGraph.SetStatus(ClaimedTask.graph, 0, Paused).tasks == PausedByHand.graph.tasks;
    StepReaches(ClaimedTask, TransitionTaskOp(0, TaskStatus.Leased, Paused), 1, PausedByHand);
    assert TaskGraph.SetStatus(PausedByHand.graph, 0, Ready).tasks == ReadiedByHand.graph.tasks;
    StepReaches(PausedByHand, TransitionTaskOp(0, Paused, Ready), 2, ReadiedByHand);
  }

  lemma ReadyTaskHeldReached()
    ensures Reachable(ReadyTaskHeld)
  {
    ReadiedByHandReached();
    NothingDependsOnNothing();
    hide Reachable, TaskGraph.Cyclic;
    var g := ReadiedByHand.graph;
    var drafted := g.(tasks := g.tasks + [TaskGraph.Task("q", Draft, 1, None)]);
    assert TaskGraph.SetStatus(drafted, 1, Ready).tasks == ReadyTaskHeld.graph.tasks;
    assert TaskGraph.AddTask(g, "q", [], None) == Ok(ReadyTaskHeld.graph);
    StepReaches(ReadiedByHand, AddTaskOp("q", [], None), 3, ReadyTaskHeld);
  }
}
