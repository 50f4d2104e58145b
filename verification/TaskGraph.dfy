/**
 Tasks, their statuses and their dependencies: cycle detection, promotion, and the guarantees that
 no work starts early and none is stranded.
 */
module TaskGraph {
  import opened Prelude
  import opened Domain

  /** The adapter identity an operator ties a task to. */
  datatype RoutePin = RoutePin(adapter: string, provider: string, account: string)

  datatype Task = Task(project: string, status: TaskStatus, version: nat, pin: Option<RoutePin>)

  datatype Dependency = Dependency(task: nat, on: nat)

  /** Tasks by row, and the dependency rows. */
  datatype Graph = Graph(tasks: seq<Task>, deps: set<Dependency>)

  datatype GraphError =
    | TaskNotFound
    | DependencyNotFound
    | DuplicateDependency
    | SelfDependency
    | CycleDetected
    | NotEditable
    | IllegalTransition
    | CompareAndSwapFailed
    | InvalidPin
    | PinReasonRequired

  predicate WellFormed(g: Graph) {
    forall d :: d in g.deps ==> d.task < |g.tasks| && d.on < |g.tasks| && d.task != d.on
  }

  // --- Cycles ---

  /** Consecutive elements are linked by dependencies. */
  predicate IsWalk(deps: set<Dependency>, p: seq<nat>) {
    |p| >= 2 && forall i: nat :: i < |p| - 1 ==> LinkedAt(deps, p, i)
  }

  predicate LinkedAt(deps: set<Dependency>, p: seq<nat>, i: nat)
    requires i < |p| - 1
  {
    Dependency(p[i], p[i + 1]) in deps
  }

  ghost predicate ClosedWalk(deps: set<Dependency>, p: seq<nat>) {
    IsWalk(deps, p) && p[0] == p[|p| - 1]
  }

  ghost predicate Cyclic(deps: set<Dependency>) {
    exists p :: ClosedWalk(deps, p)
  }

  /** The two end points of a walk. */
  datatype Span = Span(origin: nat, node: nat)

  function FirstLevel(deps: set<Dependency>): set<Span> {
    set d | d in deps :: Span(d.task, d.on)
  }

  /** One more dependency at the end of every walk. */
  function Extend(deps: set<Dependency>, level: set<Span>): set<Span> {
    set w, d | w in level && d in deps && d.task == w.node :: Span(w.origin, d.on)
  }

  /** The end points of the walks of exactly k dependencies. */
  function Level(deps: set<Dependency>, k: nat): set<Span>
    requires k > 0
  {
    if k == 1 then FirstLevel(deps) else Extend(deps, Level(deps, k - 1))
  }

  predicate HasClosedSpan(level: set<Span>) {
    exists w :: w in level && w.origin == w.node
  }

  lemma {:induction false} LevelHasWalk(deps: set<Dependency>, k: nat, w: Span) returns (p: seq<nat>)
    requires k > 0 && w in Level(deps, k)
    ensures IsWalk(deps, p) && |p| == k + 1 && p[0] == w.origin && p[k] == w.node
  {
    if k == 1 {
      p := [w.origin, w.node];
      assert LinkedAt(deps, p, 0);
    } else {
      var v, d :| v in Level(deps, k - 1) && d in deps && d.task == v.node && w == Span(v.origin, d.on);
      var q := LevelHasWalk(deps, k - 1, v);
      p := q + [d.on];
      forall i: nat | i < |p| - 1
        ensures LinkedAt(deps, p, i)
      {
        if i < |q| - 1 { assert LinkedAt(deps, q, i); }
      }
    }
  }

  lemma {:induction false} WalkIsInLevel(deps: set<Dependency>, p: seq<nat>)
    requires IsWalk(deps, p)
    ensures Span(p[0], p[|p| - 1]) in Level(deps, |p| - 1)
  {
    assert LinkedAt(deps, p, |p| - 2);
    if |p| > 2 {
      SubWalk(deps, p, 0, |p| - 2);
      WalkIsInLevel(deps, p[0..|p| - 1]);
    }
  }

  lemma SubWalk(deps: set<Dependency>, p: seq<nat>, i: nat, j: nat)
    requires IsWalk(deps, p) && i < j < |p|
    ensures IsWalk(deps, p[i..j + 1])
  {
    var q := p[i..j + 1];
    forall k: nat | k < |q| - 1
      ensures LinkedAt(deps, q, k)
    {
      assert LinkedAt(deps, p, i + k);
    }
  }

  ghost predicate Within(deps: set<Dependency>, n: nat) {
    forall d :: d in deps ==> d.task < n && d.on < n
  }

  lemma WalkNodesBounded(deps: set<Dependency>, p: seq<nat>, n: nat)
    requires IsWalk(deps, p) && Within(deps, n)
    ensures forall i :: 0 <= i < |p| ==> p[i] < n
  {
    forall i: nat | i < |p|
      ensures p[i] < n
    {
      assert LinkedAt(deps, p, if i < |p| - 1 then i else i - 1);
    }
  }

  /** A walk with more nodes than there are tasks revisits a node, so it contains a closed walk. */
  lemma LongWalkCloses(deps: set<Dependency>, p: seq<nat>, n: nat) returns (i: nat, j: nat)
    requires IsWalk(deps, p) && Within(deps, n) && |p| > n
    ensures i < j < |p| && ClosedWalk(deps, p[i..j + 1])
  {
    WalkNodesBounded(deps, p, n);
    Pigeonhole(p, n);
    i, j :| 0 <= i < j < |p| && p[i] == p[j];
    SubWalk(deps, p, i, j);
  }

  ghost predicate NoneClosedUpTo(deps: set<Dependency>, k: nat) {
    forall j :: 0 < j <= k ==> !HasClosedSpan(Level(deps, j))
  }

  lemma ClosedWalkClosesLevel(deps: set<Dependency>, p: seq<nat>)
    requires ClosedWalk(deps, p)
    ensures |p| >= 2 && HasClosedSpan(Level(deps, |p| - 1))
  {
    WalkIsInLevel(deps, p);
    hide Level;
    var span := Span(p[0], p[|p| - 1]);
    assert span.origin == span.node;
  }

  /** While no level so far has closed, a non-empty level is shorter than the number of tasks. */
  lemma NonEmptyLevelIsShort(deps: set<Dependency>, k: nat, n: nat)
    requires k > 0 && Level(deps, k) != {} && Within(deps, n) && NoneClosedUpTo(deps, k)
    ensures k < n
  {
    if k >= n {
      hide Level, IsWalk, Within;
      var w :| w in Level(deps, k);
      var p := LevelHasWalk(deps, k, w);
      var i, j := LongWalkCloses(deps, p, n);
      ClosedWalkClosesLevel(deps, p[i..j + 1]);
    }
  }

  /**
   The recursive walk query: it extends walks level by level until one closes or none is left. It
   reports a cycle exactly when one exists, and never computes more levels than there are tasks.
   */
  method DetectCycle(deps: set<Dependency>, n: nat) returns (cycle: bool, levels: nat)
    requires Within(deps, n)
    ensures cycle <==> Cyclic(deps)
    ensures levels <= n
  {
    var level := FirstLevel(deps);
    levels := 0;
    while level != {}
      invariant level == Level(deps, levels + 1)
      invariant NoneClosedUpTo(deps, levels)
      invariant levels <= n
      decreases n - levels
    {
      if HasClosedSpan(level) {
        ClosedSpanIsCycle(deps, levels + 1);
        return true, levels;
      }
      NonEmptyLevelIsShort(deps, levels + 1, n);
      level := Extend(deps, level);
      levels := levels + 1;
    }
    EmptyLevelMeansAcyclic(deps, levels);
    return false, levels;
  }

  lemma ClosedSpanIsCycle(deps: set<Dependency>, k: nat)
    requires k > 0 && HasClosedSpan(Level(deps, k))
    ensures Cyclic(deps)
  {
    var w :| w in Level(deps, k) && w.origin == w.node;
    var p := LevelHasWalk(deps, k, w);
    assert ClosedWalk(deps, p);
  }

  lemma EmptyLevelMeansAcyclic(deps: set<Dependency>, k: nat)
    requires NoneClosedUpTo(deps, k) && Level(deps, k + 1) == {}
    ensures !Cyclic(deps)
  {
    forall p: seq<nat> | IsWalk(deps, p)
      ensures !ClosedWalk(deps, p)
    {
      WalkIsInLevel(deps, p);
      if |p| - 1 > k {
        EmptyLevelStaysEmpty(deps, k + 1, |p| - 1);
      } else {
        assert !HasClosedSpan(Level(deps, |p| - 1));
      }
    }
  }

  lemma {:induction false} EmptyLevelStaysEmpty(deps: set<Dependency>, j: nat, k: nat)
    requires 0 < j <= k && Level(deps, j) == {}
    ensures Level(deps, k) == {}
    decreases k
  {
    if j < k {
      EmptyLevelStaysEmpty(deps, j, k - 1);
    }
  }

  // --- Transactions ---

  predicate DependenciesCompleted(g: Graph, t: nat)
    requires WellFormed(g)
  {
    forall d :: d in g.deps && d.task == t ==> g.tasks[d.on].status == Completed
  }

  function SetStatus(g: Graph, t: nat, next: TaskStatus): Graph
    requires t < |g.tasks|
  {
    g.(tasks := g.tasks[t := g.tasks[t].(status := next, version := g.tasks[t].version + 1)])
  }

  /** The compare-and-swap every ordinary status change goes through. */
  function TransitionTask(g: Graph, t: nat, expected: TaskStatus, next: TaskStatus): Result<Graph, GraphError> {
    if !expected.CanTransitionTo(next) then Err(IllegalTransition)
    else if t >= |g.tasks| then Err(TaskNotFound)
    else if g.tasks[t].status != expected then Err(CompareAndSwapFailed)
    else Ok(SetStatus(g, t, next))
  }

  /** Adding dependency rows one by one; a row that exists already violates the primary key. */
  function AddEdges(g: Graph, t: nat, dependencies: seq<nat>): (r: Result<set<Dependency>, GraphError>)
    ensures r.Err? ==> r.error in {DependencyNotFound, DuplicateDependency}
  {
    if dependencies == [] then Ok(g.deps)
    else
      match AddEdges(g, t, dependencies[..|dependencies| - 1])
      case Err(e) => Err(e)
      case Ok(deps) =>
        var d: nat := dependencies[|dependencies| - 1];
        var row := Dependency(t, d);
        if d >= |g.tasks| then Err(DependencyNotFound)
        else if row in deps then Err(DuplicateDependency)
        else Ok(deps + {row})
  }

  predicate PinValue(s: string) {
    s != "" && forall i :: 0 <= i < |s| ==> !IsWhitespace(s[i])
  }

  predicate ValidPin(pin: Option<RoutePin>) {
    pin.Some? ==> PinValue(pin.value.adapter) && PinValue(pin.value.provider) && PinValue(pin.value.account)
  }

  /** Pinning changes no status, and raises the version of a task of any status. */
  function SetRoutePin(g: Graph, t: nat, pin: Option<RoutePin>, reason: string): Result<Graph, GraphError> {
    if !NonBlank(reason) then Err(PinReasonRequired)
    else if t >= |g.tasks| then Err(TaskNotFound)
    else if !ValidPin(pin) then Err(InvalidPin)
    else Ok(g.(tasks := g.tasks[t := g.tasks[t].(pin := pin, version := g.tasks[t].version + 1)]))
  }

  /** The new task's row is the next one; it starts Ready when nothing it depends on is unfinished. */
  ghost function AddTask(g: Graph, project: string, dependencies: seq<nat>, pin: Option<RoutePin>)
    : Result<Graph, GraphError>
    requires WellFormed(g)
  {
    if !ValidPin(pin) then Err(InvalidPin)
    else
      var t := |g.tasks|;
      match AddEdges(g, t, dependencies)
      case Err(e) => Err(e)
      case Ok(deps) =>
        if Cyclic(deps) then Err(CycleDetected)
        else
          AddEdgesShape(g, t, dependencies);
          var drafted := Graph(g.tasks + [Task(project, Draft, 1, pin)], deps);
          if DependenciesCompleted(drafted, t) then Ok(SetStatus(drafted, t, Ready)) else Ok(drafted)
  }

  ghost function AddDependency(g: Graph, t: nat, d: nat): Result<Graph, GraphError> {
    if t >= |g.tasks| || d >= |g.tasks| then Err(TaskNotFound)
    else if g.tasks[t].status !in {Draft, Ready, Paused} then Err(NotEditable)
    else if t == d then Err(SelfDependency)
    else if Dependency(t, d) in g.deps then Err(DuplicateDependency)
    else if Cyclic(g.deps + {Dependency(t, d)}) then Err(CycleDetected)
    else
      var linked := g.(deps := g.deps + {Dependency(t, d)});
      if g.tasks[t].status == Ready then Ok(SetStatus(linked, t, Paused)) else Ok(linked)
  }

  /** The waiting dependents of t that have nothing left to wait for. */
  function Promotable(g: Graph, t: nat): set<nat>
    requires WellFormed(g)
  {
    set d | d in g.deps && d.on == t && g.tasks[d.task].status in {Draft, Paused} && DependenciesCompleted(g, d.task) :: d.task
  }

  function Promote(g: Graph, ts: set<nat>): Graph {
    g.(tasks := seq(|g.tasks|, i requires 0 <= i < |g.tasks| =>
      if i in ts then g.tasks[i].(status := Ready, version := g.tasks[i].version + 1) else g.tasks[i]))
  }

  function CompleteReview(g: Graph, t: nat): Result<Graph, GraphError>
    requires WellFormed(g)
  {
    match TransitionTask(g, t, Review, Completed)
    case Err(e) => Err(e)
    case Ok(done) => Ok(Promote(done, Promotable(done, t)))
  }

  /** Tasks in ts whose status is Leased go back to Ready, by way of Paused. */
  function Requeue(g: Graph, ts: set<nat>): Graph {
    g.(tasks := seq(|g.tasks|, i requires 0 <= i < |g.tasks| =>
      if i in ts && g.tasks[i].status == Leased
      then g.tasks[i].(status := Ready, version := g.tasks[i].version + 2) else g.tasks[i]))
  }

  /** Tasks in ts whose status is Leased are paused. */
  function PauseLeased(g: Graph, ts: set<nat>): Graph {
    g.(tasks := seq(|g.tasks|, i requires 0 <= i < |g.tasks| =>
      if i in ts && g.tasks[i].status == Leased
      then g.tasks[i].(status := Paused, version := g.tasks[i].version + 1) else g.tasks[i]))
  }

  /** Recovery writes Paused over any recoverable status, Verifying included, without the transition table. */
  predicate Recoverable(status: TaskStatus) {
    status in {Leased, Planning, AwaitingApproval, Running, Verifying}
  }

  // --- Invariants ---

  /** No Draft task waits for nothing. */
  predicate DraftsWait(g: Graph)
    requires WellFormed(g)
  {
    forall t :: 0 <= t < |g.tasks| && g.tasks[t].status == Draft ==> !DependenciesCompleted(g, t)
  }

  /** No task is in progress before everything it depends on is completed. */
  predicate NothingPremature(g: Graph)
    requires WellFormed(g)
  {
    forall t :: 0 <= t < |g.tasks| && g.tasks[t].status.InProgress() ==> DependenciesCompleted(g, t)
  }

  ghost predicate Inv(g: Graph) {
    WellFormed(g) && !Cyclic(g.deps) && DraftsWait(g) && NothingPremature(g)
  }

  /** A status change that completes nothing, drafts nothing, and starts nothing early. */
  ghost predicate QuietChange(g: Graph, h: Graph)
    requires WellFormed(g)
  {
    && h.deps == g.deps && |h.tasks| == |g.tasks|
    && forall t :: 0 <= t < |g.tasks| ==>
         && (h.tasks[t].status == Completed <==> g.tasks[t].status == Completed)
         && (h.tasks[t].status == Draft ==> g.tasks[t].status == Draft)
         && (h.tasks[t].status.InProgress() ==> g.tasks[t].status.InProgress() || DependenciesCompleted(g, t))
  }

  lemma QuietChangeKeepsInv(g: Graph, h: Graph)
    requires Inv(g) && QuietChange(g, h)
    ensures Inv(h)
  {
    forall t | 0 <= t < |g.tasks|
      ensures DependenciesCompleted(g, t) <==> DependenciesCompleted(h, t)
    {
    }
  }

  /** The task whose completion would release a Draft without promoting it. */
  predicate WouldStrand(g: Graph, t: nat)
    requires WellFormed(g)
  {
    exists d :: d in g.deps && d.on == t && g.tasks[d.task].status == Draft
                && forall e :: e in g.deps && e.task == d.task && e.on != t ==> g.tasks[e.on].status == Completed
  }

  /**
   A bare status change through the transition table keeps the guarantees exactly when it does not
   lease a task with unfinished dependencies, and does not complete a task some Draft waits for alone.
   */
  lemma TransitionKeepsInvExactly(g: Graph, t: nat, expected: TaskStatus, next: TaskStatus)
    requires Inv(g) && TransitionTask(g, t, expected, next).Ok?
    ensures Inv(TransitionTask(g, t, expected, next).value)
       <==> && (expected == Ready && next == Leased ==> DependenciesCompleted(g, t))
            && (expected == Review && next == Completed ==> !WouldStrand(g, t))
  {
    var h := SetStatus(g, t, next);
    if expected == Review && next == Completed {
      CompletionStrandsExactly(g, t, h);
    } else if expected == Ready && next == Leased && !DependenciesCompleted(g, t) {
      var d :| d in g.deps && d.task == t && g.tasks[d.on].status != Completed;
      assert d in h.deps && h.tasks[d.on].status != Completed;
      assert h.tasks[t].status.InProgress() && !DependenciesCompleted(h, t);
    } else {
      assert QuietChange(g, h);
      QuietChangeKeepsInv(g, h);
    }
  }

  lemma CompletionStrandsExactly(g: Graph, t: nat, h: Graph)
    requires Inv(g) && t < |g.tasks| && g.tasks[t].status == Review && h == SetStatus(g, t, Completed)
    ensures Inv(h) <==> !WouldStrand(g, t)
  {
    assert NothingPremature(h);
    if WouldStrand(g, t) {
      var d :| d in g.deps && d.on == t && g.tasks[d.task].status == Draft
               && forall e :: e in g.deps && e.task == d.task && e.on != t ==> g.tasks[e.on].status == Completed;
      assert h.tasks[d.task].status == Draft && DependenciesCompleted(h, d.task);
    } else {
      forall x | 0 <= x < |h.tasks| && h.tasks[x].status == Draft
        ensures !DependenciesCompleted(h, x)
      {
        assert !DependenciesCompleted(g, x);
        var d :| d in g.deps && d.task == x && g.tasks[d.on].status != Completed;
        if d.on == t {
          var e :| e in g.deps && e.task == x && e.on != t && g.tasks[e.on].status != Completed;
          assert h.tasks[e.on].status != Completed;
        } else {
          assert h.tasks[d.on].status != Completed;
        }
      }
    }
  }

  /** Completing a review through complete_review strands nothing, whatever waits for the task. */
  lemma CompleteReviewKeepsInv(g: Graph, t: nat)
    requires Inv(g) && CompleteReview(g, t).Ok?
    ensures Inv(CompleteReview(g, t).value)
  {
    var done := SetStatus(g, t, Completed);
    var h := Promote(done, Promotable(done, t));
    forall x | 0 <= x < |g.tasks|
      ensures DependenciesCompleted(h, x) <==> DependenciesCompleted(done, x)
    {
      forall d | d in g.deps
        ensures h.tasks[d.on].status == Completed <==> done.tasks[d.on].status == Completed
      {
      }
    }
    forall x | 0 <= x < |h.tasks| && h.tasks[x].status == Draft
      ensures !DependenciesCompleted(h, x)
    {
      assert !DependenciesCompleted(g, x);
      var d :| d in g.deps && d.task == x && g.tasks[d.on].status != Completed;
      assert x !in Promotable(done, t) && done.tasks[x].status == Draft;
      assert d.on != t ==> done.tasks[d.on].status != Completed;
      assert d.on == t ==> d.task == x && d in done.deps;
    }
  }

  /** What complete_review promotes: exactly the waiting dependents whose dependencies are now all completed. */
  lemma CompleteReviewPromotesExactly(g: Graph, t: nat, x: nat)
    requires WellFormed(g) && CompleteReview(g, t).Ok? && x < |g.tasks| && x != t
    ensures
      var h := CompleteReview(g, t).value;
      h.tasks[x] == if Dependency(x, t) in g.deps && g.tasks[x].status in {Draft, Paused}
                       && (forall d :: d in g.deps && d.task == x && d.on != t ==> g.tasks[d.on].status == Completed)
                    then g.tasks[x].(status := Ready, version := g.tasks[x].version + 1)
                    else g.tasks[x]
  {
    var done := SetStatus(g, t, Completed);
    assert DependenciesCompleted(done, x)
      <==> forall d :: d in g.deps && d.task == x && d.on != t ==> g.tasks[d.on].status == Completed;
    assert x in Promotable(done, t)
      <==> Dependency(x, t) in g.deps && g.tasks[x].status in {Draft, Paused} && DependenciesCompleted(done, x) by {
      if Dependency(x, t) in g.deps && g.tasks[x].status in {Draft, Paused} && DependenciesCompleted(done, x) {
        assert Dependency(x, t) in done.deps;
      }
    }
  }

  lemma {:induction false} AddEdgesShape(g: Graph, t: nat, dependencies: seq<nat>)
    requires AddEdges(g, t, dependencies).Ok?
    ensures
      var deps := AddEdges(g, t, dependencies).value;
      && g.deps <= deps
      && (forall d :: d in deps && d !in g.deps ==> d.task == t && d.on < |g.tasks|)
      && (forall d :: d in deps ==> d in g.deps || (d.task == t && d.on in dependencies))
      && (forall d :: d in dependencies ==> Dependency(t, d) in deps)
  {
    if dependencies != [] {
      AddEdgesShape(g, t, dependencies[..|dependencies| - 1]);
    }
  }

  lemma AddTaskKeepsInv(g: Graph, project: string, dependencies: seq<nat>, pin: Option<RoutePin>)
    requires Inv(g) && AddTask(g, project, dependencies, pin).Ok?
    ensures Inv(AddTask(g, project, dependencies, pin).value)
  {
    var t, h := |g.tasks|, AddTask(g, project, dependencies, pin).value;
    AddEdgesShape(g, t, dependencies);
    forall x | 0 <= x < t
      ensures DependenciesCompleted(h, x) <==> DependenciesCompleted(g, x)
    {
      assert forall d :: d in h.deps && d.task == x ==> d in g.deps;
    }
  }

  /** A new task can only depend on older ones, so adding a task never closes a cycle. */
  lemma AddTaskNeverClosesACycle(g: Graph, project: string, dependencies: seq<nat>, pin: Option<RoutePin>)
    requires Inv(g)
    ensures AddTask(g, project, dependencies, pin) != Err(CycleDetected)
  {
    if AddEdges(g, |g.tasks|, dependencies).Ok? {
      var deps := AddEdges(g, |g.tasks|, dependencies).value;
      AddEdgesShape(g, |g.tasks|, dependencies);
      forall p: seq<nat>
        ensures !ClosedWalk(deps, p)
      {
        if ClosedWalk(deps, p) { NewNodeClosesNothing(g, |g.tasks|, deps, p); }
      }
    }
  }

  lemma NewNodeClosesNothing(g: Graph, t: nat, deps: set<Dependency>, p: seq<nat>)
    requires !Cyclic(g.deps) && forall d :: d in deps ==> d in g.deps || d.task == t
    requires forall d :: d in deps ==> d.on != t
    ensures !ClosedWalk(deps, p)
  {
    if ClosedWalk(deps, p) {
      forall i: nat | i < |p| - 1
        ensures LinkedAt(g.deps, p, i)
      {
        assert LinkedAt(deps, p, i);
        assert LinkedAt(deps, p, if i > 0 then i - 1 else |p| - 2);
      }
      assert ClosedWalk(g.deps, p);
    }
  }

  lemma {:induction false} EdgesAddedExactly(g: Graph, t: nat, dependencies: seq<nat>)
    requires forall d :: d in g.deps ==> d.task != t
    ensures AddEdges(g, t, dependencies).Ok? <==>
              && (forall k :: 0 <= k < |dependencies| ==> dependencies[k] < |g.tasks|)
              && (forall j, k :: 0 <= j < k < |dependencies| ==> dependencies[j] != dependencies[k])
    ensures AddEdges(g, t, dependencies).Ok? ==>
              forall d :: d in AddEdges(g, t, dependencies).value <==> d in g.deps || (d.task == t && d.on in dependencies)
  {
    if dependencies != [] {
      var n := |dependencies| - 1;
      var front := dependencies[..n];
      EdgesAddedExactly(g, t, front);
      assert forall k :: 0 <= k < n ==> front[k] == dependencies[k];
      assert dependencies == front + [dependencies[n]];
    }
  }

  /**
   A task is added exactly when its pin's values are non-empty and without whitespace and its dependencies are
   different tasks that exist. It keeps its project and its pin, and is Ready at once exactly when nothing it
   depends on is unfinished.
   */
  lemma AddTaskExactly(g: Graph, project: string, dependencies: seq<nat>, pin: Option<RoutePin>)
    requires Inv(g)
    ensures AddTask(g, project, dependencies, pin).Ok? <==>
              && PinAccepted(pin)
              && (forall k :: 0 <= k < |dependencies| ==> dependencies[k] < |g.tasks|)
              && (forall j, k :: 0 <= j < k < |dependencies| ==> dependencies[j] != dependencies[k])
    ensures AddTask(g, project, dependencies, pin).Ok? ==>
              var h, t := AddTask(g, project, dependencies, pin).value, |g.tasks|;
              var ready := forall k :: 0 <= k < |dependencies| ==> g.tasks[dependencies[k]].status == Completed;
              && h.tasks == g.tasks + [Task(project, if ready then Ready else Draft, if ready then 2 else 1, pin)]
              && forall d :: d in h.deps <==> d in g.deps || (d.task == t && d.on in dependencies)
  {
    EdgesAddedExactly(g, |g.tasks|, dependencies);
    AddTaskNeverClosesACycle(g, project, dependencies, pin);
    if AddTask(g, project, dependencies, pin).Ok? {
      var h, t := AddTask(g, project, dependencies, pin).value, |g.tasks|;
      AddEdgesShape(g, t, dependencies);
      assert forall k :: 0 <= k < |dependencies| ==> Dependency(t, dependencies[k]) in h.deps;
    }
  }

  predicate PinAccepted(pin: Option<RoutePin>) {
    pin.Some? ==>
      && pin.value.adapter != "" && pin.value.provider != "" && pin.value.account != ""
      && (forall c :: c in pin.value.adapter ==> !IsWhitespace(c))
      && (forall c :: c in pin.value.provider ==> !IsWhitespace(c))
      && (forall c :: c in pin.value.account ==> !IsWhitespace(c))
  }

  /** A dependency is added exactly before a lease, between different tasks, once, and closing no cycle; a Ready task is paused. */
  lemma AddDependencyExactly(g: Graph, t: nat, d: nat)
    ensures AddDependency(g, t, d).Ok? <==>
              && t < |g.tasks| && d < |g.tasks| && t != d
              && (g.tasks[t].status == Draft || g.tasks[t].status == Ready || g.tasks[t].status == Paused)
              && Dependency(t, d) !in g.deps && !Cyclic(g.deps + {Dependency(t, d)})
    ensures AddDependency(g, t, d).Ok? ==>
              var h := AddDependency(g, t, d).value;
              && h.deps == g.deps + {Dependency(t, d)} && |h.tasks| == |g.tasks|
              && (forall x :: 0 <= x < |g.tasks| && x != t ==> h.tasks[x] == g.tasks[x])
              && h.tasks[t] == if g.tasks[t].status == Ready
                               then g.tasks[t].(status := Paused, version := g.tasks[t].version + 1) else g.tasks[t]
  {
    hide Cyclic;
  }

  /** A status changes only along the table and from the status the caller expects; a pin needs a reason and proper values. */
  lemma ChangedExactly(g: Graph, t: nat, expected: TaskStatus, next: TaskStatus, pin: Option<RoutePin>, reason: string)
    ensures TransitionTask(g, t, expected, next).Ok? <==>
              t < |g.tasks| && g.tasks[t].status == expected && expected.CanTransitionTo(next)
    ensures TransitionTask(g, t, expected, next).Ok? ==>
              TransitionTask(g, t, expected, next).value
              == g.(tasks := g.tasks[t := g.tasks[t].(status := next, version := g.tasks[t].version + 1)])
    ensures SetRoutePin(g, t, pin, reason).Ok? <==> NonBlank(reason) && t < |g.tasks| && PinAccepted(pin)
    ensures SetRoutePin(g, t, pin, reason).Ok? ==>
              SetRoutePin(g, t, pin, reason).value
              == g.(tasks := g.tasks[t := g.tasks[t].(pin := pin, version := g.tasks[t].version + 1)])
  {
  }

  lemma SetRoutePinKeepsInv(g: Graph, t: nat, pin: Option<RoutePin>, reason: string)
    requires Inv(g) && SetRoutePin(g, t, pin, reason).Ok?
    ensures Inv(SetRoutePin(g, t, pin, reason).value)
  {
    QuietChangeKeepsInv(g, SetRoutePin(g, t, pin, reason).value);
  }

  lemma AddDependencyKeepsInv(g: Graph, t: nat, d: nat)
    requires Inv(g) && AddDependency(g, t, d).Ok?
    ensures Inv(AddDependency(g, t, d).value)
  {
    var h := AddDependency(g, t, d).value;
    forall x | 0 <= x < |g.tasks|
      ensures x != t ==> (DependenciesCompleted(h, x) <==> DependenciesCompleted(g, x))
      ensures !DependenciesCompleted(g, x) ==> !DependenciesCompleted(h, x)
    {
      if x != t {
        assert forall e :: e in h.deps && e.task == x ==> e in g.deps;
      }
      if !DependenciesCompleted(g, x) {
        var e :| e in g.deps && e.task == x && g.tasks[e.on].status != Completed;
        assert e in h.deps && h.tasks[e.on].status != Completed;
      }
    }
  }

  lemma RequeueKeepsInv(g: Graph, ts: set<nat>)
    requires Inv(g)
    ensures Inv(Requeue(g, ts)) && Inv(PauseLeased(g, ts))
  {
    QuietChangeKeepsInv(g, Requeue(g, ts));
    QuietChangeKeepsInv(g, PauseLeased(g, ts));
  }

  lemma EmptyGraphInv()
    ensures Inv(Graph([], {}))
  {
    forall p: seq<nat>
      ensures !ClosedWalk({}, p)
    {
      assert |p| >= 2 ==> !LinkedAt({}, p, 0);
    }
  }

  // --- Progress ---

  ghost predicate BlockedWithin(deps: set<Dependency>, s: set<nat>, t: nat) {
    exists d :: d in deps && d.task == t && d.on in s
  }

  lemma {:induction false} WalkWithin(deps: set<Dependency>, s: set<nat>, from: nat, k: nat) returns (p: seq<nat>)
    requires from in s && k > 0 && forall t :: t in s ==> BlockedWithin(deps, s, t)
    ensures IsWalk(deps, p) && |p| == k + 1 && p[k] in s
  {
    var q := [from];
    if k > 1 { q := WalkWithin(deps, s, from, k - 1); }
    assert BlockedWithin(deps, s, q[k - 1]);
    var d :| d in deps && d.task == q[k - 1] && d.on in s;
    p := q + [d.on];
    forall i: nat | i < k
      ensures LinkedAt(deps, p, i)
    {
      if i < k - 1 { assert LinkedAt(deps, q, i); }
    }
  }

  lemma AllBlockedIsCyclic(deps: set<Dependency>, s: set<nat>, n: nat)
    requires Within(deps, n) && s != {} && forall t :: t in s ==> BlockedWithin(deps, s, t)
    ensures Cyclic(deps)
  {
    var from :| from in s;
    var p := WalkWithin(deps, s, from, n + 1);
    var i, j := LongWalkCloses(deps, p, n);
  }

  /** Any non-empty set of tasks contains one that depends on nothing inside the set. */
  lemma SomeTaskIsUnblocked(g: Graph, s: set<nat>)
    requires Inv(g) && s != {}
    ensures exists t :: t in s && !BlockedWithin(g.deps, s, t)
  {
    if forall t :: t in s ==> BlockedWithin(g.deps, s, t) {
      AllBlockedIsCyclic(g.deps, s, |g.tasks|);
    }
  }

  /** Among unfinished tasks some task has every dependency completed, so work can always proceed. */
  lemma UnfinishedWorkCanProceed(g: Graph)
    requires Inv(g) && exists t :: 0 <= t < |g.tasks| && g.tasks[t].status != Completed
    ensures exists t :: 0 <= t < |g.tasks| && g.tasks[t].status != Completed && DependenciesCompleted(g, t)
  {
    var open := set t: nat | t < |g.tasks| && g.tasks[t].status != Completed;
    var w :| 0 <= w < |g.tasks| && g.tasks[w].status != Completed;
    assert w in open;
    SomeTaskIsUnblocked(g, open);
    var t :| t in open && !BlockedWithin(g.deps, open, t);
    assert DependenciesCompleted(g, t);
  }

  // --- The two transitions that bypass the guarantees ---

  /** Task 1 depends on task 0. */
  function TwoTasks(first: TaskStatus, second: TaskStatus): Graph {
    Graph([Task("p", first, 1, None), Task("p", second, 1, None)], {Dependency(1, 0)})
  }

  lemma OneDependencyIsAcyclic(t: nat, d: nat)
    requires t != d
    ensures !Cyclic({Dependency(t, d)})
  {
    var deps := {Dependency(t, d)};
    forall p: seq<nat>
      ensures !ClosedWalk(deps, p)
    {
      if IsWalk(deps, p) {
        assert LinkedAt(deps, p, 0) && LinkedAt(deps, p, |p| - 2);
      }
    }
  }

  /** Completing a review by a bare transition leaves its Draft dependent waiting for nothing. */
  lemma BareCompletionStrands()
    ensures
      var g := TwoTasks(Review, Draft);
      Inv(g) && TransitionTask(g, 0, Review, Completed).Ok?
      && !DraftsWait(TransitionTask(g, 0, Review, Completed).value)
  {
    OneDependencyIsAcyclic(1, 0);
    var g := TwoTasks(Review, Draft);
    assert Dependency(1, 0) in g.deps;
    var h := TransitionTask(g, 0, Review, Completed).value;
    assert h.tasks[1].status == Draft && DependenciesCompleted(h, 1);
  }

  /** Leasing by a bare transition starts a task whose dependency is not completed. */
  lemma BareLeaseIsPremature()
    ensures
      var g := TwoTasks(Ready, Ready);
      Inv(g) && TransitionTask(g, 1, Ready, Leased).Ok?
      && !NothingPremature(TransitionTask(g, 1, Ready, Leased).value)
  {
    OneDependencyIsAcyclic(1, 0);
    var g := TwoTasks(Ready, Ready);
    var h := TransitionTask(g, 1, Ready, Leased).value;
    assert Dependency(1, 0) in h.deps && h.tasks[1].status.InProgress();
  }
}
