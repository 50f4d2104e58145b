/**
 Task histories as paths through the status table: every change of a task row raises its version by one,
 and is a route pin or one edge of the table, except that lease recovery adds an edge of its own.
 */
module StatusPaths {
  import opened Prelude
  import opened Domain
  import opened TaskGraph

  /** An edge of the table, or the one lease recovery writes without it. */
  predicate Edge(a: TaskStatus, b: TaskStatus, recovering: bool) {
    a.CanTransitionTo(b) || (recovering && a == Verifying && b == Paused)
  }

  /** From a to b in exactly n edges. */
  ghost predicate Path(a: TaskStatus, b: TaskStatus, n: nat, recovering: bool)
    decreases n
  {
    if n == 0 then a == b else exists m :: Edge(a, m, recovering) && Path(m, b, n - 1, recovering)
  }

  lemma {:induction false} PathsJoin(a: TaskStatus, b: TaskStatus, c: TaskStatus, m: nat, n: nat, recovering: bool)
    requires Path(a, b, m, recovering) && Path(b, c, n, recovering)
    ensures Path(a, c, m + n, recovering)
    decreases m
  {
    if m > 0 {
      var next :| Edge(a, next, recovering) && Path(next, b, m - 1, recovering);
      PathsJoin(next, b, c, m - 1, n, recovering);
    }
  }

  lemma {:induction false} PathWidens(a: TaskStatus, b: TaskStatus, n: nat)
    requires Path(a, b, n, false)
    ensures Path(a, b, n, true)
    decreases n
  {
    if n > 0 {
      var next :| Edge(a, next, false) && Path(next, b, n - 1, false);
      PathWidens(next, b, n - 1);
      assert Edge(a, next, true);
    }
  }

  /** The row was pinned so many times, and moved along as many edges as its version grew besides. */
  ghost predicate TaskMoves(t: Task, u: Task, pins: nat, recovering: bool) {
    && u.project == t.project && t.version + pins <= u.version
    && Path(t.status, u.status, u.version - t.version - pins, recovering)
    && (pins == 0 ==> u.pin == t.pin)
  }

  /** Where the row of a new task begins. */
  function Drafted(u: Task): Task {
    u.(status := Draft, version := 1)
  }

  /** Every task moved along the table, and every new task moved there from Draft, and none was pinned. */
  ghost predicate GraphMoves(g: Graph, h: Graph, recovering: bool) {
    && |g.tasks| <= |h.tasks|
    && (forall t :: 0 <= t < |g.tasks| ==> TaskMoves(g.tasks[t], h.tasks[t], 0, recovering))
    && (forall t :: |g.tasks| <= t < |h.tasks| ==> TaskMoves(Drafted(h.tasks[t]), h.tasks[t], 0, recovering))
  }

  lemma TaskMovesJoin(t: Task, u: Task, v: Task, m: nat, n: nat, recovering: bool)
    requires TaskMoves(t, u, m, recovering) && TaskMoves(u, v, n, recovering)
    ensures TaskMoves(t, v, m + n, recovering)
  {
    PathsJoin(t.status, u.status, v.status, u.version - t.version - m, v.version - u.version - n, recovering);
  }

  lemma DraftMovesJoin(u: Task, v: Task, m: nat, n: nat, recovering: bool)
    requires TaskMoves(Drafted(u), u, m, recovering) && TaskMoves(u, v, n, recovering)
    ensures TaskMoves(Drafted(v), v, m + n, recovering)
  {
    TaskMovesJoin(Drafted(u), u, v, m, n, recovering);
  }

  lemma TaskMovesWiden(t: Task, u: Task, wide: bool)
    requires TaskMoves(t, u, 0, false)
    ensures TaskMoves(t, u, 0, wide)
  {
    if wide { PathWidens(t.status, u.status, u.version - t.version); }
  }

  lemma GraphMovesReflexive(g: Graph, recovering: bool)
    ensures GraphMoves(g, g, recovering)
  {
  }

  lemma GraphMovesJoin(g: Graph, h: Graph, k: Graph, recovering: bool)
    requires GraphMoves(g, h, recovering) && GraphMoves(h, k, recovering)
    ensures GraphMoves(g, k, recovering)
  {
    hide TaskMoves, Drafted;
    forall t | 0 <= t < |h.tasks|
      ensures t < |g.tasks| ==> TaskMoves(g.tasks[t], k.tasks[t], 0, recovering)
      ensures |g.tasks| <= t ==> TaskMoves(Drafted(k.tasks[t]), k.tasks[t], 0, recovering)
    {
      assert TaskMoves(h.tasks[t], k.tasks[t], 0, recovering);
      if t < |g.tasks| {
        TaskMovesJoin(g.tasks[t], h.tasks[t], k.tasks[t], 0, 0, recovering);
      } else {
        DraftMovesJoin(h.tasks[t], k.tasks[t], 0, 0, recovering);
      }
    }
  }

  lemma TaskMovesKeepProject(t: Task, u: Task, pins: nat, recovering: bool)
    requires TaskMoves(t, u, pins, recovering)
    ensures u.project == t.project
  {
  }

  lemma GraphMovesWiden(g: Graph, h: Graph, wide: bool)
    requires GraphMoves(g, h, false)
    ensures GraphMoves(g, h, wide)
  {
    forall t | 0 <= t < |h.tasks|
      ensures t < |g.tasks| ==> TaskMoves(g.tasks[t], h.tasks[t], 0, wide)
      ensures |g.tasks| <= t ==> TaskMoves(Drafted(h.tasks[t]), h.tasks[t], 0, wide)
    {
      if t < |g.tasks| {
        TaskMovesWiden(g.tasks[t], h.tasks[t], wide);
      } else {
        TaskMovesWiden(Drafted(h.tasks[t]), h.tasks[t], wide);
      }
    }
  }

  /**
   A terminal status is never left, so the row of a terminal task changes only by pins; a row whose version
   did not grow did not change, and a row whose status changed has a higher version.
   */
  lemma MovesAreExact(t: Task, u: Task, pins: nat, recovering: bool)
    requires TaskMoves(t, u, pins, recovering)
    ensures t.status.IsTerminal() ==> u == t.(version := t.version + pins, pin := u.pin)
    ensures u.version == t.version ==> u == t
    ensures u.status != t.status ==> t.version + pins < u.version
  {
    if u.version > t.version + pins {
      var next :| Edge(t.status, next, recovering) && Path(next, u.status, u.version - t.version - pins - 1, recovering);
    }
  }

  /** The history of one task, old or new, from one graph to a later one, with so many pins of it. */
  ghost predicate Follows(g: Graph, h: Graph, t: nat, pins: nat, recovering: bool) {
    && |g.tasks| <= |h.tasks|
    && (t < |g.tasks| ==> TaskMoves(g.tasks[t], h.tasks[t], pins, recovering))
    && (|g.tasks| <= t < |h.tasks| ==> TaskMoves(Drafted(h.tasks[t]), h.tasks[t], pins, recovering))
    && (|h.tasks| <= t ==> pins == 0)
  }

  lemma FollowsReflexive(g: Graph, t: nat, recovering: bool)
    ensures Follows(g, g, t, 0, recovering)
  {
  }

  lemma FollowsJoin(g: Graph, h: Graph, k: Graph, t: nat, m: nat, n: nat, recovering: bool)
    requires Follows(g, h, t, m, recovering) && Follows(h, k, t, n, recovering)
    ensures Follows(g, k, t, m + n, recovering)
  {
    hide TaskMoves, Drafted;
    if t < |g.tasks| {
      TaskMovesJoin(g.tasks[t], h.tasks[t], k.tasks[t], m, n, recovering);
    } else if t < |h.tasks| {
      DraftMovesJoin(h.tasks[t], k.tasks[t], m, n, recovering);
    }
  }

  lemma GraphMovesFollow(g: Graph, h: Graph, t: nat, recovering: bool)
    requires GraphMoves(g, h, recovering)
    ensures Follows(g, h, t, 0, recovering)
  {
  }

  // --- The graph's own changes ---

  lemma OneEdge(t: Task, next: TaskStatus, recovering: bool)
    requires Edge(t.status, next, recovering)
    ensures TaskMoves(t, t.(status := next, version := t.version + 1), 0, recovering)
  {
    assert Path(next, next, 0, recovering);
  }

  lemma StatusChangeMoves(g: Graph, t: nat, next: TaskStatus, recovering: bool)
    requires t < |g.tasks| && Edge(g.tasks[t].status, next, recovering)
    ensures GraphMoves(g, SetStatus(g, t, next), recovering)
  {
    OneEdge(g.tasks[t], next, recovering);
  }

  /** Leased to Paused, and on to Ready. */
  lemma UnleasingMoves(g: Graph, ts: set<nat>)
    ensures GraphMoves(g, PauseLeased(g, ts), false) && GraphMoves(g, Requeue(g, ts), false)
  {
    forall t | 0 <= t < |g.tasks|
      ensures TaskMoves(g.tasks[t], PauseLeased(g, ts).tasks[t], 0, false)
      ensures TaskMoves(g.tasks[t], Requeue(g, ts).tasks[t], 0, false)
    {
      if g.tasks[t].status == Leased {
        var paused := g.tasks[t].(status := Paused, version := g.tasks[t].version + 1);
        OneEdge(g.tasks[t], Paused, false);
        OneEdge(paused, Ready, false);
        TaskMovesJoin(g.tasks[t], paused, paused.(status := Ready, version := paused.version + 1), 0, 0, false);
      }
    }
  }

  lemma StartingMoves(g: Graph, t: nat)
    requires t < |g.tasks| && g.tasks[t].status == Leased
    ensures GraphMoves(g, SetStatus(SetStatus(g, t, Planning), t, Running), false)
  {
    var planned := SetStatus(g, t, Planning);
    StatusChangeMoves(g, t, Planning, false);
    StatusChangeMoves(planned, t, Running, false);
    GraphMovesJoin(g, planned, SetStatus(planned, t, Running), false);
  }

  lemma TransitionMoves(g: Graph, t: nat, expected: TaskStatus, next: TaskStatus)
    requires TransitionTask(g, t, expected, next).Ok?
    ensures GraphMoves(g, TransitionTask(g, t, expected, next).value, false)
  {
    StatusChangeMoves(g, t, next, false);
  }

  lemma CompleteReviewMoves(g: Graph, t: nat)
    requires WellFormed(g) && CompleteReview(g, t).Ok?
    ensures GraphMoves(g, CompleteReview(g, t).value, false)
  {
    var done := SetStatus(g, t, Completed);
    var h := Promote(done, Promotable(done, t));
    StatusChangeMoves(g, t, Completed, false);
    forall x | 0 <= x < |done.tasks|
      ensures TaskMoves(done.tasks[x], h.tasks[x], 0, false)
    {
      if x in Promotable(done, t) { OneEdge(done.tasks[x], Ready, false); }
    }
    GraphMovesJoin(g, done, h, false);
  }

  lemma AddTaskMoves(g: Graph, project: string, dependencies: seq<nat>, pin: Option<RoutePin>)
    requires WellFormed(g) && AddTask(g, project, dependencies, pin).Ok?
    ensures GraphMoves(g, AddTask(g, project, dependencies, pin).value, false)
  {
    OneEdge(Task(project, Draft, 1, pin), Ready, false);
  }

  /** A pin is one version and no edge, and leaves the other tasks alone. */
  lemma PinFollows(g: Graph, pinned: nat, pin: Option<RoutePin>, reason: string, t: nat, recovering: bool)
    requires SetRoutePin(g, pinned, pin, reason).Ok?
    ensures Follows(g, SetRoutePin(g, pinned, pin, reason).value, t, if t == pinned then 1 else 0, recovering)
  {
  }

  lemma AddDependencyMoves(g: Graph, t: nat, d: nat)
    requires WellFormed(g) && AddDependency(g, t, d).Ok?
    ensures GraphMoves(g, AddDependency(g, t, d).value, false)
  {
    OneEdge(g.tasks[t].(status := Ready), Paused, false);
  }
}
