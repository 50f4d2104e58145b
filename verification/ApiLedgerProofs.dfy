/**
 What every ledger transaction keeps: budget ceilings, attempts without replay, one spend per
 settlement, single use of digests, and agreement of the admission preview with admission.
 */
module ApiLedgerProofs {
  import opened Prelude
  import opened ApiBudget
  import Pricing

  // --- The invariant ---

  ghost predicate References(l: Ledger) {
    && (forall b :: 0 <= b < |l.budgets| ==> ValidBudget(l.budgets[b]))
    && (forall i :: 0 <= i < |l.reservations| ==>
          l.reservations[i].budget < |l.budgets| && 1 <= l.reservations[i].requests)
    && (forall k :: 0 <= k < |l.attempts| ==> l.attempts[k].reservation < |l.reservations|)
    && (forall k :: 0 <= k < |l.spends| ==>
          l.spends[k].reservation < |l.reservations|
          && l.spends[k].budget == l.reservations[l.spends[k].reservation].budget)
  }

  ghost predicate PerAttemptWithinTotal(rows: seq<Reservation>) {
    forall i :: 0 <= i < |rows| ==>
      rows[i].perAttemptInput <= rows[i].inputTokens
      && rows[i].perAttemptOutput <= rows[i].outputTokens
  }

  /** Attempts of one reservation are numbered from one in the order they were started. */
  ghost predicate Numbered(attempts: seq<Attempt>) {
    forall k :: 0 <= k < |attempts| ==>
      attempts[k].number == AttemptCount(attempts[..k], attempts[k].reservation) + 1
  }

  /** Only a retryable failure is ever followed by another attempt. */
  ghost predicate NoReplay(attempts: seq<Attempt>) {
    forall j, k :: 0 <= j < k < |attempts| && attempts[j].reservation == attempts[k].reservation ==>
      attempts[j].status == RetryableFailure
  }

  ghost predicate AttemptsWithinRequests(l: Ledger) {
    forall i :: 0 <= i < |l.reservations| ==> AttemptCount(l.attempts, i) <= l.reservations[i].requests
  }

  ghost predicate StatusesFit(attempt: AttemptStatus, reservation: ReservationStatus) {
    && (reservation == Dispatched || reservation == Settled)
    && (attempt == Started ==> reservation == Dispatched)
    && (attempt == Succeeded ==> reservation == Settled)
    && (reservation == Settled ==> attempt == RetryableFailure || attempt == Succeeded)
  }

  /** A reservation has attempts only once it is dispatched; pending and successful ones fix its status. */
  ghost predicate AttemptsMatchStatus(l: Ledger)
    requires References(l)
  {
    forall k :: 0 <= k < |l.attempts| ==>
      StatusesFit(l.attempts[k].status, l.reservations[l.attempts[k].reservation].status)
  }

  ghost predicate OthersMatchStatus(l: Ledger, i: nat)
    requires References(l)
  {
    forall k :: 0 <= k < |l.attempts| && l.attempts[k].reservation != i ==>
      StatusesFit(l.attempts[k].status, l.reservations[l.attempts[k].reservation].status)
  }

  /** The last attempt of a settled reservation succeeded. */
  ghost predicate SettledEndsInSuccess(l: Ledger) {
    forall i :: 0 <= i < |l.reservations| && l.reservations[i].status == Settled && LastAttempt(l.attempts, i).Some? ==>
      l.attempts[LastAttempt(l.attempts, i).value].status == Succeeded
  }

  ghost predicate HasSpend(spends: seq<Spend>, i: nat) {
    exists k :: 0 <= k < |spends| && spends[k].reservation == i
  }

  ghost predicate SpendsAreDistinct(spends: seq<Spend>) {
    && (forall j, k :: 0 <= j < k < |spends| ==> spends[j].reservation != spends[k].reservation)
    && (forall j, k :: 0 <= j < k < |spends| ==> spends[j].requestHash != spends[k].requestHash)
  }

  /** The settled reservations are exactly those with a spend row, and none has two. */
  ghost predicate SpendsMatchSettlements(rows: seq<Reservation>, spends: seq<Spend>) {
    && (forall i :: 0 <= i < |rows| ==> (rows[i].status == Settled <==> HasSpend(spends, i)))
    && SpendsAreDistinct(spends)
  }

  /** A reservation bound to a claim is dispatched only after the claim became a run. */
  ghost predicate RunBeforeDispatch(rows: seq<Reservation>) {
    forall i :: 0 <= i < |rows| ==>
      var r := rows[i];
      && ((r.status == Dispatched || r.status == Settled) && r.claim.Some? ==> r.run.Some?)
      && (r.run.Some? ==> r.claim.Some?)
  }

  ghost predicate UniqueKeys(rows: seq<Reservation>) {
    forall i, j :: 0 <= i < j < |rows| ==>
      && (rows[i].project != rows[j].project || rows[i].digest != rows[j].digest)
      && (rows[i].claim.Some? ==> rows[i].claim != rows[j].claim)
  }

  /** What the reservation rows satisfy by themselves. */
  ghost predicate RowsFit(rows: seq<Reservation>) {
    PerAttemptWithinTotal(rows) && RunBeforeDispatch(rows) && UniqueKeys(rows)
  }

  ghost predicate WithinCeiling(l: Ledger, b: nat, m: Measure)
    requires b < |l.budgets|
  {
    Limit(l.budgets[b], m).Some? ==> Committed(l, b, m) <= Limit(l.budgets[b], m).value
  }

  ghost predicate Ceilings(l: Ledger) {
    forall b, m :: 0 <= b < |l.budgets| ==> WithinCeiling(l, b, m)
  }

  ghost predicate Structure(l: Ledger) {
    && References(l) && PerAttemptWithinTotal(l.reservations)
    && Numbered(l.attempts) && NoReplay(l.attempts) && AttemptsWithinRequests(l) && AttemptsMatchStatus(l)
    && SettledEndsInSuccess(l) && SpendsMatchSettlements(l.reservations, l.spends)
    && RunBeforeDispatch(l.reservations) && UniqueKeys(l.reservations)
  }

  ghost predicate Inv(l: Ledger) {
    Structure(l) && Ceilings(l)
  }

  lemma EmptyLedgerInv()
    ensures Inv(EmptyLedger)
  {
  }

  // --- Counting attempts ---

  lemma CountAppend(attempts: seq<Attempt>, a: Attempt, r: nat)
    ensures AttemptCount(attempts + [a], r) == AttemptCount(attempts, r) + (if a.reservation == r then 1 else 0)
  {
    assert (attempts + [a])[..|attempts|] == attempts;
  }

  lemma {:induction false} CountIgnoresStatus(xs: seq<Attempt>, ys: seq<Attempt>, r: nat)
    requires |xs| == |ys| && forall k :: 0 <= k < |xs| ==> xs[k].reservation == ys[k].reservation
    ensures AttemptCount(xs, r) == AttemptCount(ys, r)
  {
    if xs != [] {
      CountIgnoresStatus(xs[..|xs| - 1], ys[..|ys| - 1], r);
    }
  }

  lemma {:induction false} CountPositive(attempts: seq<Attempt>, r: nat)
    ensures AttemptCount(attempts, r) > 0 <==> exists k :: 0 <= k < |attempts| && attempts[k].reservation == r
  {
    if attempts != [] {
      CountPositive(attempts[..|attempts| - 1], r);
    }
  }

  lemma {:induction false} NumberedPrefix(attempts: seq<Attempt>)
    requires Numbered(attempts) && attempts != []
    ensures Numbered(attempts[..|attempts| - 1])
  {
    var front := attempts[..|attempts| - 1];
    forall k | 0 <= k < |front|
      ensures front[k].number == AttemptCount(front[..k], front[k].reservation) + 1
    {
      assert front[..k] == attempts[..k];
    }
  }

  /** The attempt with the highest number is the last one, and its number is how many there are. */
  lemma {:induction false} LastAttemptIsLast(attempts: seq<Attempt>, r: nat)
    requires Numbered(attempts)
    ensures var a := LastAttempt(attempts, r);
            && (a.None? ==> AttemptCount(attempts, r) == 0)
            && (a.Some? ==>
                  && attempts[a.value].number == AttemptCount(attempts, r)
                  && forall k :: a.value < k < |attempts| ==> attempts[k].reservation != r)
  {
    if attempts != [] {
      var front := attempts[..|attempts| - 1];
      NumberedPrefix(attempts);
      LastAttemptIsLast(front, r);
    }
  }

  // --- Committed totals under the kinds of change transactions make ---

  lemma HeldNonNegative(l: Ledger, i: nat, m: Measure)
    requires i < |l.reservations| && AttemptsWithinRequests(l)
    ensures 0 <= Held(l, i, m)
  {
  }

  /** A change to one reservation row that keeps or frees what it holds. */
  ghost predicate RowStep(r: Reservation, s: Reservation) {
    && s == r.(status := s.status, expiresAt := s.expiresAt, run := s.run)
    && (s.status == r.status || (r.status == Active && (s.status == Released || s.status == Expired)))
    && (s.run == r.run || (r.status == Active && r.claim.Some? && s.run.Some?))
  }

  /** A bulk change in which every reservation row takes such a step and nothing else changes. */
  ghost predicate RowwiseStep(l: Ledger, h: Ledger) {
    && h == l.(reservations := h.reservations)
    && |h.reservations| == |l.reservations|
    && forall i :: 0 <= i < |l.reservations| ==> RowStep(l.reservations[i], h.reservations[i])
  }

  lemma RowwiseCommitted(l: Ledger, h: Ledger, b: nat, m: Measure)
    requires RowwiseStep(l, h) && AttemptsWithinRequests(l)
    ensures Reserved(h, b, m) <= Reserved(l, b, m) && Spent(h, b, m) == Spent(l, b, m)
  {
    forall i | 0 <= i < |l.reservations|
      ensures ReservedWeights(h, b, m)[i] <= ReservedWeights(l, b, m)[i]
    {
      HeldNonNegative(l, i, m);
      assert RowStep(l.reservations[i], h.reservations[i]);
    }
    SumMonotone(ReservedWeights(h, b, m), ReservedWeights(l, b, m));
    assert SpendWeights(h, b, m) == SpendWeights(l, b, m);
    forall k | 0 <= k < |l.attempts|
      ensures AttemptWeights(h, b, m)[k] == AttemptWeights(l, b, m)[k]
    {
      if l.attempts[k].reservation < |l.reservations| {
        assert RowStep(l.reservations[l.attempts[k].reservation], h.reservations[l.attempts[k].reservation]);
      }
    }
    assert AttemptWeights(h, b, m) == AttemptWeights(l, b, m);
  }

  lemma RowwiseReferences(l: Ledger, h: Ledger)
    requires RowwiseStep(l, h) && References(l) && PerAttemptWithinTotal(l.reservations) && AttemptsWithinRequests(l)
    ensures References(h) && PerAttemptWithinTotal(h.reservations) && AttemptsWithinRequests(h)
  {
    assert forall i :: 0 <= i < |l.reservations| ==> RowStep(l.reservations[i], h.reservations[i]);
  }

  lemma RowwiseKeys(l: Ledger, h: Ledger)
    requires RowwiseStep(l, h) && RunBeforeDispatch(l.reservations) && UniqueKeys(l.reservations)
    ensures RunBeforeDispatch(h.reservations) && UniqueKeys(h.reservations)
  {
    assert forall i :: 0 <= i < |l.reservations| ==> RowStep(l.reservations[i], h.reservations[i]);
  }

  lemma RowwiseHistories(l: Ledger, h: Ledger)
    requires RowwiseStep(l, h) && References(l) && References(h)
    requires AttemptsMatchStatus(l) && SettledEndsInSuccess(l) && SpendsMatchSettlements(l.reservations, l.spends)
    ensures AttemptsMatchStatus(h) && SettledEndsInSuccess(h) && SpendsMatchSettlements(h.reservations, h.spends)
  {
    forall i | 0 <= i < |l.reservations|
      ensures h.reservations[i].status == Settled <==> l.reservations[i].status == Settled
      ensures h.reservations[i].status == Dispatched <==> l.reservations[i].status == Dispatched
    {
      assert RowStep(l.reservations[i], h.reservations[i]);
    }
  }

  lemma RowwiseStructure(l: Ledger, h: Ledger)
    requires Structure(l) && RowwiseStep(l, h)
    ensures Structure(h)
  {
    RowwiseReferences(l, h);
    RowwiseKeys(l, h);
    RowwiseHistories(l, h);
  }

  lemma CeilingsCarryOver(l: Ledger, h: Ledger)
    requires Ceilings(l) && h.budgets == l.budgets
    requires forall b, m :: 0 <= b < |l.budgets| ==> Committed(h, b, m) <= Committed(l, b, m)
    ensures Ceilings(h)
  {
    forall b, m | 0 <= b < |h.budgets|
      ensures WithinCeiling(h, b, m)
    {
      assert WithinCeiling(l, b, m);
    }
  }

  /** Sweeps, releases, renewals and run binding keep the whole invariant. */
  lemma RowwiseKeepsInv(l: Ledger, h: Ledger)
    requires Inv(l) && RowwiseStep(l, h)
    ensures Inv(h)
  {
    RowwiseStructure(l, h);
    forall b, m | 0 <= b < |l.budgets|
      ensures Committed(h, b, m) <= Committed(l, b, m)
    {
      RowwiseCommitted(l, h, b, m);
    }
    CeilingsCarryOver(l, h);
  }

  lemma SweepsAreRowwise(l: Ledger, now: int, claims: set<nat>, runs: set<nat>)
    ensures RowwiseStep(l, ExpireReservations(l, now))
    ensures RowwiseStep(l, ReleaseForClaims(l, claims))
    ensures RowwiseStep(l, ReleaseForRuns(l, runs))
    ensures RowwiseStep(l, ExtendForClaims(l, claims, now))
  {
  }

  lemma BindRunIsRowwise(l: Ledger, claim: nat, run: nat, expiresAt: int)
    ensures RowwiseStep(l, BindRun(l, claim, run, expiresAt))
  {
  }

  lemma ReleaseKeepsInv(l: Ledger, i: nat, reason: string)
    requires Inv(l) && Release(l, i, reason).Ok?
    ensures Inv(Release(l, i, reason).value)
  {
    RowwiseKeepsInv(l, Release(l, i, reason).value);
  }

  // --- Configuration ---

  lemma {:induction false} SumOfZeros(ws: seq<int>)
    requires forall i :: 0 <= i < |ws| ==> ws[i] == 0
    ensures Sum(ws) == 0
  {
    if ws != [] {
      SumOfZeros(ws[..|ws| - 1]);
    }
  }

  lemma ConfigureBudgetKeepsInv(l: Ledger, budget: Budget)
    requires Inv(l) && ConfigureBudget(l, budget).Ok?
    ensures Inv(ConfigureBudget(l, budget).value)
    ensures forall m :: Committed(ConfigureBudget(l, budget).value, |l.budgets|, m) == 0
  {
    var h := ConfigureBudget(l, budget).value;
    forall b, m | 0 <= b < |h.budgets|
      ensures b == |l.budgets| ==> Committed(h, b, m) == 0
      ensures WithinCeiling(h, b, m)
    {
      if b < |l.budgets| {
        assert WithinCeiling(l, b, m);
        SameTotals(l, h);
      } else {
        SumOfZeros(ReservedWeights(h, b, m));
        SumOfZeros(SpendWeights(h, b, m));
        SumOfZeros(AttemptWeights(h, b, m));
      }
    }
  }

  lemma ConfigurePriceKeepsInv(l: Ledger, p: Price)
    requires Inv(l) && ConfigurePrice(l, p).Ok?
    ensures Inv(ConfigurePrice(l, p).value)
  {
    var h := ConfigurePrice(l, p).value;
    SameTotals(l, h);
    CeilingsCarryOver(l, h);
  }

  lemma SameTotals(l: Ledger, h: Ledger)
    requires h.reservations == l.reservations && h.attempts == l.attempts && h.spends == l.spends
    ensures forall b, m :: Committed(h, b, m) == Committed(l, b, m)
  {
    forall b, m
      ensures Committed(h, b, m) == Committed(l, b, m)
    {
      assert ReservedWeights(h, b, m) == ReservedWeights(l, b, m);
      assert SpendWeights(h, b, m) == SpendWeights(l, b, m);
      assert AttemptWeights(h, b, m) == AttemptWeights(l, b, m);
    }
  }

  // --- Dispatch ---

  /** One outstanding reservation becomes dispatched. */
  ghost predicate DispatchStep(l: Ledger, h: Ledger, i: nat) {
    && i < |l.reservations| && Outstanding(l.reservations[i])
    && (l.reservations[i].claim.Some? ==> l.reservations[i].run.Some?)
    && h == SetReservation(l, i, l.reservations[i].(status := Dispatched))
  }

  lemma DispatchTotals(l: Ledger, h: Ledger, i: nat, b: nat, m: Measure)
    requires DispatchStep(l, h, i)
    ensures Reserved(h, b, m) == Reserved(l, b, m) && Spent(h, b, m) == Spent(l, b, m)
  {
    assert ReservedWeights(h, b, m) == ReservedWeights(l, b, m);
    assert SpendWeights(h, b, m) == SpendWeights(l, b, m);
    assert AttemptWeights(h, b, m) == AttemptWeights(l, b, m);
  }

  lemma DispatchRows(l: Ledger, h: Ledger, i: nat)
    requires DispatchStep(l, h, i) && References(l)
    requires AttemptsWithinRequests(l) && RowsFit(l.reservations)
    ensures References(h) && AttemptsWithinRequests(h) && RowsFit(h.reservations)
  {
  }

  lemma DispatchHistories(l: Ledger, h: Ledger, i: nat)
    requires DispatchStep(l, h, i) && References(l) && References(h)
    requires AttemptsMatchStatus(l) && SettledEndsInSuccess(l) && SpendsMatchSettlements(l.reservations, l.spends)
    ensures AttemptsMatchStatus(h) && SettledEndsInSuccess(h) && SpendsMatchSettlements(h.reservations, h.spends)
  {
    assert l.reservations[i].status != Settled && h.reservations[i].status != Settled;
    NoAttemptsWhileActive(l, i);
  }

  lemma DispatchKeepsInv(l: Ledger, h: Ledger, i: nat)
    requires Inv(l) && DispatchStep(l, h, i)
    ensures Inv(h)
  {
    DispatchRows(l, h, i);
    DispatchHistories(l, h, i);
    forall b, m | 0 <= b < |l.budgets|
      ensures Committed(h, b, m) <= Committed(l, b, m)
    {
      DispatchTotals(l, h, i, b, m);
    }
    CeilingsCarryOver(l, h);
  }

  lemma ClaimDispatchKeepsInv(l: Ledger, i: nat, now: int)
    requires Inv(l) && ClaimDispatch(l, i, now).Ok?
    ensures Inv(ClaimDispatch(l, i, now).value)
  {
    DispatchKeepsInv(l, ClaimDispatch(l, i, now).value, i);
  }

  lemma NoAttemptsWhileActive(l: Ledger, i: nat)
    requires References(l) && AttemptsMatchStatus(l) && i < |l.reservations|
    ensures l.reservations[i].status !in {Dispatched, Settled} ==>
              AttemptCount(l.attempts, i) == 0 && forall k :: 0 <= k < |l.attempts| ==> l.attempts[k].reservation != i
  {
    CountPositive(l.attempts, i);
  }

  /** One more attempt of a dispatched reservation, all of whose earlier ones failed retryably. */
  ghost predicate AttemptStep(l: Ledger, h: Ledger, i: nat) {
    && i < |l.reservations| && l.reservations[i].status == Dispatched
    && AttemptCount(l.attempts, i) + 1 <= l.reservations[i].requests
    && (forall k :: 0 <= k < |l.attempts| && l.attempts[k].reservation == i ==> l.attempts[k].status == RetryableFailure)
    && h == l.(attempts := l.attempts + [Attempt(i, AttemptCount(l.attempts, i) + 1, Started)])
  }

  lemma AttemptStepCounts(l: Ledger, h: Ledger, i: nat)
    requires AttemptStep(l, h, i)
    ensures forall j :: AttemptCount(h.attempts, j) == AttemptCount(l.attempts, j) + (if j == i then 1 else 0)
    ensures forall j :: j != i ==> LastAttempt(h.attempts, j) == LastAttempt(l.attempts, j)
  {
    forall j
      ensures AttemptCount(h.attempts, j) == AttemptCount(l.attempts, j) + (if j == i then 1 else 0)
      ensures j != i ==> LastAttempt(h.attempts, j) == LastAttempt(l.attempts, j)
    {
      CountAppend(l.attempts, h.attempts[|l.attempts|], j);
      assert h.attempts[..|l.attempts|] == l.attempts;
    }
  }

  lemma AttemptStepReserved(l: Ledger, h: Ledger, i: nat, b: nat, m: Measure)
    requires AttemptStep(l, h, i)
    ensures Reserved(h, b, m) == Reserved(l, b, m) - (if m == Requests && l.reservations[i].budget == b then 1 else 0)
  {
    AttemptStepCounts(l, h, i);
    var moved := if m == Requests && l.reservations[i].budget == b then 1 else 0;
    var ws := ReservedWeights(l, b, m);
    assert ReservedWeights(h, b, m) == ws[i := ws[i] - moved];
    SumUpdate(ws, i, ws[i] - moved);
  }

  lemma AttemptStepSpent(l: Ledger, h: Ledger, i: nat, b: nat, m: Measure)
    requires AttemptStep(l, h, i) && !HasSpend(l.spends, i)
    ensures Spent(h, b, m) == Spent(l, b, m) + (if m == Requests && l.reservations[i].budget == b then 1 else 0)
  {
    AttemptStepCounts(l, h, i);
    var moved := if m == Requests && l.reservations[i].budget == b then 1 else 0;
    assert SpendWeights(h, b, m) == SpendWeights(l, b, m);
    assert AttemptWeights(h, b, m) == AttemptWeights(l, b, m) + [moved];
    SumAppend(AttemptWeights(l, b, m), moved);
  }

  lemma AttemptStepNumbers(l: Ledger, h: Ledger, i: nat)
    requires AttemptStep(l, h, i) && Numbered(l.attempts) && NoReplay(l.attempts) && AttemptsWithinRequests(l)
    ensures Numbered(h.attempts) && NoReplay(h.attempts) && AttemptsWithinRequests(h)
  {
    AttemptStepCounts(l, h, i);
    NumberedAppend(l.attempts, h.attempts[|l.attempts|]);
  }

  lemma NumberedAppend(attempts: seq<Attempt>, a: Attempt)
    requires Numbered(attempts) && a.number == AttemptCount(attempts, a.reservation) + 1
    ensures Numbered(attempts + [a])
  {
    var h := attempts + [a];
    forall k | 0 <= k < |h|
      ensures h[k].number == AttemptCount(h[..k], h[k].reservation) + 1
    {
      assert h[..k] == attempts[..k];
      assert attempts[..|attempts|] == attempts;
    }
  }

  lemma AttemptStepHistories(l: Ledger, h: Ledger, i: nat)
    requires AttemptStep(l, h, i) && References(l) && References(h)
    requires AttemptsMatchStatus(l) && SettledEndsInSuccess(l)
    ensures AttemptsMatchStatus(h) && SettledEndsInSuccess(h)
  {
    AttemptStepCounts(l, h, i);
  }

  lemma AttemptStepStructure(l: Ledger, h: Ledger, i: nat)
    requires Structure(l) && AttemptStep(l, h, i)
    ensures Structure(h)
  {
    assert References(h);
    AttemptStepNumbers(l, h, i);
    AttemptStepHistories(l, h, i);
  }

  lemma AttemptStepKeepsInv(l: Ledger, h: Ledger, i: nat)
    requires Inv(l) && AttemptStep(l, h, i)
    ensures Inv(h)
  {
    AttemptStepStructure(l, h, i);
    forall b, m | 0 <= b < |l.budgets|
      ensures Committed(h, b, m) <= Committed(l, b, m)
    {
      AttemptStepReserved(l, h, i, b, m);
      AttemptStepSpent(l, h, i, b, m);
    }
    CeilingsCarryOver(l, h);
  }

  /** Beginning an attempt is dispatching its reservation and then adding the attempt. */
  lemma BeginAttemptShape(l: Ledger, i: nat, now: int)
    requires Numbered(l.attempts) && NoReplay(l.attempts) && RunBeforeDispatch(l.reservations)
    requires BeginAttempt(l, i, now).Ok?
    ensures
      var g := SetReservation(l, i, l.reservations[i].(status := Dispatched));
      DispatchStep(l, g, i) && AttemptStep(g, BeginAttempt(l, i, now).value, i)
  {
    LastAttemptIsLast(l.attempts, i);
    var previous := LastAttempt(l.attempts, i);
    forall k | 0 <= k < |l.attempts| && l.attempts[k].reservation == i
      ensures l.attempts[k].status == RetryableFailure
    {
      assert k <= previous.value;
    }
  }

  /** Starting an attempt moves one request from reserved to spent, and moves nothing else. */
  lemma BeginAttemptConserves(l: Ledger, i: nat, now: int, b: nat, m: Measure)
    requires Inv(l) && BeginAttempt(l, i, now).Ok?
    ensures
      var h := BeginAttempt(l, i, now).value;
      var moved := if m == Requests && l.reservations[i].budget == b then 1 else 0;
      Reserved(h, b, m) == Reserved(l, b, m) - moved && Spent(h, b, m) == Spent(l, b, m) + moved
  {
    BeginAttemptShape(l, i, now);
    var g := SetReservation(l, i, l.reservations[i].(status := Dispatched));
    DispatchTotals(l, g, i, b, m);
    AttemptStepReserved(g, BeginAttempt(l, i, now).value, i, b, m);
    AttemptStepSpent(g, BeginAttempt(l, i, now).value, i, b, m);
  }

  lemma BeginAttemptKeepsInv(l: Ledger, i: nat, now: int)
    requires Inv(l) && BeginAttempt(l, i, now).Ok?
    ensures Inv(BeginAttempt(l, i, now).value)
  {
    BeginAttemptShape(l, i, now);
    var g := SetReservation(l, i, l.reservations[i].(status := Dispatched));
    DispatchKeepsInv(l, g, i);
    AttemptStepKeepsInv(g, BeginAttempt(l, i, now).value, i);
  }

  // --- Outcomes of attempts ---

  /** Recording an outcome on one attempt row. */
  function WithOutcome(attempts: seq<Attempt>, a: nat, status: AttemptStatus): seq<Attempt>
    requires a < |attempts|
  {
    attempts[a := attempts[a].(status := status)]
  }

  lemma OutcomeKeepsCounts(attempts: seq<Attempt>, a: nat, status: AttemptStatus)
    requires a < |attempts|
    ensures forall r :: AttemptCount(WithOutcome(attempts, a, status), r) == AttemptCount(attempts, r)
    ensures forall r :: LastAttempt(WithOutcome(attempts, a, status), r) == LastAttempt(attempts, r)
    ensures Numbered(attempts) ==> Numbered(WithOutcome(attempts, a, status))
  {
    var hs := WithOutcome(attempts, a, status);
    forall r
      ensures AttemptCount(hs, r) == AttemptCount(attempts, r)
      ensures LastAttempt(hs, r) == LastAttempt(attempts, r)
    {
      CountIgnoresStatus(hs, attempts, r);
      LastIgnoresStatus(hs, attempts, r);
    }
    if Numbered(attempts) {
      forall k | 0 <= k < |hs|
        ensures hs[k].number == AttemptCount(hs[..k], hs[k].reservation) + 1
      {
        CountIgnoresStatus(hs[..k], attempts[..k], hs[k].reservation);
      }
    }
  }

  lemma {:induction false} LastIgnoresStatus(xs: seq<Attempt>, ys: seq<Attempt>, r: nat)
    requires |xs| == |ys|
    requires forall k :: 0 <= k < |xs| ==> xs[k].reservation == ys[k].reservation && xs[k].number == ys[k].number
    ensures LastAttempt(xs, r) == LastAttempt(ys, r)
  {
    if xs != [] {
      LastIgnoresStatus(xs[..|xs| - 1], ys[..|ys| - 1], r);
    }
  }

  /** A started attempt is the last of its reservation, and every earlier one failed retryably. */
  lemma StartedIsLast(attempts: seq<Attempt>, a: nat)
    requires Numbered(attempts) && NoReplay(attempts) && a < |attempts| && attempts[a].status == Started
    ensures LastAttempt(attempts, attempts[a].reservation) == Some(a)
    ensures forall k :: 0 <= k < |attempts| && k != a && attempts[k].reservation == attempts[a].reservation ==>
              attempts[k].status == RetryableFailure
  {
    LastAttemptIsLast(attempts, attempts[a].reservation);
  }

  lemma OutcomeKeepsNoReplay(attempts: seq<Attempt>, a: nat, status: AttemptStatus)
    requires Numbered(attempts) && NoReplay(attempts) && a < |attempts| && attempts[a].status == Started
    ensures NoReplay(WithOutcome(attempts, a, status))
  {
    StartedIsLast(attempts, a);
  }

  lemma OutcomeTotals(l: Ledger, a: nat, status: AttemptStatus, b: nat, m: Measure)
    requires a < |l.attempts|
    ensures
      var h := l.(attempts := WithOutcome(l.attempts, a, status));
      Reserved(h, b, m) == Reserved(l, b, m) && Spent(h, b, m) == Spent(l, b, m)
  {
    var h := l.(attempts := WithOutcome(l.attempts, a, status));
    OutcomeKeepsCounts(l.attempts, a, status);
    assert ReservedWeights(h, b, m) == ReservedWeights(l, b, m);
    assert SpendWeights(h, b, m) == SpendWeights(l, b, m);
    assert AttemptWeights(h, b, m) == AttemptWeights(l, b, m);
  }

  lemma FailureHistories(l: Ledger, h: Ledger, a: nat, status: AttemptStatus)
    requires a < |l.attempts| && l.attempts[a].status == Started && status !in {Started, Succeeded}
    requires h == l.(attempts := WithOutcome(l.attempts, a, status))
    requires References(l) && References(h) && Numbered(l.attempts) && NoReplay(l.attempts)
    requires AttemptsMatchStatus(l) && SettledEndsInSuccess(l)
    ensures AttemptsMatchStatus(h) && SettledEndsInSuccess(h)
  {
    OutcomeKeepsCounts(l.attempts, a, status);
  }

  lemma FailAttemptKeepsInv(l: Ledger, a: nat, f: Failure)
    requires Inv(l) && FailAttempt(l, a, f).Ok?
    ensures Inv(FailAttempt(l, a, f).value)
  {
    var h := FailAttempt(l, a, f).value;
    assert h == l.(attempts := WithOutcome(l.attempts, a, f.status));
    assert References(h);
    OutcomeKeepsCounts(l.attempts, a, f.status);
    OutcomeKeepsNoReplay(l.attempts, a, f.status);
    FailureHistories(l, h, a, f.status);
    forall b, m | 0 <= b < |l.budgets|
      ensures Committed(h, b, m) <= Committed(l, b, m)
    {
      OutcomeTotals(l, a, f.status, b, m);
    }
    CeilingsCarryOver(l, h);
  }

  // --- Settlement ---

  /** A dispatched reservation whose attempts are over becomes settled with a spend row within what it held. */
  ghost predicate SettleStep(l: Ledger, h: Ledger, i: nat, spend: Spend) {
    && i < |l.reservations| && l.reservations[i].status == Dispatched
    && spend.reservation == i && spend.budget == l.reservations[i].budget
    && spend.inputTokens <= l.reservations[i].perAttemptInput && spend.outputTokens <= l.reservations[i].perAttemptOutput
    && spend.cost <= l.reservations[i].currency
    && (forall k :: 0 <= k < |l.spends| ==> l.spends[k].requestHash != spend.requestHash)
    && h == SetReservation(l, i, l.reservations[i].(status := Settled)).(spends := l.spends + [spend])
  }

  ghost predicate AttemptsOver(l: Ledger, i: nat) {
    && (LastAttempt(l.attempts, i).Some? ==> l.attempts[LastAttempt(l.attempts, i).value].status == Succeeded)
    && forall k :: 0 <= k < |l.attempts| && l.attempts[k].reservation == i ==>
         l.attempts[k].status == RetryableFailure || l.attempts[k].status == Succeeded
  }

  lemma SettleStepReserved(l: Ledger, h: Ledger, i: nat, spend: Spend, b: nat, m: Measure)
    requires SettleStep(l, h, i, spend)
    ensures Reserved(h, b, m) == Reserved(l, b, m) - (if l.reservations[i].budget == b then Held(l, i, m) else 0)
  {
    var ws := ReservedWeights(l, b, m);
    assert ReservedWeights(h, b, m) == ws[i := 0];
    SumUpdate(ws, i, 0);
  }

  lemma SettleStepSpent(l: Ledger, h: Ledger, i: nat, spend: Spend, b: nat, m: Measure)
    requires SettleStep(l, h, i, spend)
    ensures Spent(h, b, m) == Spent(l, b, m) + SpendWeight(l, spend, b, m)
  {
    assert SpendWeights(h, b, m) == SpendWeights(l, b, m) + [SpendWeight(l, spend, b, m)];
    SumAppend(SpendWeights(l, b, m), SpendWeight(l, spend, b, m));
    assert AttemptWeights(h, b, m) == AttemptWeights(l, b, m);
  }

  /** What a settlement spends is at most what its reservation held, under every measure. */
  lemma SettleStepSpendsLess(l: Ledger, h: Ledger, i: nat, spend: Spend, b: nat, m: Measure)
    requires SettleStep(l, h, i, spend) && PerAttemptWithinTotal(l.reservations) && AttemptsWithinRequests(l)
    requires 1 <= l.reservations[i].requests
    ensures SpendWeight(l, spend, b, m) <= if l.reservations[i].budget == b then Held(l, i, m) else 0
  {
  }

  lemma SettleStepRows(l: Ledger, h: Ledger, i: nat, spend: Spend)
    requires SettleStep(l, h, i, spend) && References(l)
    requires AttemptsWithinRequests(l) && RowsFit(l.reservations)
    ensures References(h) && AttemptsWithinRequests(h) && RowsFit(h.reservations)
  {
  }

  lemma SettleStepSpends(l: Ledger, h: Ledger, i: nat, spend: Spend)
    requires SettleStep(l, h, i, spend) && SpendsMatchSettlements(l.reservations, l.spends)
    ensures SpendsMatchSettlements(h.reservations, h.spends)
  {
    assert !HasSpend(l.spends, i);
    var n := |l.spends|;
    forall j | 0 <= j < |h.reservations|
      ensures HasSpend(h.spends, j) <==> j == i || HasSpend(l.spends, j)
    {
      assert h.spends[n].reservation == i;
      assert forall k :: 0 <= k < n ==> h.spends[k] == l.spends[k];
    }
    forall k | 0 <= k < n
      ensures h.spends[k].reservation != i
    {
      assert l.spends[k].reservation != i;
    }
  }

  lemma SettleStepHistories(l: Ledger, h: Ledger, i: nat, spend: Spend)
    requires SettleStep(l, h, i, spend) && AttemptsOver(l, i) && References(l) && References(h)
    requires OthersMatchStatus(l, i) && SettledEndsInSuccess(l)
    ensures AttemptsMatchStatus(h) && SettledEndsInSuccess(h)
  {
  }

  /** Settling is recording success on the bound attempt, if there is one, and then settling the row. */
  lemma SettleShape(l: Ledger, s: Settlement, attempt: Option<nat>)
    requires Numbered(l.attempts) && NoReplay(l.attempts) && Settle(l, s, attempt).Ok?
    ensures SettleAfterAttempt(l, Settle(l, s, attempt).value, s.reservation, attempt, SpendOf(l, s))
  {
    if attempt.Some? {
      StartedIsLast(l.attempts, attempt.value);
    }
  }

  function BeforeSettling(l: Ledger, attempt: Option<nat>): Ledger
    requires attempt.Some? ==> attempt.value < |l.attempts|
  {
    if attempt.Some? then l.(attempts := WithOutcome(l.attempts, attempt.value, Succeeded)) else l
  }

  ghost predicate SettleAfterAttempt(l: Ledger, h: Ledger, i: nat, attempt: Option<nat>, spend: Spend) {
    && i < |l.reservations| && l.reservations[i].status == Dispatched
    && attempt == LastAttempt(l.attempts, i) && (attempt.Some? ==> l.attempts[attempt.value].status == Started)
    && SettleStep(BeforeSettling(l, attempt), h, i, spend)
  }

  function SpendOf(l: Ledger, s: Settlement): Spend
    requires s.reservation < |l.reservations|
  {
    Spend(l.reservations[s.reservation].budget, s.reservation, s.requestHash, s.inputTokens, s.outputTokens, s.cost,
          s.evidence)
  }

  lemma BeforeSettlingTotals(l: Ledger, attempt: Option<nat>, b: nat, m: Measure)
    requires attempt.Some? ==> attempt.value < |l.attempts|
    ensures
      var g := BeforeSettling(l, attempt);
      Reserved(g, b, m) == Reserved(l, b, m) && Spent(g, b, m) == Spent(l, b, m)
  {
    if attempt.Some? {
      OutcomeTotals(l, attempt.value, Succeeded, b, m);
    }
  }

  lemma BeforeSettlingRows(l: Ledger, attempt: Option<nat>)
    requires References(l) && Numbered(l.attempts) && NoReplay(l.attempts) && AttemptsWithinRequests(l)
    requires attempt.Some? ==> attempt.value < |l.attempts| && l.attempts[attempt.value].status == Started
    ensures
      var g := BeforeSettling(l, attempt);
      References(g) && Numbered(g.attempts) && NoReplay(g.attempts) && AttemptsWithinRequests(g)
  {
    if attempt.Some? {
      OutcomeKeepsCounts(l.attempts, attempt.value, Succeeded);
      OutcomeKeepsNoReplay(l.attempts, attempt.value, Succeeded);
    }
  }

  lemma SuccessEndsAttempts(l: Ledger, i: nat, attempt: Option<nat>)
    requires References(l) && Numbered(l.attempts) && NoReplay(l.attempts) && AttemptsMatchStatus(l)
    requires i < |l.reservations| && l.reservations[i].status == Dispatched
    requires attempt == LastAttempt(l.attempts, i) && (attempt.Some? ==> l.attempts[attempt.value].status == Started)
    ensures AttemptsOver(BeforeSettling(l, attempt), i)
  {
    hide AttemptsMatchStatus, Numbered, NoReplay, References;
    if attempt.Some? {
      OutcomeKeepsCounts(l.attempts, attempt.value, Succeeded);
      StartedIsLast(l.attempts, attempt.value);
    }
  }

  lemma SuccessKeepsOthers(l: Ledger, g: Ledger, i: nat, attempt: Option<nat>)
    requires References(l) && References(g) && AttemptsMatchStatus(l)
    requires attempt == LastAttempt(l.attempts, i) && g == BeforeSettling(l, attempt)
    ensures OthersMatchStatus(g, i)
  {
  }

  lemma SuccessKeepsEndings(l: Ledger, i: nat, attempt: Option<nat>)
    requires SettledEndsInSuccess(l) && i < |l.reservations| && l.reservations[i].status == Dispatched
    requires attempt == LastAttempt(l.attempts, i)
    ensures SettledEndsInSuccess(BeforeSettling(l, attempt))
  {
    if attempt.Some? {
      OutcomeKeepsCounts(l.attempts, attempt.value, Succeeded);
    }
  }

  lemma BeforeSettlingHeld(l: Ledger, attempt: Option<nat>, i: nat, m: Measure)
    requires i < |l.reservations| && (attempt.Some? ==> attempt.value < |l.attempts|)
    ensures Held(BeforeSettling(l, attempt), i, m) == Held(l, i, m)
  {
    if attempt.Some? {
      OutcomeKeepsCounts(l.attempts, attempt.value, Succeeded);
    }
  }

  lemma SettleStepTotals(l: Ledger, h: Ledger, i: nat, spend: Spend, b: nat, m: Measure)
    requires SettleStep(l, h, i, spend) && References(l) && PerAttemptWithinTotal(l.reservations) && AttemptsWithinRequests(l)
    ensures
      var held := if l.reservations[i].budget == b then Held(l, i, m) else 0;
      && Reserved(h, b, m) == Reserved(l, b, m) - held
      && Spent(l, b, m) <= Spent(h, b, m) <= Spent(l, b, m) + held
  {
    SettleStepReserved(l, h, i, spend, b, m);
    SettleStepSpent(l, h, i, spend, b, m);
    SettleStepSpendsLess(l, h, i, spend, b, m);
  }

  lemma SettleStepStructure(g: Ledger, h: Ledger, i: nat, spend: Spend)
    requires SettleStep(g, h, i, spend) && References(g) && PerAttemptWithinTotal(g.reservations) && AttemptsWithinRequests(g)
    requires Numbered(g.attempts) && NoReplay(g.attempts)
    requires SettledEndsInSuccess(g) && AttemptsOver(g, i) && OthersMatchStatus(g, i)
    requires SpendsMatchSettlements(g.reservations, g.spends)
    requires RunBeforeDispatch(g.reservations) && UniqueKeys(g.reservations)
    ensures Structure(h)
  {
    SettleStepRows(g, h, i, spend);
    SettleStepSpends(g, h, i, spend);
    SettleStepHistories(g, h, i, spend);
  }

  lemma SettleFrom(l: Ledger, h: Ledger, i: nat, attempt: Option<nat>, spend: Spend)
    requires Structure(l) && SettleAfterAttempt(l, h, i, attempt, spend)
    ensures Structure(h)
  {
    var g := BeforeSettling(l, attempt);
    BeforeSettlingRows(l, attempt);
    SuccessEndsAttempts(l, i, attempt);
    SuccessKeepsOthers(l, g, i, attempt);
    SuccessKeepsEndings(l, i, attempt);
    SettleStepStructure(g, h, i, spend);
  }

  /** Settling replaces what the reservation held by what was used, which is never more. */
  lemma SettleOnlyShrinks(l: Ledger, h: Ledger, i: nat, attempt: Option<nat>, spend: Spend, b: nat, m: Measure)
    requires Structure(l) && SettleAfterAttempt(l, h, i, attempt, spend)
    ensures
      var held := if l.reservations[i].budget == b then Held(l, i, m) else 0;
      && Reserved(h, b, m) == Reserved(l, b, m) - held
      && Spent(l, b, m) <= Spent(h, b, m) <= Spent(l, b, m) + held
  {
    BeforeSettlingRows(l, attempt);
    BeforeSettlingTotals(l, attempt, b, m);
    BeforeSettlingHeld(l, attempt, i, m);
    SettleStepTotals(BeforeSettling(l, attempt), h, i, spend, b, m);
  }

  lemma SettleFromKeepsInv(l: Ledger, h: Ledger, i: nat, attempt: Option<nat>, spend: Spend)
    requires Inv(l) && SettleAfterAttempt(l, h, i, attempt, spend)
    ensures Inv(h)
  {
    SettleFrom(l, h, i, attempt, spend);
    forall b, m | 0 <= b < |l.budgets|
      ensures Committed(h, b, m) <= Committed(l, b, m)
    {
      SettleOnlyShrinks(l, h, i, attempt, spend, b, m);
    }
    CeilingsCarryOver(l, h);
  }

  lemma SettleKeepsInv(l: Ledger, s: Settlement, attempt: Option<nat>)
    requires Inv(l) && Settle(l, s, attempt).Ok?
    ensures Inv(Settle(l, s, attempt).value)
  {
    SettleShape(l, s, attempt);
    SettleFromKeepsInv(l, Settle(l, s, attempt).value, s.reservation, attempt, SpendOf(l, s));
  }

  // --- Admission ---

  /** A fresh reservation row joins a swept ledger. */
  ghost predicate AdmitStep(l: Ledger, h: Ledger, row: Reservation) {
    && row.budget < |l.budgets| && 1 <= row.requests && row.status == Active && row.run.None?
    && row.perAttemptInput <= row.inputTokens && row.perAttemptOutput <= row.outputTokens
    && (forall i :: 0 <= i < |l.reservations| ==>
          l.reservations[i].project != row.project || l.reservations[i].digest != row.digest)
    && (row.claim.Some? ==> forall i :: 0 <= i < |l.reservations| ==> l.reservations[i].claim != row.claim)
    && h == l.(reservations := l.reservations + [row])
  }

  function HeldByRow(row: Reservation, m: Measure): nat {
    match m
    case Currency => row.currency
    case Tokens => row.inputTokens + row.outputTokens
    case Requests => row.requests
    case Slots => 1
  }

  lemma AdmitStepReserved(l: Ledger, h: Ledger, row: Reservation, b: nat, m: Measure)
    requires AdmitStep(l, h, row) && References(l)
    ensures Reserved(h, b, m) == Reserved(l, b, m) + (if row.budget == b then HeldByRow(row, m) else 0)
  {
    var added := if row.budget == b then HeldByRow(row, m) else 0;
    CountPositive(l.attempts, |l.reservations|);
    assert ReservedWeights(h, b, m) == ReservedWeights(l, b, m) + [added];
    SumAppend(ReservedWeights(l, b, m), added);
  }

  lemma AdmitStepSpent(l: Ledger, h: Ledger, row: Reservation, b: nat, m: Measure)
    requires AdmitStep(l, h, row) && References(l)
    ensures Spent(h, b, m) == Spent(l, b, m)
  {
    assert SpendWeights(h, b, m) == SpendWeights(l, b, m);
    assert AttemptWeights(h, b, m) == AttemptWeights(l, b, m);
  }

  lemma AdmitStepRows(l: Ledger, h: Ledger, row: Reservation)
    requires AdmitStep(l, h, row) && References(l)
    requires AttemptsWithinRequests(l) && RowsFit(l.reservations)
    ensures References(h) && AttemptsWithinRequests(h) && RowsFit(h.reservations)
  {
    CountPositive(l.attempts, |l.reservations|);
  }

  lemma AdmitStepHistories(l: Ledger, h: Ledger, row: Reservation)
    requires AdmitStep(l, h, row) && References(l) && References(h)
    requires AttemptsMatchStatus(l) && SettledEndsInSuccess(l) && SpendsMatchSettlements(l.reservations, l.spends)
    ensures AttemptsMatchStatus(h) && SettledEndsInSuccess(h) && SpendsMatchSettlements(h.reservations, h.spends)
  {
    assert !HasSpend(l.spends, |l.reservations|);
  }

  lemma AdmitStepStructure(l: Ledger, h: Ledger, row: Reservation)
    requires AdmitStep(l, h, row) && Structure(l)
    ensures Structure(h)
  {
    AdmitStepRows(l, h, row);
    AdmitStepHistories(l, h, row);
  }

  /** Admission sweeps the ledger and then adds the worst case of every allowed attempt to the latest revision. */
  lemma AdmissionShape(l: Ledger, r: Request, claim: Option<nat>)
    requires r.attempts >= 1 && ReserveTx(l, r, claim).Ok?
    ensures
      var swept, latest := ExpireReservations(l, r.now), LatestBudget(l.budgets, r.project, r.provider, r.account);
      && latest.Some?
      && AdmitStep(swept, ReserveTx(l, r, claim).value, NewReservation(latest.value, r, claim))
      && CheckTotals(swept, latest.value, r).Ok?
  {
  }

  lemma SlotsSpendNothing(l: Ledger, b: nat)
    ensures Spent(l, b, Slots) == 0
  {
    SumOfZeros(SpendWeights(l, b, Slots));
    SumOfZeros(AttemptWeights(l, b, Slots));
  }

  /** The checks of admission leave room for exactly what the new row will hold. */
  lemma ChecksLeaveRoom(l: Ledger, b: nat, r: Request, claim: Option<nat>, m: Measure)
    requires b < |l.budgets| && CheckTotals(l, b, r).Ok?
    ensures Limit(l.budgets[b], m).Some? ==>
              Committed(l, b, m) + HeldByRow(NewReservation(b, r, claim), m) <= Limit(l.budgets[b], m).value
  {
    SlotsSpendNothing(l, b);
  }

  lemma ReserveTxKeepsInv(l: Ledger, r: Request, claim: Option<nat>)
    requires Inv(l) && r.attempts >= 1 && ReserveTx(l, r, claim).Ok?
    ensures Inv(ReserveTx(l, r, claim).value)
  {
    AdmissionShape(l, r, claim);
    var swept, h := ExpireReservations(l, r.now), ReserveTx(l, r, claim).value;
    var latest := LatestBudget(l.budgets, r.project, r.provider, r.account).value;
    var row := NewReservation(latest, r, claim);
    SweepsAreRowwise(l, r.now, {}, {});
    RowwiseKeepsInv(l, swept);
    AdmitStepStructure(swept, h, row);
    forall b, m | 0 <= b < |h.budgets|
      ensures WithinCeiling(h, b, m)
    {
      assert WithinCeiling(swept, b, m);
      AdmitStepReserved(swept, h, row, b, m);
      AdmitStepSpent(swept, h, row, b, m);
      ChecksLeaveRoom(swept, latest, r, claim, m);
    }
  }
}
