/**
 Capacity slots: a claim is refused for capacity only when every slot is taken, and under a fixed limit
 no adapter and no account ever holds more live slots than its limit.
 */
module StoreSlots {
  import opened Prelude
  import opened Store
  import opened StoreInvariant
  import opened StoreSteps
  import opened StoreTheorems
  import TaskGraph

  // --- Slot keys ---

  lemma {:induction false} DecimalInjective(m: nat, n: nat)
    requires Decimal(m) == Decimal(n)
    ensures m == n
  {
    if m < 10 && n < 10 {
      assert Decimal(m)[0] == Digit(m) && Decimal(n)[0] == Digit(n);
      DigitInjective(m, n);
    } else if m >= 10 && n >= 10 {
      var k := |Decimal(m)| - 1;
      assert Decimal(m)[k] == Digit(m % 10) && Decimal(n)[k] == Digit(n % 10);
      assert Decimal(m)[..k] == Decimal(m / 10) && Decimal(n)[..k] == Decimal(n / 10);
      DigitInjective(m % 10, n % 10);
      DecimalInjective(m / 10, n / 10);
    }
  }

  lemma DigitInjective(m: nat, n: nat)
    requires m < 10 && n < 10 && Digit(m) == Digit(n)
    ensures m == n
  {
    assert forall i, j :: 0 <= i < j < 10 ==> "0123456789"[i] != "0123456789"[j];
  }

  lemma NoColonAfter(a: string, x: string)
    requires forall i :: 0 <= i < |x| ==> x[i] != ':'
    ensures var key := a + ":" + x; key[|a|] == ':' && forall j :: |a| < j < |key| ==> key[j] != ':'
  {
    var key := a + ":" + x;
    forall j | |a| < j < |key|
      ensures key[j] != ':'
    {
      assert key[j] == x[j - |a| - 1];
    }
  }

  /** The last colon of a key separates what comes before it from a number. */
  lemma LastColonSplits(a: string, x: string, b: string, y: string)
    requires a + ":" + x == b + ":" + y
    requires (forall i :: 0 <= i < |x| ==> x[i] != ':') && (forall i :: 0 <= i < |y| ==> y[i] != ':')
    ensures a == b && x == y
  {
    NoColonAfter(a, x);
    NoColonAfter(b, y);
    var key, also := a + ":" + x, b + ":" + y;
    assert a == key[..|a|] && b == also[..|b|];
    assert x == key[|a| + 1..] && y == also[|b| + 1..];
  }

  lemma SlotKeyInjective(owner: string, m: nat, other: string, n: nat)
    requires SlotKey(owner, m) == SlotKey(other, n)
    ensures owner == other && m == n
  {
    LastColonSplits(owner, Decimal(m), other, Decimal(n));
    DecimalInjective(m, n);
  }

  // --- Capacity ---

  ghost predicate IsSlot(l: Lock, kind: string, owner: string, slot: nat) {
    !l.released && l.resource == Resource(kind, SlotKey(owner, slot))
  }

  /** Every live slot lock of the owner is below the limit. */
  ghost predicate SlotsBelow(locks: seq<Lock>, kind: string, owner: string, limit: nat) {
    forall l, k: nat :: 0 <= l < |locks| && IsSlot(locks[l], kind, owner, k) ==> k < limit
  }

  /** The rows of the live slot locks of an owner. */
  ghost function LiveSlots(locks: seq<Lock>, kind: string, owner: string): set<nat> {
    set l: nat | l < |locks| && exists k: nat :: IsSlot(locks[l], kind, owner, k)
  }

  ghost predicate SlotBelow(l: Lock, kind: string, owner: string, n: nat) {
    exists k: nat :: k < n && IsSlot(l, kind, owner, k)
  }

  lemma SlotHasOneRow(locks: seq<Lock>, kind: string, owner: string, slot: nat, l: nat, m: nat)
    requires LocksUnique(locks) && l < |locks| && m < |locks|
    requires IsSlot(locks[l], kind, owner, slot) && IsSlot(locks[m], kind, owner, slot)
    ensures l == m
  {
  }

  /** Rows with distinct slots below n are at most n. */
  lemma {:induction false} RowsBelow(locks: seq<Lock>, kind: string, owner: string, rows: set<nat>, n: nat)
    requires LocksUnique(locks)
    requires forall l :: l in rows ==> l < |locks| && SlotBelow(locks[l], kind, owner, n)
    ensures |rows| <= n
  {
    hide SlotKey;
    if n == 0 {
      assert rows == {};
    } else {
      var last := set l | l in rows && IsSlot(locks[l], kind, owner, n - 1);
      forall l | l in rows - last
        ensures SlotBelow(locks[l], kind, owner, n - 1)
      {
        var k: nat :| k < n && IsSlot(locks[l], kind, owner, k);
      }
      RowsBelow(locks, kind, owner, rows - last, n - 1);
      LastSlotOnce(locks, kind, owner, last, n - 1);
      assert rows == (rows - last) + last;
    }
  }

  lemma LastSlotOnce(locks: seq<Lock>, kind: string, owner: string, last: set<nat>, slot: nat)
    requires LocksUnique(locks) && forall l :: l in last ==> l < |locks| && IsSlot(locks[l], kind, owner, slot)
    ensures |last| <= 1
  {
    hide SlotKey;
    if last != {} {
      var l :| l in last;
      forall m | m in last
        ensures m == l
      {
        SlotHasOneRow(locks, kind, owner, slot, l, m);
      }
      assert last == {l};
    }
  }

  lemma AtMostLimitSlots(locks: seq<Lock>, kind: string, owner: string, limit: nat)
    requires LocksUnique(locks) && SlotsBelow(locks, kind, owner, limit)
    ensures |LiveSlots(locks, kind, owner)| <= limit
  {
    var rows := LiveSlots(locks, kind, owner);
    forall l | l in rows
      ensures SlotBelow(locks[l], kind, owner, limit)
    {
      var k: nat :| IsSlot(locks[l], kind, owner, k);
    }
    RowsBelow(locks, kind, owner, rows, limit);
  }

  predicate SlotKind(kind: string) {
    kind == ADAPTER_SLOT || kind == ACCOUNT_SLOT
  }

  /** Claims for the owner always come with at most this limit, and never name slots as plain resources. */
  ghost predicate RespectsLimit(op: Op, kind: string, owner: string, limit: nat) {
    op.ClaimTaskOp? ==>
      && (forall i :: 0 <= i < |op.request.resources| ==> op.request.resources[i].kind != kind)
      && (op.request.limits.Some? ==>
            var l := op.request.limits.value;
            && (kind == ADAPTER_SLOT && l.adapter == owner ==> l.perAdapter <= limit)
            && (kind == ACCOUNT_SLOT && AccountOwner(l) == owner ==> l.perAccount <= limit))
  }

  ghost predicate AllRespectLimit(steps: seq<Step>, kind: string, owner: string, limit: nat) {
    forall k :: 0 <= k < |steps| ==> RespectsLimit(steps[k].op, kind, owner, limit)
  }

  /** Rows that only change by being released never exceed the limit if they did not before. */
  lemma ReleasesKeepSlots(a: seq<Lock>, b: seq<Lock>, kind: string, owner: string, limit: nat)
    requires LocksAdvance(a, b) && |a| == |b| && SlotsBelow(a, kind, owner, limit)
    ensures SlotsBelow(b, kind, owner, limit)
  {
    forall l, k: nat | 0 <= l < |b| && IsSlot(b[l], kind, owner, k)
      ensures k < limit
    {
      assert LockAdvances(a[l], b[l]);
      assert IsSlot(a[l], kind, owner, k);
    }
  }

  lemma AcquireSlotKeepsSlots(locks: seq<Lock>, claim: nat, acquired: string, seeker: string, perOwner: nat,
                              kind: string, owner: string, limit: nat)
    requires SlotsBelow(locks, kind, owner, limit) && AcquireSlot(locks, claim, acquired, seeker, perOwner).Some?
    requires acquired == kind && seeker == owner ==> perOwner <= limit
    ensures SlotsBelow(AcquireSlot(locks, claim, acquired, seeker, perOwner).value, kind, owner, limit)
  {
    var h := AcquireSlot(locks, claim, acquired, seeker, perOwner).value;
    FreeSlotIsFirst(locks, acquired, seeker, 0, perOwner);
    forall l, k: nat | 0 <= l < |h| && IsSlot(h[l], kind, owner, k)
      ensures k < limit
    {
      if l < |locks| {
        assert IsSlot(locks[l], kind, owner, k);
      } else {
        SlotKeyInjective(owner, k, seeker, FreeSlot(locks, acquired, seeker, 0, perOwner).value);
      }
    }
  }

  lemma LockResourcesKeepsSlots(locks: seq<Lock>, claim: nat, resources: seq<Resource>,
                                kind: string, owner: string, limit: nat)
    requires SlotsBelow(locks, kind, owner, limit) && LockResources(locks, claim, resources).Ok?
    requires forall i :: 0 <= i < |resources| ==> resources[i].kind != kind
    ensures SlotsBelow(LockResources(locks, claim, resources).value, kind, owner, limit)
  {
    var h := LockResources(locks, claim, resources).value;
    LockResourcesShape(locks, claim, resources);
    forall l, k: nat | 0 <= l < |h| && IsSlot(h[l], kind, owner, k)
      ensures k < limit
    {
      if l < |locks| { assert IsSlot(locks[l], kind, owner, k); }
    }
  }

  lemma SlotKindsDiffer()
    ensures ADAPTER_SLOT != PROJECT && ACCOUNT_SLOT != PROJECT && ADAPTER_SLOT != ACCOUNT_SLOT
  {
    assert ADAPTER_SLOT[0] != PROJECT[0] && ACCOUNT_SLOT[0] != PROJECT[0] && ADAPTER_SLOT[1] != ACCOUNT_SLOT[1];
  }

  lemma AcquisitionKeepsSlots(s: State, r: ClaimRequest, now: int, kind: string, owner: string, limit: nat)
    requires r.task < |s.graph.tasks| && AcquireForClaim(s, r, now).Ok? && SlotKind(kind)
    requires RespectsLimit(ClaimTaskOp(r), kind, owner, limit) && SlotsBelow(s.locks, kind, owner, limit)
    ensures SlotsBelow(AcquireForClaim(s, r, now).value.locks, kind, owner, limit)
  {
    var slots, n := ClaimSlots(s, r).value, |s.claims|;
    if r.limits.Some? {
      var l := r.limits.value;
      AcquireSlotKeepsSlots(s.locks, n, ADAPTER_SLOT, l.adapter, l.perAdapter, kind, owner, limit);
      var withAdapter := AcquireSlot(s.locks, n, ADAPTER_SLOT, l.adapter, l.perAdapter).value;
      AcquireSlotKeepsSlots(withAdapter, n, ACCOUNT_SLOT, AccountOwner(l), l.perAccount, kind, owner, limit);
    }
    SlotKindsDiffer();
    var resources := [Resource(PROJECT, s.graph.tasks[r.task].project)] + r.resources;
    LockResourcesKeepsSlots(slots, n, resources, kind, owner, limit);
  }

  /** Steps other than claims add no claims and no locks. */
  lemma OtherStepsAddNothing(s: State, op: Op, now: int)
    requires TaskGraph.WellFormed(s.graph) && Apply(s, op, now).Ok? && !op.ClaimTaskOp?
    ensures |Apply(s, op, now).value.locks| == |s.locks| && |Apply(s, op, now).value.claims| == |s.claims|
  {
    if !op.BeginClaimedRunOp? && !op.ResumeOp? {
      StepKeepsRows(s, op, now);
    }
  }

  lemma SweepKeepsSlots(s: State, now: int, kind: string, owner: string, limit: nat)
    requires SlotsBelow(s.locks, kind, owner, limit)
    ensures SlotsBelow(ExpireClaims(s, now).locks, kind, owner, limit)
  {
    SweepAdvances(s, now);
    EndClaimsFrame(s, OverdueClaims(s.claims, now), Expiry);
    ReleasesKeepSlots(s.locks, ExpireClaims(s, now).locks, kind, owner, limit);
  }

  lemma ClaimTaskKeepsSlots(s: State, r: ClaimRequest, now: int, kind: string, owner: string, limit: nat)
    requires TaskGraph.WellFormed(s.graph) && ClaimTask(s, r, now).Ok? && SlotKind(kind)
    requires RespectsLimit(ClaimTaskOp(r), kind, owner, limit) && SlotsBelow(s.locks, kind, owner, limit)
    ensures SlotsBelow(ClaimTask(s, r, now).value.locks, kind, owner, limit)
  {
    hide SlotsBelow, RespectsLimit;
    SweepKeepsSlots(s, now, kind, owner, limit);
    AcquisitionKeepsSlots(ExpireClaims(s, now), r, now, kind, owner, limit);
  }

  lemma StepKeepsSlots(s: State, op: Op, now: int, kind: string, owner: string, limit: nat)
    requires Inv(s) && Apply(s, op, now).Ok? && SlotKind(kind)
    requires RespectsLimit(op, kind, owner, limit) && SlotsBelow(s.locks, kind, owner, limit)
    ensures SlotsBelow(Apply(s, op, now).value.locks, kind, owner, limit)
  {
    if op.ClaimTaskOp? {
      ClaimTaskKeepsSlots(s, op.request, now, kind, owner, limit);
    } else {
      StepAdvances(s, op, now);
      OtherStepsAddNothing(s, op, now);
      ReleasesKeepSlots(s.locks, Apply(s, op, now).value.locks, kind, owner, limit);
    }
  }

  lemma {:induction false} RunKeepsSlots(steps: seq<Step>, kind: string, owner: string, limit: nat)
    requires AllDisciplined(steps) && SlotKind(kind) && AllRespectLimit(steps, kind, owner, limit)
    ensures SlotsBelow(Reached(steps).locks, kind, owner, limit)
  {
    if steps != [] {
      var front, last := steps[..|steps| - 1], steps[|steps| - 1];
      RunKeepsSlots(front, kind, owner, limit);
      if Apply(Reached(front), last.op, last.now).Ok? {
        StepKeepsSlots(Reached(front), last.op, last.now, kind, owner, limit);
      }
    }
  }

  /** Under one limit, an adapter or an account never holds more live slots than that limit. */
  lemma CapacityIsNeverExceeded(steps: seq<Step>, kind: string, owner: string, limit: nat)
    requires AllDisciplined(steps) && SlotKind(kind) && AllRespectLimit(steps, kind, owner, limit)
    ensures |LiveSlots(Reached(steps).locks, kind, owner)| <= limit
  {
    RunKeepsSlots(steps, kind, owner, limit);
    AtMostLimitSlots(Reached(steps).locks, kind, owner, limit);
  }

  /** A slot is refused exactly when every one of the owner's slots is taken; otherwise the first free one is given. */
  lemma SlotRefusedExactlyWhenAllTaken(locks: seq<Lock>, claim: nat, kind: string, owner: string, limit: nat)
    ensures AcquireSlot(locks, claim, kind, owner, limit).None?
       <==> forall k :: 0 <= k < limit ==> Occupied(locks, Resource(kind, SlotKey(owner, k)))
    ensures AcquireSlot(locks, claim, kind, owner, limit).Some? ==>
              exists k: nat ::
                && k < limit && !Occupied(locks, Resource(kind, SlotKey(owner, k)))
                && (forall j :: 0 <= j < k ==> Occupied(locks, Resource(kind, SlotKey(owner, j))))
                && AcquireSlot(locks, claim, kind, owner, limit).value
                   == locks + [Lock(Resource(kind, SlotKey(owner, k)), claim, false)]
  {
    FreeSlotIsFirst(locks, kind, owner, 0, limit);
  }

  // --- Global capacity ---

  ghost function ActiveSet(claims: seq<Claim>): set<nat> {
    set c: nat | c < |claims| && claims[c].status == ClaimActive
  }

  lemma ActiveSetShrinks(a: seq<Claim>, b: seq<Claim>)
    requires ClaimsAdvance(a, b) && |a| == |b|
    ensures |ActiveSet(b)| <= |ActiveSet(a)|
  {
    forall c | c in ActiveSet(b)
      ensures c in ActiveSet(a)
    {
      assert ClaimAdvances(a[c], b[c]);
    }
    SubsetSize(ActiveSet(b), ActiveSet(a));
  }

  /** When every active claim is unexpired, the count the capacity check reads is the number of active claims. */
  lemma LiveClaimsCountsActive(claims: seq<Claim>, now: int)
    requires forall c :: 0 <= c < |claims| && claims[c].status == ClaimActive ==> claims[c].expiresAt > now
    ensures |ActiveSet(claims)| == LiveClaims(claims, now)
  {
    var cs := UnexpiredClaims(claims, now);
    assert ActiveSet(claims) == Elements(cs);
    DistinctSize(cs);
  }

  /** A granted claim leaves at most as many active claims as its request allows. */
  lemma GrantIsWithinCapacity(s: State, r: ClaimRequest, now: int)
    requires Inv(s) && ClaimTask(s, r, now).Ok?
    ensures |ActiveSet(ClaimTask(s, r, now).value.claims)| <= r.maxActive
  {
    hide Inv;
    var swept := ExpireClaims(s, now);
    SweepExpiresExactly(s, now);
    LiveClaimsCountsActive(swept.claims, now);
    AcquisitionAddsOne(swept, r, now);
  }

  lemma AcquisitionAddsOne(s: State, r: ClaimRequest, now: int)
    requires r.task < |s.graph.tasks| && AcquireForClaim(s, r, now).Ok?
    ensures |ActiveSet(AcquireForClaim(s, r, now).value.claims)| == |ActiveSet(s.claims)| + 1
  {
    hide ClaimSlots, ClaimQuota, LockResources, ClaimApi;
    OneMoreActive(s.claims, NewClaim(r, now));
  }

  lemma OneMoreActive(claims: seq<Claim>, c: Claim)
    requires c.status == ClaimActive
    ensures |ActiveSet(claims + [c])| == |ActiveSet(claims)| + 1
  {
    var n, before, after := |claims|, ActiveSet(claims), ActiveSet(claims + [c]);
    assert (claims + [c])[n] == c && forall d :: 0 <= d < n ==> (claims + [c])[d] == claims[d];
    assert n !in before && n in after;
    assert after == before + {n};
  }

  ghost predicate AllWithin(steps: seq<Step>, limit: nat) {
    forall k :: 0 <= k < |steps| && steps[k].op.ClaimTaskOp? ==> steps[k].op.request.maxActive <= limit
  }

  /** Under one limit on active claims, no reachable state has more. */
  lemma {:induction false} GlobalCapacityIsNeverExceeded(steps: seq<Step>, limit: nat)
    requires AllDisciplined(steps) && AllWithin(steps, limit)
    ensures |ActiveSet(Reached(steps).claims)| <= limit
  {
    if steps == [] {
      assert ActiveSet(EmptyState.claims) == {};
    } else {
      GlobalCapacityIsNeverExceeded(steps[..|steps| - 1], limit);
      StepKeepsCapacity(Reached(steps[..|steps| - 1]), steps[|steps| - 1], limit);
    }
  }

  lemma StepKeepsCapacity(s: State, step: Step, limit: nat)
    requires Inv(s) && Disciplined(step.op) && |ActiveSet(s.claims)| <= limit
    requires step.op.ClaimTaskOp? ==> step.op.request.maxActive <= limit
    ensures |ActiveSet(Next(s, step).claims)| <= limit
  {
    if Apply(s, step.op, step.now).Ok? {
      if step.op.ClaimTaskOp? {
        GrantIsWithinCapacity(s, step.op.request, step.now);
      } else {
        OtherStepsAddNothing(s, step.op, step.now);
        StepAdvances(s, step.op, step.now);
        ActiveSetShrinks(s.claims, Next(s, step).claims);
      }
    }
  }
}
