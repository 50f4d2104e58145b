/**
 Candidate routing: hard gates, a recorded score, and a selection that ignores input order.
 Percentages and scores are reals.
 */
module Routing {
  import opened Prelude

  datatype ProbeFreshness = Fresh | Stale | UnknownFreshness
  datatype AdapterHealth = Healthy | Missing | Unsupported | Unhealthy | UnknownHealth

  datatype Identity = Identity(adapter: string, provider: string, account: string)

  datatype Candidate = Candidate(
    identity: Identity,
    freshness: ProbeFreshness,
    health: AdapterHealth,
    capabilities: seq<string>,
    remaining: Option<real>,
    reserve: real,
    forecast: real,
    historicalSuccess: Option<real>,
    continuity: bool,
    preference: real)

  datatype Request = Request(requiredCapabilities: seq<string>, pin: Option<Identity>)

  datatype ReasonCode =
    | RouteAllowed
    | PinMismatch
    | CapabilityUnknown
    | CapabilityStale
    | AdapterMissing
    | AdapterUnsupported
    | AdapterUnhealthy
    | AdapterUnknown
    | CapabilityMissing
    | QuotaUnknown
    | QuotaInsufficient
    | PinUnavailable
    | NoCandidate

  datatype Score = Score(quotaMargin: real, reliability: real, continuityBonus: real, preference: real, total: real)

  datatype Evaluation = Evaluation(
    identity: Identity, allowed: bool, reason: ReasonCode, requiredHeadroom: real, score: Option<Score>)

  datatype Selection = Selection(
    selected: Option<Identity>, allowed: bool, reason: ReasonCode, evaluations: seq<Evaluation>)

  datatype RoutingError = EmptyCapability | EmptyIdentity | PercentOutOfRange

  // --- Gates ---

  /** A percentage between 0 and 100. */
  predicate ValidPercent(value: real) {
    0.0 <= value <= 100.0
  }

  function ValidateRequest(request: Request): Result<(), RoutingError> {
    if exists c :: c in request.requiredCapabilities && !NonBlank(c) then Err(EmptyCapability) else Ok(())
  }

  function ValidateCandidate(c: Candidate): Result<(), RoutingError> {
    if !NonBlank(c.identity.adapter) || !NonBlank(c.identity.provider) || !NonBlank(c.identity.account)
    then Err(EmptyIdentity)
    else if !ValidPercent(c.reserve) || !ValidPercent(c.forecast)
      || (c.remaining.Some? && !ValidPercent(c.remaining.value))
      || (c.historicalSuccess.Some? && !ValidPercent(c.historicalSuccess.value))
    then Err(PercentOutOfRange)
    else Ok(())
  }

  /** Capabilities and identities are not blank, and percentages lie between 0 and 100. */
  lemma InputAcceptedExactly(request: Request, c: Candidate)
    ensures ValidateRequest(request).Ok? <==>
              forall k :: 0 <= k < |request.requiredCapabilities| ==> NonBlank(request.requiredCapabilities[k])
    ensures ValidateCandidate(c).Ok? <==>
              && NonBlank(c.identity.adapter) && NonBlank(c.identity.provider) && NonBlank(c.identity.account)
              && 0.0 <= c.reserve <= 100.0 && 0.0 <= c.forecast <= 100.0
              && (c.remaining.Some? ==> 0.0 <= c.remaining.value <= 100.0)
              && (c.historicalSuccess.Some? ==> 0.0 <= c.historicalSuccess.value <= 100.0)
  {
  }

  function Denied(c: Candidate, reason: ReasonCode): Evaluation {
    Evaluation(c.identity, false, reason, c.reserve + c.forecast, None)
  }

  function EvaluateCandidate(request: Request, c: Candidate): (e: Evaluation)
    ensures e.identity == c.identity
  {
    var headroom := c.reserve + c.forecast;
    if request.pin.Some? && request.pin.value != c.identity then Denied(c, PinMismatch)
    else if c.freshness == UnknownFreshness then Denied(c, CapabilityUnknown)
    else if c.freshness == Stale then Denied(c, CapabilityStale)
    else if c.health == Missing then Denied(c, AdapterMissing)
    else if c.health == Unsupported then Denied(c, AdapterUnsupported)
    else if c.health == Unhealthy then Denied(c, AdapterUnhealthy)
    else if c.health == UnknownHealth then Denied(c, AdapterUnknown)
    else if exists required :: required in request.requiredCapabilities && required !in c.capabilities
    then Denied(c, CapabilityMissing)
    else if c.remaining.None? then Denied(c, QuotaUnknown)
    else if c.remaining.value < headroom then Denied(c, QuotaInsufficient)
    else
      var margin := c.remaining.value - headroom;
      var reliability := (if c.historicalSuccess.Some? then c.historicalSuccess.value else 50.0) * 0.25;
      var bonus := if c.continuity then 10.0 else 0.0;
      var total := margin + reliability + bonus + c.preference;
      Evaluation(c.identity, true, RouteAllowed, headroom, Some(Score(margin, reliability, bonus, c.preference, total)))
  }

  /** The hard gates, stated without their order. */
  ghost predicate PassesEveryGate(request: Request, c: Candidate) {
    && (request.pin.Some? ==> request.pin.value == c.identity)
    && c.freshness == Fresh
    && c.health == Healthy
    && (forall required :: required in request.requiredCapabilities ==> required in c.capabilities)
    && c.remaining.Some?
    && c.reserve + c.forecast <= c.remaining.value
  }

  // --- The order the evaluations are sorted by ---

  /** Lexicographic comparison by code point: negative, zero or positive. */
  function CompareStrings(a: string, b: string): int {
    if a == [] && b == [] then 0
    else if a == [] then -1
    else if b == [] then 1
    else if a[0] < b[0] then -1
    else if b[0] < a[0] then 1
    else CompareStrings(a[1..], b[1..])
  }

  lemma {:induction false} CompareStringsAntisymmetric(a: string, b: string)
    ensures CompareStrings(a, b) == -CompareStrings(b, a)
    ensures CompareStrings(a, b) == 0 <==> a == b
  {
    if a != [] && b != [] {
      CompareStringsAntisymmetric(a[1..], b[1..]);
      if a[0] == b[0] {
        assert a == [a[0]] + a[1..] && b == [b[0]] + b[1..];
      }
    }
  }

  lemma {:induction false} CompareStringsTransitive(a: string, b: string, c: string)
    requires CompareStrings(a, b) <= 0 && CompareStrings(b, c) <= 0
    ensures CompareStrings(a, c) <= 0
  {
    if a != [] && b != [] && c != [] {
      if a[0] == b[0] == c[0] {
        CompareStringsTransitive(a[1..], b[1..], c[1..]);
      }
    }
  }

  lemma DifferentFromTheStart(a: string, b: string)
    requires a != [] && b != [] && a[0] != b[0]
    ensures forall k :: 0 < k <= |a| && k <= |b| ==> a[..k] != b[..k]
  {
    forall k | 0 < k <= |a| && k <= |b|
      ensures a[..k] != b[..k]
    {
      assert a[..k][0] == a[0] && b[..k][0] == b[0];
    }
  }

  /** The comparison is lexicographic: by the first difference, a proper prefix being the lesser. */
  lemma {:induction false} CompareStringsIsLexicographic(a: string, b: string)
    ensures CompareStrings(a, b) < 0 <==>
              exists k :: 0 <= k <= |a| && k < |b| && a[..k] == b[..k] && (k == |a| || a[k] < b[k])
  {
    if a != [] && b != [] {
      if a[0] == b[0] {
        CompareStringsIsLexicographic(a[1..], b[1..]);
        if k :| 0 <= k <= |a[1..]| && k < |b[1..]| && a[1..][..k] == b[1..][..k] && (k == |a[1..]| || a[1..][k] < b[1..][k]) {
          assert a[..k + 1] == [a[0]] + a[1..][..k] && b[..k + 1] == [b[0]] + b[1..][..k];
          assert k + 1 == |a| || a[k + 1] < b[k + 1];
        }
        if k :| 0 <= k <= |a| && k < |b| && a[..k] == b[..k] && (k == |a| || a[k] < b[k]) {
          assert a[1..][..k - 1] == a[..k][1..] && b[1..][..k - 1] == b[..k][1..];
        }
      } else {
        assert a[..0] == b[..0];
        DifferentFromTheStart(a, b);
      }
    } else if b != [] {
      assert a[..0] == b[..0];
    }
  }

  function CompareIdentities(a: Identity, b: Identity): int {
    var adapter := CompareStrings(a.adapter, b.adapter);
    var provider := CompareStrings(a.provider, b.provider);
    if adapter != 0 then adapter
    else if provider != 0 then provider
    else CompareStrings(a.account, b.account)
  }

  /** Identities compare by adapter, then provider, then account. */
  lemma CompareIdentitiesIsLexicographic(a: Identity, b: Identity)
    ensures CompareIdentities(a, b) < 0 <==>
              || CompareStrings(a.adapter, b.adapter) < 0
              || (a.adapter == b.adapter && CompareStrings(a.provider, b.provider) < 0)
              || (a.adapter == b.adapter && a.provider == b.provider && CompareStrings(a.account, b.account) < 0)
  {
    CompareStringsAntisymmetric(a.adapter, b.adapter);
    CompareStringsAntisymmetric(a.provider, b.provider);
  }

  lemma CompareIdentitiesAntisymmetric(a: Identity, b: Identity)
    ensures CompareIdentities(a, b) == -CompareIdentities(b, a)
    ensures CompareIdentities(a, b) == 0 <==> a == b
  {
    CompareStringsAntisymmetric(a.adapter, b.adapter);
    CompareStringsAntisymmetric(a.provider, b.provider);
    CompareStringsAntisymmetric(a.account, b.account);
  }

  lemma CompareIdentitiesTransitive(a: Identity, b: Identity, c: Identity)
    requires CompareIdentities(a, b) <= 0 && CompareIdentities(b, c) <= 0
    ensures CompareIdentities(a, c) <= 0
  {
    CompareStringsAntisymmetric(a.adapter, b.adapter);
    CompareStringsAntisymmetric(b.adapter, c.adapter);
    CompareStringsAntisymmetric(a.adapter, c.adapter);
    CompareStringsAntisymmetric(a.provider, b.provider);
    CompareStringsAntisymmetric(b.provider, c.provider);
    CompareStringsAntisymmetric(a.provider, c.provider);
    CompareStringsTransitive(a.adapter, b.adapter, c.adapter);
    if a.adapter == b.adapter == c.adapter {
      CompareStringsTransitive(a.provider, b.provider, c.provider);
      if a.provider == b.provider == c.provider {
        CompareStringsTransitive(a.account, b.account, c.account);
      }
    }
  }

  /** a sorts no later than b: allowed first, then the higher score, then the lesser key. */
  predicate SortsBefore(a: Evaluation, b: Evaluation) {
    if a.allowed != b.allowed then a.allowed
    else if a.score.None? || b.score.None? then
      // A missing score counts as minus infinity.
      if a.score.None? && b.score.None? then CompareIdentities(a.identity, b.identity) <= 0 else a.score.Some?
    else if a.score.value.total != b.score.value.total then a.score.value.total > b.score.value.total
    else CompareIdentities(a.identity, b.identity) <= 0
  }

  lemma SortsBeforeTotal(a: Evaluation, b: Evaluation)
    ensures SortsBefore(a, b) || SortsBefore(b, a)
    ensures SortsBefore(a, b) && SortsBefore(b, a) ==> a.identity == b.identity
  {
    CompareIdentitiesAntisymmetric(a.identity, b.identity);
  }

  lemma SortsBeforeTransitive(a: Evaluation, b: Evaluation, c: Evaluation)
    requires SortsBefore(a, b) && SortsBefore(b, c)
    ensures SortsBefore(a, c)
  {
    CompareIdentitiesAntisymmetric(a.identity, c.identity);
    if CompareIdentities(a.identity, b.identity) <= 0 && CompareIdentities(b.identity, c.identity) <= 0 {
      CompareIdentitiesTransitive(a.identity, b.identity, c.identity);
    }
  }

  ghost predicate Sorted(es: seq<Evaluation>) {
    forall i, j :: 0 <= i < j < |es| ==> SortsBefore(es[i], es[j])
  }

  /** Sorting by the order above: each evaluation moves left past those it sorts before. */
  method SortEvaluations(input: seq<Evaluation>) returns (es: seq<Evaluation>)
    ensures Sorted(es) && multiset(es) == multiset(input)
  {
    es := [];
    var n := 0;
    while n < |input|
      invariant n <= |input|
      invariant Sorted(es) && multiset(es) == multiset(input[..n])
    {
      var x := input[n];
      var i := InsertionPoint(es, x);
      InsertKeepsSorted(es, i, x);
      assert input[..n + 1] == input[..n] + [x];
      es := es[..i] + [x] + es[i..];
      n := n + 1;
    }
    assert input[..n] == input;
  }

  method InsertionPoint(es: seq<Evaluation>, x: Evaluation) returns (i: nat)
    ensures i <= |es|
    ensures i > 0 ==> SortsBefore(es[i - 1], x)
    ensures forall k :: i <= k < |es| ==> SortsBefore(x, es[k])
  {
    i := |es|;
    while i > 0 && !SortsBefore(es[i - 1], x)
      invariant 0 <= i <= |es|
      invariant forall k :: i <= k < |es| ==> SortsBefore(x, es[k])
    {
      SortsBeforeTotal(es[i - 1], x);
      i := i - 1;
    }
  }

  lemma InsertKeepsSorted(es: seq<Evaluation>, i: nat, x: Evaluation)
    requires i <= |es| && Sorted(es)
    requires i > 0 ==> SortsBefore(es[i - 1], x)
    requires forall k :: i <= k < |es| ==> SortsBefore(x, es[k])
    ensures Sorted(es[..i] + [x] + es[i..])
    ensures multiset(es[..i] + [x] + es[i..]) == multiset(es) + multiset{x}
  {
    InsertMultiset(es, i, x);
    var r := es[..i] + [x] + es[i..];
    forall a, b | 0 <= a < b < |r|
      ensures SortsBefore(r[a], r[b])
    {
      if a < i - 1 && b == i {
        SortsBeforeTransitive(es[a], es[i - 1], x);
      } else if a < i && b > i {
        assert SortsBefore(es[a], es[b - 1]);
      }
    }
  }

  lemma InsertMultiset<T>(s: seq<T>, i: nat, x: T)
    requires i <= |s|
    ensures multiset(s[..i] + [x] + s[i..]) == multiset(s) + multiset{x}
  {
    assert s == s[..i] + s[i..];
  }

  // --- Selection ---

  function Evaluations(request: Request, candidates: seq<Candidate>): (es: seq<Evaluation>)
    ensures |es| == |candidates|
    ensures forall i :: 0 <= i < |es| ==> es[i] == EvaluateCandidate(request, candidates[i])
  {
    seq(|candidates|, i requires 0 <= i < |candidates| => EvaluateCandidate(request, candidates[i]))
  }

  predicate AllValid(request: Request, candidates: seq<Candidate>) {
    ValidateRequest(request).Ok? && forall c :: c in candidates ==> ValidateCandidate(c).Ok?
  }

  /** id is allowed, no allowed candidate scores higher, and none that ties has a lesser key. */
  ghost predicate IsBest(request: Request, candidates: seq<Candidate>, id: Identity) {
    exists c :: c in candidates && c.identity == id && BestCandidate(request, candidates, c)
  }

  ghost predicate BestCandidate(request: Request, candidates: seq<Candidate>, c: Candidate) {
    && PassesEveryGate(request, c)
    && forall other :: other in candidates && PassesEveryGate(request, other) ==>
         || Total(other) < Total(c)
         || (Total(other) == Total(c) && CompareIdentities(c.identity, other.identity) <= 0)
  }

  /** A quota margin in percent, a quarter of the success rate, ten for continuity, and the preference. */
  ghost function Total(c: Candidate): real
    requires c.remaining.Some?
  {
    c.remaining.value - c.reserve - c.forecast
    + (match c.historicalSuccess
       case Some(percent) => percent / 4.0
       case None => 12.5)
    + (if c.continuity then 10.0 else 0.0)
    + c.preference
  }

  lemma AllowedMeansEveryGate(request: Request, c: Candidate)
    ensures
      var e := EvaluateCandidate(request, c);
      && (e.allowed <==> PassesEveryGate(request, c)) && (e.allowed <==> e.score.Some?)
      && (e.allowed <==> e.reason == RouteAllowed)
      && e.requiredHeadroom == c.reserve + c.forecast
      && (e.allowed ==>
            && e.score.value.total == Total(c)
            && e.score.value.total == e.score.value.quotaMargin + e.score.value.reliability
                                      + e.score.value.continuityBonus + e.score.value.preference
            && e.score.value.quotaMargin == c.remaining.value - e.requiredHeadroom
            && e.score.value.preference == c.preference
            && e.score.value.continuityBonus == if c.continuity then 10.0 else 0.0)
  {
  }

  /** The gates in the order they are tried, by the reasons they deny with. */
  const GATES := [
    PinMismatch, CapabilityUnknown, CapabilityStale, AdapterMissing, AdapterUnsupported, AdapterUnhealthy,
    AdapterUnknown, CapabilityMissing, QuotaUnknown, QuotaInsufficient]

  ghost predicate FailsGate(request: Request, c: Candidate, gate: ReasonCode) {
    match gate
    case PinMismatch => request.pin.Some? && c.identity != request.pin.value
    case CapabilityUnknown => c.freshness == UnknownFreshness
    case CapabilityStale => c.freshness == Stale
    case AdapterMissing => c.health == Missing
    case AdapterUnsupported => c.health == Unsupported
    case AdapterUnhealthy => c.health == Unhealthy
    case AdapterUnknown => c.health == UnknownHealth
    case CapabilityMissing => exists required :: required in request.requiredCapabilities && required !in c.capabilities
    case QuotaUnknown => c.remaining.None?
    case QuotaInsufficient => c.remaining.Some? && c.remaining.value < c.reserve + c.forecast
    case _ => false
  }

  /** A denial names a gate the candidate fails, and the first such gate. */
  lemma DenialNamesTheFirstGateFailed(request: Request, c: Candidate)
    requires !EvaluateCandidate(request, c).allowed
    ensures exists k :: 0 <= k < |GATES| && EvaluateCandidate(request, c).reason == GATES[k]
              && FailsGate(request, c, GATES[k]) && forall j :: 0 <= j < k ==> !FailsGate(request, c, GATES[j])
  {
    FailedGateFirst(request, c, PositionOf(EvaluateCandidate(request, c).reason));
  }

  function PositionOf(gate: ReasonCode): (k: nat)
    ensures k < |GATES|
    ensures gate in GATES ==> GATES[k] == gate
  {
    match gate
    case PinMismatch => 0
    case CapabilityUnknown => 1
    case CapabilityStale => 2
    case AdapterMissing => 3
    case AdapterUnsupported => 4
    case AdapterUnhealthy => 5
    case AdapterUnknown => 6
    case CapabilityMissing => 7
    case QuotaUnknown => 8
    case _ => 9
  }

  lemma FailedGateFirst(request: Request, c: Candidate, k: nat)
    requires !EvaluateCandidate(request, c).allowed && k == PositionOf(EvaluateCandidate(request, c).reason)
    ensures EvaluateCandidate(request, c).reason == GATES[k] && FailsGate(request, c, GATES[k])
    ensures forall j :: 0 <= j < k ==> !FailsGate(request, c, GATES[j])
  {
  }

  /** What a selection must be, whatever order the candidates came in. */
  ghost predicate IsSelection(request: Request, candidates: seq<Candidate>, s: Selection) {
    && multiset(s.evaluations) == multiset(Evaluations(request, candidates))
    && Sorted(s.evaluations)
    && s.allowed == s.selected.Some?
    && (s.allowed <==> exists c :: c in candidates && PassesEveryGate(request, c))
    && (s.selected.Some? ==>
          && IsBest(request, candidates, s.selected.value)
          && (request.pin.Some? ==> s.selected.value == request.pin.value))
    && s.reason == (if s.allowed then RouteAllowed
                    else if request.pin.Some? then PinReason(s.evaluations, request.pin.value)
                    else NoCandidate)
  }

  /** The reason of the first evaluation of the pinned identity. */
  function PinReason(es: seq<Evaluation>, pin: Identity): ReasonCode {
    if es == [] then PinUnavailable
    else if es[0].identity == pin then es[0].reason
    else PinReason(es[1..], pin)
  }

  method SelectCandidate(request: Request, candidates: seq<Candidate>) returns (r: Result<Selection, RoutingError>)
    ensures r.Ok? <==> AllValid(request, candidates)
    ensures r.Ok? ==> IsSelection(request, candidates, r.value)
  {
    var checked := ValidateRequest(request);
    if checked.Err? { return Err(checked.error); }
    for i := 0 to |candidates|
      invariant forall k :: 0 <= k < i ==> ValidateCandidate(candidates[k]).Ok?
    {
      var valid := ValidateCandidate(candidates[i]);
      if valid.Err? {
        assert candidates[i] in candidates;
        return Err(valid.error);
      }
    }
    var collected: seq<Evaluation> := [];
    for i := 0 to |candidates|
      invariant collected == Evaluations(request, candidates)[..i]
    {
      collected := collected + [EvaluateCandidate(request, candidates[i])];
    }
    assert collected == Evaluations(request, candidates);
    var evaluations := SortEvaluations(collected);
    var selected := None;
    if evaluations != [] && evaluations[0].allowed {
      selected := Some(evaluations[0].identity);
    }
    var reason := RouteAllowed;
    if selected.None? {
      reason := NoCandidate;
      if request.pin.Some? {
        reason := PinUnavailable;
        var i := 0;
        while i < |evaluations| && evaluations[i].identity != request.pin.value
          invariant 0 <= i <= |evaluations|
          invariant PinReason(evaluations, request.pin.value) == PinReason(evaluations[i..], request.pin.value)
        {
          i := i + 1;
        }
        if i < |evaluations| { reason := evaluations[i].reason; }
      }
    }
    SortedHeadDecides(request, candidates, evaluations);
    return Ok(Selection(selected, selected.Some?, reason, evaluations));
  }

  lemma EvaluationsHaveCandidates(request: Request, candidates: seq<Candidate>, es: seq<Evaluation>)
    requires multiset(es) == multiset(Evaluations(request, candidates))
    ensures forall e :: e in es ==> exists c :: c in candidates && e == EvaluateCandidate(request, c)
    ensures forall c :: c in candidates ==> EvaluateCandidate(request, c) in es
  {
    var all := Evaluations(request, candidates);
    forall e | e in es
      ensures exists c :: c in candidates && e == EvaluateCandidate(request, c)
    {
      assert e in multiset(all);
      var i :| 0 <= i < |all| && all[i] == e;
      assert candidates[i] in candidates;
    }
    forall c | c in candidates
      ensures EvaluateCandidate(request, c) in es
    {
      var i :| 0 <= i < |candidates| && candidates[i] == c;
      assert all[i] in multiset(es);
    }
  }

  lemma SortedHeadDecides(request: Request, candidates: seq<Candidate>, es: seq<Evaluation>)
    requires Sorted(es) && multiset(es) == multiset(Evaluations(request, candidates))
    ensures (exists c :: c in candidates && PassesEveryGate(request, c)) <==> (es != [] && es[0].allowed)
    ensures es != [] && es[0].allowed ==>
              && IsBest(request, candidates, es[0].identity)
              && (request.pin.Some? ==> es[0].identity == request.pin.value)
  {
    EvaluationsHaveCandidates(request, candidates, es);
    forall c | c in candidates
      ensures EvaluateCandidate(request, c) in es
      ensures EvaluateCandidate(request, c) == es[0] || SortsBefore(es[0], EvaluateCandidate(request, c))
      ensures PassesEveryGate(request, c) ==> es[0].allowed
    {
      AllowedMeansEveryGate(request, c);
    }
    if es != [] && es[0].allowed {
      assert es[0] in es;
      var best :| best in candidates && es[0] == EvaluateCandidate(request, best);
      AllowedMeansEveryGate(request, best);
      forall other | other in candidates && PassesEveryGate(request, other)
        ensures || Total(other) < Total(best)
                || (Total(other) == Total(best)
                    && CompareIdentities(best.identity, other.identity) <= 0)
      {
        AllowedMeansEveryGate(request, other);
        CompareIdentitiesAntisymmetric(best.identity, best.identity);
        assert EvaluateCandidate(request, other) == es[0] || SortsBefore(es[0], EvaluateCandidate(request, other));
      }
      assert BestCandidate(request, candidates, best);
    }
  }

  lemma BestIsUnique(request: Request, xs: seq<Candidate>, ys: seq<Candidate>, a: Identity, b: Identity)
    requires multiset(xs) == multiset(ys)
    requires IsBest(request, xs, a) && IsBest(request, ys, b)
    ensures a == b
  {
    var x :| x in xs && x.identity == a && BestCandidate(request, xs, x);
    var y :| y in ys && y.identity == b && BestCandidate(request, ys, y);
    assert x in multiset(ys) && y in multiset(xs);
    CompareIdentitiesAntisymmetric(a, b);
  }

  /** Reordering the candidates never changes what is selected, even with repeated identities. */
  lemma SelectionIgnoresOrder(
      request: Request, xs: seq<Candidate>, ys: seq<Candidate>, s: Selection, t: Selection)
    requires multiset(xs) == multiset(ys)
    requires IsSelection(request, xs, s) && IsSelection(request, ys, t)
    ensures s.selected == t.selected && s.allowed == t.allowed
  {
    forall c
      ensures c in xs <==> c in ys
    {
      assert c in xs <==> c in multiset(xs);
      assert c in ys <==> c in multiset(ys);
    }
    if s.selected.Some? && t.selected.Some? {
      BestIsUnique(request, xs, ys, s.selected.value, t.selected.value);
    }
  }

  ghost predicate DistinctIdentities(candidates: seq<Candidate>) {
    forall i, j :: 0 <= i < j < |candidates| ==> candidates[i].identity != candidates[j].identity
  }

  function Without<T>(s: seq<T>, k: nat): (r: seq<T>)
    requires k < |s|
    ensures |r| == |s| - 1
  {
    s[..k] + s[k + 1..]
  }

  lemma RemoveFromMultiset<T>(s: seq<T>, k: nat)
    requires k < |s|
    ensures multiset(Without(s, k)) == multiset(s) - multiset{s[k]}
    ensures multiset(s) == multiset(Without(s, k)) + multiset{s[k]}
  {
    assert s == s[..k] + [s[k]] + s[k + 1..];
  }

  ghost predicate Images<A, B>(f: A -> B, xs: seq<A>, fx: seq<B>) {
    |fx| == |xs| && forall i :: 0 <= i < |xs| ==> fx[i] == f(xs[i])
  }

  lemma ImagesAfterRemoval<A, B>(f: A -> B, xs: seq<A>, fx: seq<B>, k: nat)
    requires Images(f, xs, fx) && k < |xs|
    ensures Images(f, Without(xs, k), Without(fx, k))
  {
  }

  lemma {:induction false} ImagesOfPermutation<A, B>(f: A -> B, xs: seq<A>, ys: seq<A>, fx: seq<B>, fy: seq<B>)
    requires multiset(xs) == multiset(ys) && Images(f, xs, fx) && Images(f, ys, fy)
    ensures multiset(fx) == multiset(fy)
    decreases |xs|
  {
    assert |xs| == |ys| by { assert |multiset(xs)| == |xs| && |multiset(ys)| == |ys|; }
    if xs != [] {
      assert xs[0] in multiset(ys);
      var k: nat :| k < |ys| && ys[k] == xs[0];
      assert fy[k] == fx[0];
      ImagesAfterRemoval(f, xs, fx, 0);
      ImagesAfterRemoval(f, ys, fy, k);
      hide Images, Without;
      RemoveFromMultiset(xs, 0);
      RemoveFromMultiset(ys, k);
      ImagesOfPermutation(f, Without(xs, 0), Without(ys, k), Without(fx, 0), Without(fy, k));
      RemoveFromMultiset(fx, 0);
      RemoveFromMultiset(fy, k);
    }
  }

  lemma SortedHeadsAgree(xs: seq<Evaluation>, ys: seq<Evaluation>)
    requires multiset(xs) == multiset(ys) && Sorted(xs) && Sorted(ys) && xs != [] && ys != []
    requires forall a, b :: a in xs && b in xs && a.identity == b.identity ==> a == b
    ensures xs[0] == ys[0]
  {
    hide SortsBefore;
    var x, y := xs[0], ys[0];
    assert x in multiset(ys) && y in multiset(xs);
    SortsBeforeTotal(x, y);
    assert x == y || (SortsBefore(x, y) && SortsBefore(y, x));
  }

  lemma TailAfterHead<T>(s: seq<T>)
    requires s != []
    ensures multiset(s[1..]) == multiset(s) - multiset{s[0]}
  {
    assert s == [s[0]] + s[1..];
  }

  /** Two sorted arrangements of evaluations with distinct identities are the same list. */
  lemma {:induction false} SortedIsUnique(xs: seq<Evaluation>, ys: seq<Evaluation>)
    requires multiset(xs) == multiset(ys) && Sorted(xs) && Sorted(ys)
    requires forall a, b :: a in xs && b in xs && a.identity == b.identity ==> a == b
    ensures xs == ys
    decreases |xs|
  {
    hide SortsBefore;
    assert |xs| == |ys| by { assert |multiset(xs)| == |xs| && |multiset(ys)| == |ys|; }
    if xs != [] {
      SortedHeadsAgree(xs, ys);
      TailAfterHead(xs);
      TailAfterHead(ys);
      SortedIsUnique(xs[1..], ys[1..]);
      assert xs == [xs[0]] + xs[1..] && ys == [ys[0]] + ys[1..];
    }
  }

  lemma DistinctEvaluations(request: Request, xs: seq<Candidate>, es: seq<Evaluation>, a: Evaluation, b: Evaluation)
    requires DistinctIdentities(xs) && multiset(es) == multiset(Evaluations(request, xs))
    requires a in es && b in es && a.identity == b.identity
    ensures a == b
  {
    var all := Evaluations(request, xs);
    assert a in multiset(all) && b in multiset(all);
    var i: nat :| i < |all| && all[i] == a;
    var j: nat :| j < |all| && all[j] == b;
    assert a.identity == xs[i].identity && b.identity == xs[j].identity;
    assert i == j;
  }

  /** With distinct identities the whole answer, evaluation list included, ignores input order. */
  lemma AnswerIgnoresOrder(
      request: Request, xs: seq<Candidate>, ys: seq<Candidate>, s: Selection, t: Selection)
    requires multiset(xs) == multiset(ys) && DistinctIdentities(xs)
    requires IsSelection(request, xs, s) && IsSelection(request, ys, t)
    ensures s == t
  {
    ImagesOfPermutation(c => EvaluateCandidate(request, c), xs, ys, Evaluations(request, xs), Evaluations(request, ys));
    forall a, b | a in s.evaluations && b in s.evaluations && a.identity == b.identity
      ensures a == b
    {
      DistinctEvaluations(request, xs, s.evaluations, a, b);
    }
    SortedIsUnique(s.evaluations, t.evaluations);
    SelectionIgnoresOrder(request, xs, ys, s, t);
  }
}
