/**
 The retry loop of context/validation.py. A rejected candidate is compressed again with a token
 count meant to select the next lower level; whether the loop ends depends on whether the
 token count can express that level at all.
 */
module FallbackLadder {
  import opened Common
  import opened Compression
  import opened ContextValidation

  // ---------------------------------------------------------------------
  // Retry requests
  // ---------------------------------------------------------------------

  /** _fallback_level. */
  function NextLevel(level: Level): Option<Level> {
    match level case C3 => Some(C2) case C2 => Some(C1) case _ => None
  }

  /** The middle of the pressure interval of a retry level. */
  function Middle(p: Policy, level: Level): real {
    if level == C2 then (p.c2 + p.c3) / 2.0 else (p.c1 + p.c2) / 2.0
  }

  function RetryTokens(p: Policy, limit: nat, level: Level): int {
    var tokens := (limit as real * Middle(p, level)).Floor;
    if tokens < 1 then 1 else tokens
  }

  /** _request_for_level. */
  function RetryRequest(r: Request, level: Level, used: nat): Request {
    var tokens := RetryTokens(r.policy, r.limit, level);
    r.(activeTokens := tokens, used := used)
  }

  /** The level a retry is actually compressed at. */
  function RetryLevel(p: Policy, limit: nat, level: Level): Level
    requires limit >= 1
  {
    LevelFor(p, Pressure(RetryTokens(p, limit, level), limit))
  }

  lemma PressureIs(tokens: nat, limit: nat, c: real)
    requires limit >= 1
    ensures Pressure(tokens, limit) < c <==> tokens as real < c * limit as real
    ensures Pressure(tokens, limit) <= c <==> tokens as real <= c * limit as real
  {
    var p, l := Pressure(tokens, limit), limit as real;
    assert p * l == tokens as real;
    if p < c {
      assert (c - p) * l > 0.0;
    } else {
      assert (p - c) * l >= 0.0;
    }
    if p <= c {
      assert (c - p) * l >= 0.0;
    } else {
      assert (p - c) * l > 0.0;
    }
  }

  /** A threshold in tokens. */
  function Bound(c: real, limit: nat): real {
    c * limit as real
  }

  function LevelAt(b1: real, b2: real, b3: real, tokens: nat): Level {
    if tokens as real < b1 then C0 else if tokens as real < b2 then C1 else if tokens as real <= b3 then C2 else C3
  }

  /** The whole token count, at least one, at or below the middle of two bounds. */
  function WholeMiddle(low: real, high: real): (tokens: int)
    ensures tokens >= 1
  {
    var tokens := ((low + high) / 2.0).Floor;
    if tokens < 1 then 1 else tokens
  }

  /** The retry level by bounds in tokens instead of quotients. */
  lemma RetryByTokens(p: Policy, limit: nat, level: Level)
    requires limit >= 1 && ValidPolicy(p)
    ensures var b1, b2, b3 := Bound(p.c1, limit), Bound(p.c2, limit), Bound(p.c3, limit);
            && 0.0 < b1 < b2 < b3
            && RetryLevel(p, limit, level) ==
               LevelAt(b1, b2, b3, if level == C2 then WholeMiddle(b2, b3) else WholeMiddle(b1, b2))
  {
    hide Bound; hide Pressure; hide RetryTokens; hide WholeMiddle; hide LevelFor; hide LevelAt;
    BoundsOrdered(p, limit);
    TokensAre(p, limit, level);
    LevelIs(p, RetryTokens(p, limit, level), limit);
  }

  lemma TokensAre(p: Policy, limit: nat, level: Level)
    ensures RetryTokens(p, limit, level) >= 1
    ensures RetryTokens(p, limit, level) ==
            (if level == C2 then WholeMiddle(Bound(p.c2, limit), Bound(p.c3, limit))
              else WholeMiddle(Bound(p.c1, limit), Bound(p.c2, limit)))
  {
    hide Bound; hide Middle;
    MiddleIs(p, limit, level);
  }

  lemma BoundsOrdered(p: Policy, limit: nat)
    requires limit >= 1 && ValidPolicy(p)
    ensures 0.0 < Bound(p.c1, limit) < Bound(p.c2, limit) < Bound(p.c3, limit)
  {
    var l := limit as real;
    assert p.c1 * l > 0.0 && (p.c2 - p.c1) * l > 0.0 && (p.c3 - p.c2) * l > 0.0;
  }

  lemma MiddleIs(p: Policy, limit: nat, level: Level)
    ensures limit as real * Middle(p, level) ==
            (if level == C2 then (Bound(p.c2, limit) + Bound(p.c3, limit)) / 2.0
              else (Bound(p.c1, limit) + Bound(p.c2, limit)) / 2.0)
  {
  }

  lemma LevelIs(p: Policy, tokens: nat, limit: nat)
    requires limit >= 1
    ensures LevelFor(p, Pressure(tokens, limit)) ==
      LevelAt(Bound(p.c1, limit), Bound(p.c2, limit), Bound(p.c3, limit), tokens)
  {
    hide Pressure;
    PressureIs(tokens, limit, p.c1);
    PressureIs(tokens, limit, p.c2);
    PressureIs(tokens, limit, p.c3);
  }

  /** A positive whole token count between two bounds. */
  predicate Fits(k: nat, low: real, high: real) {
    1 <= k && low <= k as real <= high
  }

  ghost predicate CountBetween(low: real, high: real) {
    exists k: nat :: Fits(k, low, high)
  }

  lemma WholeBetween(low: real, high: real)
    ensures CountBetween(low, high) <==> high >= 1.0 && low <= high.Floor as real
  {
    if high >= 1.0 && low <= high.Floor as real {
      assert Fits(high.Floor, low, high);
    }
    forall k: nat | Fits(k, low, high) ensures high >= 1.0 && low <= high.Floor as real {
      assert k <= high.Floor;
    }
  }

  /** Token counts are whole: the C2 retry runs at C2 exactly when a positive whole count lies
      between the C2 bound and the middle, or the middle is below one token and one token is in
      the C2 range. */
  lemma ExactC2Iff(p: Policy, limit: nat)
    requires limit >= 1 && ValidPolicy(p)
    ensures var b2, b3 := Bound(p.c2, limit), Bound(p.c3, limit);
            RetryLevel(p, limit, C2) == C2 <==> CountBetween(b2, (b2 + b3) / 2.0) || (b2 + b3 < 2.0 && b2 <= 1.0 <= b3)
  {
    hide CountBetween; hide Bound; hide RetryLevel;
    var b2, b3 := Bound(p.c2, limit), Bound(p.c3, limit);
    RetryByTokens(p, limit, C2);
    WholeBetween(b2, (b2 + b3) / 2.0);
  }

  /** The C1 retry runs at C1 exactly when a positive whole count lies between the C1 bound and
      the middle, or the middle is below one token and one token is in the C1 range. */
  lemma ExactC1Iff(p: Policy, limit: nat)
    requires limit >= 1 && ValidPolicy(p)
    ensures var b1, b2 := Bound(p.c1, limit), Bound(p.c2, limit);
            RetryLevel(p, limit, C1) == C1 <==> CountBetween(b1, (b1 + b2) / 2.0) || (b1 + b2 < 2.0 && b1 <= 1.0 < b2)
  {
    hide CountBetween; hide Bound; hide RetryLevel;
    var b1, b2 := Bound(p.c1, limit), Bound(p.c2, limit);
    RetryByTokens(p, limit, C1);
    WholeBetween(b1, (b1 + b2) / 2.0);
  }

  /** Ranges two tokens wide are wide enough for both retries. */
  lemma WideRangesAreExact(p: Policy, limit: nat)
    requires limit >= 1 && ValidPolicy(p)
    requires limit as real * (p.c3 - p.c2) >= 2.0 && limit as real * (p.c2 - p.c1) >= 2.0
    ensures RetryLevel(p, limit, C2) == C2 && RetryLevel(p, limit, C1) == C1
  {
    Widths(p, limit);
    hide Bound; hide RetryLevel;
    RetryByTokens(p, limit, C2);
    RetryByTokens(p, limit, C1);
  }

  lemma Widths(p: Policy, limit: nat)
    ensures limit as real * (p.c3 - p.c2) == Bound(p.c3, limit) - Bound(p.c2, limit)
    ensures limit as real * (p.c2 - p.c1) == Bound(p.c2, limit) - Bound(p.c1, limit)
  {
  }

  function Rank(level: Level): nat {
    match level case C0 => 0 case C1 => 1 case C2 => 2 case C3 => 3
  }

  /** More than one token fits below the C2 bound. */
  predicate RoomBelowC2(p: Policy, limit: nat) {
    Bound(p.c2, limit) > 1.0
  }

  /** When more than one token fits below the C2 bound, every retry lands strictly lower. */
  lemma RetryDescends(p: Policy, limit: nat, level: Level)
    requires limit >= 1 && ValidPolicy(p) && RoomBelowC2(p, limit) && NextLevel(level).Some?
    ensures Rank(RetryLevel(p, limit, NextLevel(level).value)) < Rank(level)
  {
    hide Bound; hide RetryLevel;
    RetryByTokens(p, limit, NextLevel(level).value);
  }

  /** Otherwise no retry leaves the semantic levels. */
  lemma RetryStuck(p: Policy, limit: nat, level: Level)
    requires limit >= 1 && ValidPolicy(p) && !RoomBelowC2(p, limit) && NextLevel(level).Some?
    ensures Rank(RetryLevel(p, limit, NextLevel(level).value)) >= 2
  {
    hide Bound; hide RetryLevel;
    RetryByTokens(p, limit, NextLevel(level).value);
  }

  // ---------------------------------------------------------------------
  // The ladder
  // ---------------------------------------------------------------------

  datatype Failure = BindingMismatch | SourceCoverage | Exhausted | Failed(code: Code)

  datatype Validated = Validated(result: Compressed, reports: seq<Report>, fallbacks: seq<Level>)

  datatype Ladder =
    | Running(candidate: Compressed, reports: seq<Report>, fallbacks: seq<Level>)
    | Stopped(outcome: Result<Validated, Failure>)

  /** _validate_binding. */
  ghost function CheckBinding(r: Request, c: Compressed): Option<Failure> {
    if c.taskId != r.taskId || c.scope != r.scope || c.rawEvents != r.events then Some(BindingMismatch)
    else if Sources(c.items) != multiset(Ids(r.events)) then Some(SourceCoverage)
    else None
  }

  /** One turn of the loop. */
  ghost function Advance(v: ValidationRequest, adapter: Option<Adapter>, l: Ladder): Ladder
    requires v.request.limit >= 1
  {
    if l.Stopped? then l
    else
      var report := ReportOf(v, l.candidate);
      if report.accepted then Stopped(Ok(Validated(l.candidate.(ready := true), l.reports + [report], l.fallbacks)))
      else match NextLevel(l.candidate.level)
        case None => Stopped(Err(Exhausted))
        case Some(next) =>
          var retry := RetryRequest(v.request, next, l.candidate.used);
          match CompressionOf(retry, adapter)
          case Err(code) => Stopped(Err(Failed(code)))
          case Ok(c) =>
            if CheckBinding(retry, c).Some? then Stopped(Err(CheckBinding(retry, c).value))
            else Running(c, l.reports + [report], l.fallbacks + [next])
  }

  /** The loop after `n` turns. */
  ghost function After(v: ValidationRequest, adapter: Option<Adapter>, n: nat): Ladder
    requires v.request.limit >= 1
  {
    if n == 0 then
      if CheckBinding(v.request, v.candidate).Some? then Stopped(Err(CheckBinding(v.request, v.candidate).value))
      else Running(v.candidate, [], [])
    else Advance(v, adapter, After(v, adapter, n - 1))
  }

  /** A retry keeps the events, so its own output is never refused by the binding check. */
  lemma RetryBinds(r: Request, next: Level, used: nat, adapter: Option<Adapter>)
    requires r.limit >= 1
    ensures var retry := RetryRequest(r, next, used);
            CompressionOf(retry, adapter).Ok? ==>
              && CheckBinding(retry, CompressionOf(retry, adapter).value).None?
              && CompressionOf(retry, adapter).value.level == RetryLevel(r.policy, r.limit, next)
              && CheckBinding(r, CompressionOf(retry, adapter).value).None?
  {
    hide CompressionOf; hide Sources; hide Ids;
    var retry := RetryRequest(r, next, used);
    if CompressionOf(retry, adapter).Ok? {
      CompressionConserves(retry, adapter, CompressionOf(retry, adapter).value);
    }
  }

  /** What the contract of validation requests accepts. */
  predicate WellFormed(v: ValidationRequest) {
    && ValidRequest(v.request) && ValidResult(v.candidate) && ValidRetention(v.policy)
    && 0.0 <= v.baseline <= 100.0
    && (forall level :: level in v.scores ==> 0.0 <= v.scores[level] <= 100.0)
  }

  /** With more than one token below the C2 bound each turn stops or lowers the level. */
  lemma AdvanceDescends(v: ValidationRequest, adapter: Option<Adapter>, l: Ladder)
    requires v.request.limit >= 1 && ValidPolicy(v.request.policy) && RoomBelowC2(v.request.policy, v.request.limit)
    requires l.Running?
    ensures var l' := Advance(v, adapter, l);
            l'.Running? ==> Rank(l'.candidate.level) < Rank(l.candidate.level) && |l'.fallbacks| == |l.fallbacks| + 1
  {
    hide CompressionOf; hide ReportOf; hide Sources; hide RetryRequest; hide RetryLevel;
    if NextLevel(l.candidate.level).Some? {
      RetryBinds(v.request, NextLevel(l.candidate.level).value, l.candidate.used, adapter);
      RetryDescends(v.request.policy, v.request.limit, l.candidate.level);
    }
  }

  lemma {:induction false} LevelsDescend(v: ValidationRequest, adapter: Option<Adapter>, n: nat)
    requires v.request.limit >= 1 && ValidPolicy(v.request.policy) && RoomBelowC2(v.request.policy, v.request.limit)
    ensures After(v, adapter, n).Running? ==>
              Rank(After(v, adapter, n).candidate.level) + n <= 3 && |After(v, adapter, n).fallbacks| == n
  {
    hide Advance;
    if n > 0 {
      LevelsDescend(v, adapter, n - 1);
      var l := After(v, adapter, n - 1);
      if l.Running? {
        AdvanceDescends(v, adapter, l);
      } else {
        StoppedStays(v, adapter, l);
      }
    }
  }

  lemma StoppedStays(v: ValidationRequest, adapter: Option<Adapter>, l: Ladder)
    requires v.request.limit >= 1 && l.Stopped?
    ensures Advance(v, adapter, l) == l
  {
  }

  lemma LowStops(v: ValidationRequest, adapter: Option<Adapter>, l: Ladder)
    requires v.request.limit >= 1 && (l.Running? ==> Rank(l.candidate.level) <= 1)
    ensures Advance(v, adapter, l).Stopped?
  {
  }

  /** Then the loop ends within three turns, so with at most two retries. */
  lemma LadderStops(v: ValidationRequest, adapter: Option<Adapter>)
    requires v.request.limit >= 1 && ValidPolicy(v.request.policy) && RoomBelowC2(v.request.policy, v.request.limit)
    ensures After(v, adapter, 3).Stopped?
  {
    hide Advance;
    LevelsDescend(v, adapter, 2);
    LowStops(v, adapter, After(v, adapter, 2));
  }

  // ---------------------------------------------------------------------
  // Without room below C2 the loop can run forever
  // ---------------------------------------------------------------------

  /** Requests the semantic levels cannot shorten and nobody scored: everything is protected. */
  ghost predicate Unscored(v: ValidationRequest, adapter: Option<Adapter>) {
    && WellFormed(v) && InScope(v.request) && adapter.Some?
    && (forall i :: 0 <= i < |v.request.events| ==> v.request.events[i].protected)
    && CheckedCheckpoint(v.request).Ok?
    && C2 !in v.scores && C3 !in v.scores
  }

  lemma {:induction false} NothingEligible(r: Request, level: Level, events: seq<Event>)
    requires forall i :: 0 <= i < |events| ==> events[i].protected
    ensures Eligible(r, level, events) == []
  {
    if events != [] {
      NothingEligible(r, level, events[..|events| - 1]);
    }
  }

  /** Such a request is answered at its own level without using up a semantic compression. */
  lemma ProtectedCompression(r: Request, adapter: Option<Adapter>)
    requires r.limit >= 1 && InScope(r) && adapter.Some? && CheckedCheckpoint(r).Ok? && r.used < r.policy.maxSemantic
    requires Rank(SelectLevel(r)) >= 2 && forall i :: 0 <= i < |r.events| ==> r.events[i].protected
    ensures CompressionOf(r, adapter).Ok?
    ensures CompressionOf(r, adapter).value.level == SelectLevel(r) && CompressionOf(r, adapter).value.used == r.used
  {
    NothingEligible(r, SelectLevel(r), r.events);
  }

  ghost predicate Spinning(v: ValidationRequest, l: Ladder) {
    l.Running? && Rank(l.candidate.level) >= 2 && l.candidate.used < v.request.policy.maxSemantic
  }

  lemma AdvanceSpins(v: ValidationRequest, adapter: Option<Adapter>, l: Ladder)
    requires Unscored(v, adapter) && !RoomBelowC2(v.request.policy, v.request.limit) && Spinning(v, l)
    ensures Spinning(v, Advance(v, adapter, l))
  {
    hide CompressionOf; hide Sources; hide Ids; hide RoomBelowC2; hide Scan; hide Atoms; hide Recovered; hide Supply;
    var next := NextLevel(l.candidate.level).value;
    var retry := RetryRequest(v.request, next, l.candidate.used);
    RetryStuck(v.request.policy, v.request.limit, l.candidate.level);
    ProtectedCompression(retry, adapter);
    RetryBinds(v.request, next, l.candidate.used, adapter);
  }

  lemma {:induction false} LadderSpins(v: ValidationRequest, adapter: Option<Adapter>, n: nat)
    requires Unscored(v, adapter) && !RoomBelowC2(v.request.policy, v.request.limit)
    requires CheckBinding(v.request, v.candidate).None? && Rank(v.candidate.level) >= 2
    requires v.candidate.used < v.request.policy.maxSemantic
    ensures Spinning(v, After(v, adapter, n))
  {
    hide Advance; hide RoomBelowC2;
    if n > 0 {
      LadderSpins(v, adapter, n - 1);
      AdvanceSpins(v, adapter, After(v, adapter, n - 1));
    }
  }

  /** Every accepted validation request with this policy and limit ends. */
  ghost predicate AlwaysEnds(p: Policy, limit: nat)
    requires limit >= 1
  {
    forall v: ValidationRequest, adapter: Option<Adapter> ::
      WellFormed(v) && v.request.policy == p && v.request.limit == limit ==> Ends(v, adapter)
  }

  ghost predicate Ends(v: ValidationRequest, adapter: Option<Adapter>)
    requires v.request.limit >= 1
  {
    exists n: nat :: After(v, adapter, n).Stopped?
  }

  /** One protected event, one token of context, nobody scored it. */
  function Witness(p: Policy, limit: nat): ValidationRequest {
    var scope := Scope(0, 0, 0, ["ANALYST"], "1");
    var event := Event("e", 0, scope, SystemInstruction, Object([]), 1, true, None);
    var request := Request(0, scope, [event], 1, limit, 0, Some(Checkpoint(0, 0, scope, scope)), p);
    var candidate := Compressed(0, scope, C2, [event], [RawItem([event])], 1, 1, 0, None, false);
    ValidationRequest(request, candidate, RetentionPolicy(1.0, 0.0), 100.0, map[])
  }

  lemma WitnessSpins(p: Policy, limit: nat, adapter: Adapter)
    requires 1 <= limit <= MAX_CONTEXT && ValidPolicy(p) && !RoomBelowC2(p, limit)
    ensures WellFormed(Witness(p, limit)) && !Ends(Witness(p, limit), Some(adapter))
  {
    hide After; hide RoomBelowC2;
    var v := Witness(p, limit);
    var items := v.candidate.items;
    assert Sources(items) == multiset(Ids(v.request.events)) by {
      assert items[..0] == [];
      assert Sources(items) == Sources([]) + multiset(items[0].sources);
    }
    forall n: nat ensures After(v, Some(adapter), n).Running? {
      LadderSpins(v, Some(adapter), n);
    }
  }

  /** The loop ends for every request exactly when more than one token fits below the C2 bound. */
  lemma LadderEndsIff(p: Policy, limit: nat)
    requires 1 <= limit <= MAX_CONTEXT && ValidPolicy(p)
    ensures AlwaysEnds(p, limit) <==> RoomBelowC2(p, limit)
  {
    hide After; hide RoomBelowC2; hide Witness; hide Ends;
    if RoomBelowC2(p, limit) {
      forall v: ValidationRequest, adapter: Option<Adapter> | WellFormed(v) && v.request.policy == p
        && v.request.limit == limit
        ensures Ends(v, adapter)
      {
        EndsWithin(v, adapter);
      }
    } else {
      WitnessSpins(p, limit, (request: SemanticRequest) => None);
      WitnessFields(p, limit);
    }
  }

  lemma EndsWithin(v: ValidationRequest, adapter: Option<Adapter>)
    requires WellFormed(v) && RoomBelowC2(v.request.policy, v.request.limit)
    ensures Ends(v, adapter)
  {
    hide After;
    LadderStops(v, adapter);
  }

  lemma WitnessFields(p: Policy, limit: nat)
    ensures Witness(p, limit).request.policy == p && Witness(p, limit).request.limit == limit
  {
  }

  // ---------------------------------------------------------------------
  // The loop itself
  // ---------------------------------------------------------------------

  /** One turn of the loop: evaluate, then accept, give up, or compress again one level lower. */
  method Turn(v: ValidationRequest, adapter: Option<Adapter>, candidate: Compressed, reports: seq<Report>,
        fallbacks: seq<Level>)
    returns (l: Ladder)
    requires v.request.limit >= 1
    ensures l == Advance(v, adapter, Running(candidate, reports, fallbacks))
  {
    hide CompressionOf; hide ReportOf;
    var report := Evaluate(v, candidate);
    var reports' := reports + [report];
    if report.accepted {
      return Stopped(Ok(Validated(candidate.(ready := true), reports', fallbacks)));
    }
    var next := NextLevel(candidate.level);
    if next.None? {
      return Stopped(Err(Exhausted));
    }
    var retry := RetryRequest(v.request, next.value, candidate.used);
    var compressed := Compress(retry, adapter);
    if compressed.Err? {
      return Stopped(Err(Failed(compressed.error)));
    }
    var refusal := Refusal(retry, compressed.value);
    if refusal.Some? {
      return Stopped(Err(refusal.value));
    }
    return Running(compressed.value, reports', fallbacks + [next.value]);
  }

  /** What happens before the loop. */
  method Start(v: ValidationRequest, ghost adapter: Option<Adapter>) returns (l: Ladder)
    requires v.request.limit >= 1
    ensures l == After(v, adapter, 0)
  {
    var refusal := Refusal(v.request, v.candidate);
    return if refusal.Some? then Stopped(Err(refusal.value)) else Running(v.candidate, [], []);
  }

  /** The first `turns` turns of validate_or_fallback, for every policy and limit. */
  method RunTurns(v: ValidationRequest, adapter: Option<Adapter>, turns: nat) returns (l: Ladder)
    requires v.request.limit >= 1
    ensures l == After(v, adapter, turns)
  {
    hide Advance;
    l := Start(v, adapter);
    var n := 0;
    while n < turns && l.Running?
      invariant 0 <= n <= turns && l == After(v, adapter, n)
    {
      l := Turn(v, adapter, l.candidate, l.reports, l.fallbacks);
      n := n + 1;
    }
    if n < turns {
      StoppedFor(v, adapter, n, turns);
    }
  }

  /** validate_or_fallback, for the policies and limits on which it always ends. */
  method ValidateOrFallback(v: ValidationRequest, adapter: Option<Adapter>)
    returns (outcome: Result<Validated, Failure>)
    requires v.request.limit >= 1 && ValidPolicy(v.request.policy) && RoomBelowC2(v.request.policy, v.request.limit)
    ensures After(v, adapter, 3) == Stopped(outcome)
  {
    hide RoomBelowC2; hide Advance;
    LadderStops(v, adapter);
    var l := Start(v, adapter);
    ghost var n := 0;
    while l.Running?
      invariant l == After(v, adapter, n)
      decreases if l.Running? then Rank(l.candidate.level) + 1 else 0
    {
      AdvanceDescends(v, adapter, l);
      l := Turn(v, adapter, l.candidate, l.reports, l.fallbacks);
      n := n + 1;
    }
    EarlyStop(v, adapter, n);
    outcome := l.outcome;
  }

  /** The binding check by counting, as the source does it. */
  method Refusal(r: Request, c: Compressed) returns (refusal: Option<Failure>)
    ensures refusal == CheckBinding(r, c)
  {
    if c.taskId != r.taskId || c.scope != r.scope || c.rawEvents != r.events {
      return Some(BindingMismatch);
    }
    var sources: multiset<string> := multiset{};
    var i := 0;
    while i < |c.items|
      invariant 0 <= i <= |c.items| && sources == Sources(c.items[..i])
    {
      assert c.items[..i + 1][..i] == c.items[..i];
      sources := sources + multiset(c.items[i].sources);
      i := i + 1;
    }
    assert c.items[..i] == c.items;
    return if sources != multiset(Ids(r.events)) then Some(SourceCoverage) else None;
  }

  lemma {:induction false} StoppedFor(v: ValidationRequest, adapter: Option<Adapter>, n: nat, m: nat)
    requires v.request.limit >= 1 && After(v, adapter, n).Stopped? && n <= m
    ensures After(v, adapter, m) == After(v, adapter, n)
    decreases m
  {
    hide Advance;
    if n < m {
      StoppedFor(v, adapter, n, m - 1);
      StoppedStays(v, adapter, After(v, adapter, n));
    }
  }

  lemma EarlyStop(v: ValidationRequest, adapter: Option<Adapter>, n: nat)
    requires v.request.limit >= 1 && After(v, adapter, n).Stopped? && After(v, adapter, 3).Stopped?
    ensures After(v, adapter, 3) == After(v, adapter, n)
  {
    if n <= 3 {
      StoppedFor(v, adapter, n, 3);
    } else {
      StoppedFor(v, adapter, 3, n);
    }
  }

  // ---------------------------------------------------------------------
  // What the loop promises
  // ---------------------------------------------------------------------

  /** Ranges two tokens wide: every retry runs at exactly the level it was meant for, there are
      at most two of them, and the loop ends. */
  lemma {:induction false} RetriesAreExact(v: ValidationRequest, adapter: Option<Adapter>, n: nat)
    requires v.request.limit >= 1 && ValidPolicy(v.request.policy)
    requires var p, l := v.request.policy, v.request.limit as real; l * (p.c3 - p.c2) >= 2.0 && l * (p.c2 - p.c1) >= 2.0
    ensures After(v, adapter, 3).Stopped?
    ensures var l := After(v, adapter, n);
            l.Running? ==> |l.fallbacks| == n <= 2 && (n > 0 ==> l.candidate.level == l.fallbacks[n - 1])
  {
    hide Advance; hide ValidPolicy;
    WideMeansRoom(v.request.policy, v.request.limit);
    LadderStops(v, adapter);
    LevelsDescend(v, adapter, n);
    if After(v, adapter, n).Running? && n > 0 {
      AdvanceExact(v, adapter, After(v, adapter, n - 1));
      RunningBefore(v, adapter, n);
      if n >= 3 {
        StoppedFor(v, adapter, 3, n);
        assert false;
      }
    }
  }

  lemma RunningBefore(v: ValidationRequest, adapter: Option<Adapter>, n: nat)
    requires v.request.limit >= 1 && n > 0 && After(v, adapter, n).Running?
    ensures After(v, adapter, n - 1).Running?
  {
  }

  lemma WideMeansRoom(p: Policy, limit: nat)
    requires limit >= 1 && ValidPolicy(p) && limit as real * (p.c2 - p.c1) >= 2.0
    ensures RoomBelowC2(p, limit)
  {
    Widths(p, limit);
    BoundsOrdered(p, limit);
  }

  lemma AdvanceExact(v: ValidationRequest, adapter: Option<Adapter>, l: Ladder)
    requires v.request.limit >= 1 && ValidPolicy(v.request.policy)
    requires var p, l := v.request.policy, v.request.limit as real; l * (p.c3 - p.c2) >= 2.0 && l * (p.c2 - p.c1) >= 2.0
    ensures var l' := Advance(v, adapter, l);
            l.Running? && l'.Running? ==>
              l'.fallbacks != [] && l'.candidate.level == l'.fallbacks[|l'.fallbacks| - 1]
                && NextLevel(l.candidate.level) == Some(l'.candidate.level)
  {
    hide CompressionOf; hide ReportOf; hide Sources; hide RetryRequest; hide RetryLevel; hide ValidPolicy;
    WideRangesAreExact(v.request.policy, v.request.limit);
    if l.Running? && NextLevel(l.candidate.level).Some? {
      RetryBinds(v.request, NextLevel(l.candidate.level).value, l.candidate.used, adapter);
    }
  }

  /** The candidate is the compressor's answer for these events, at some pressure. */
  ghost predicate Genuine(v: ValidationRequest, adapter: Option<Adapter>, c: Compressed) {
    exists r: Request :: r.limit >= 1 && r.events == v.request.events && CompressionOf(r, adapter) == Ok(c)
  }

  lemma AdvanceSafe(v: ValidationRequest, adapter: Option<Adapter>, l: Ladder)
    requires WellFormed(v) && DistinctContents(v.request.events) && l != Stopped(Err(Exhausted))
    requires l.Running? ==> Genuine(v, adapter, l.candidate)
    ensures var l' := Advance(v, adapter, l);
            l' != Stopped(Err(Exhausted)) && (l'.Running? ==> Genuine(v, adapter, l'.candidate))
  {
    hide CompressionOf; hide ReportOf; hide Sources; hide ValidPolicy; hide DistinctContents; hide Ids; hide UniqueIds;
    if l.Running? {
      var r: Request :| r.limit >= 1 && r.events == v.request.events && CompressionOf(r, adapter) == Ok(l.candidate);
      if Rank(l.candidate.level) <= 1 {
        LosslessAccepted(v, r, adapter, l.candidate);
      } else {
        var next := NextLevel(l.candidate.level).value;
        var retry := RetryRequest(v.request, next, l.candidate.used);
        assert retry.limit >= 1 && retry.events == v.request.events;
        RetryBinds(v.request, next, l.candidate.used, adapter);
      }
    }
  }

  /** If unprotected contents are pairwise distinct, a genuine candidate never exhausts the
      ladder: some rung is accepted unless a compression itself is refused. */
  lemma {:induction false} NeverExhausted(v: ValidationRequest, adapter: Option<Adapter>, n: nat)
    requires WellFormed(v) && DistinctContents(v.request.events) && Genuine(v, adapter, v.candidate)
    ensures After(v, adapter, n) != Stopped(Err(Exhausted))
    ensures After(v, adapter, n).Running? ==> Genuine(v, adapter, After(v, adapter, n).candidate)
  {
    hide Advance; hide Genuine; hide DistinctContents; hide Sources; hide Ids;
    if n > 0 {
      NeverExhausted(v, adapter, n - 1);
      AdvanceSafe(v, adapter, After(v, adapter, n - 1));
    }
  }
}
