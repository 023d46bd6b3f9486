/**
 The approval service without the assumption that calls are atomic. It reads a status and
 appends an event in two separate sections of the journal's lock, so here a call is two steps:
 reading, which leaves an event in flight, and appending it.
 */
module ApprovalRaces {
  import opened Common
  import opened HashChain
  import opened ApprovalJournal
  import opened Approval

  /** An event whose checks passed on the log `seen` and which is still to be appended. */
  datatype InFlight = InFlight(key: Key, seen: seq<Payload>, record: Record)

  datatype Racing = Racing(journal: Approvals, pending: set<InFlight>)

  datatype Move = Read(call: Call) | Enter(event: InFlight)

  const START_RACING := Racing(START, {})

  /** What a call reads and decides to write, if anything. */
  function Prepared(policy: Policy, h: Hashing, j: Approvals, call: Call): Option<InFlight> {
    var effect, key := EffectOf(policy, j, call.op, call.now), OpKey(call.op);
    if effect.Answer? then None
    else Some(InFlight(key, LogAt(j, key),
                       NewRecord(h, effect.id, key.approvalId, WriteScope(j, call.op), effect.payload, call.now)))
  }

  function Apply(policy: Policy, h: Hashing, s: Racing, move: Move): Racing {
    match move
    case Read(call) =>
      var event := Prepared(policy, h, s.journal, call);
      if event.None? then s else s.(pending := s.pending + {event.value})
    case Enter(event) =>
      if event !in s.pending then s
      else Racing(Appended(s.journal, h, event.record).0, s.pending - {event})
  }

  function RunMoves(policy: Policy, h: Hashing, s: Racing, moves: seq<Move>): Racing
    decreases |moves|
  {
    if moves == [] then s else RunMoves(policy, h, Apply(policy, h, s, moves[0]), moves[1..])
  }

  /** The move appends a new event. */
  predicate Enters(s: Racing, move: Move) {
    move.Enter? && move.event in s.pending && move.event.record.eventId !in s.journal.byId
  }

  function LogIn(s: Racing, key: Key): seq<Payload> {
    LogAt(s.journal, key)
  }

  /** What an append can break when the log has grown since the call read it. */
  datatype Fault =
    | SecondGrant     // a RESUME event for an approval that has one
    | RepeatedActor   // an approval by somebody who has decided already

  predicate Breaks(fault: Fault, log: seq<Payload>, p: Payload) {
    match fault
    case SecondGrant => p.ResumeEvent? && Grants(log) != []
    case RepeatedActor =>
      p.DecisionEvent? && p.decision.outcome == Approves && Decided(Decisions(log), p.decision.actor)
  }

  /** No move of the run appends an event with this fault. */
  ghost predicate NoneEnters(policy: Policy, h: Hashing, s: Racing, moves: seq<Move>, fault: Fault)
    decreases |moves|
  {
    moves == [] ||
    ((Enters(s, moves[0]) ==>
        var r := moves[0].event.record;
        !Breaks(fault, LogIn(s, PlaceOf(r)), r.payload))
     && NoneEnters(policy, h, Apply(policy, h, s, moves[0]), moves[1..], fault))
  }

  /** What a log without that fault looks like. */
  ghost predicate Sound(fault: Fault, log: seq<Payload>) {
    match fault
    case SecondGrant => |Grants(log)| <= 1
    case RepeatedActor => OncePerActor(Decisions(log))
  }

  ghost predicate AllSound(fault: Fault, s: Racing) {
    forall key :: Sound(fault, LogIn(s, key))
  }

  /** Whoever approves has not decided before. */
  ghost predicate OncePerActor(decisions: seq<Decision>) {
    forall i :: 0 <= i < |decisions| && decisions[i].outcome == Approves ==>
      !Decided(decisions[..i], decisions[i].actor)
  }

  /** What a move does to the log of one approval. */
  lemma ApplyLog(policy: Policy, h: Hashing, s: Racing, move: Move, key: Key)
    ensures LogIn(Apply(policy, h, s, move), key) ==
            if Enters(s, move) && key == PlaceOf(move.event.record) then LogIn(s, key) + [move.event.record.payload]
            else LogIn(s, key)
  {
    hide Appended; hide LogAt; hide Prepared;
    if move.Enter? && move.event in s.pending {
      if move.event.record.eventId in s.journal.byId {
        AppendedAgain(s.journal, h, move.event.record);
      } else {
        AppendedLog(s.journal, h, move.event.record, key);
      }
    }
  }

  lemma SoundStep(fault: Fault, log: seq<Payload>, p: Payload)
    ensures Sound(fault, log + [p]) <==> Sound(fault, log) && !Breaks(fault, log, p)
  {
    hide Decided;
    FoldStep(log, p);
    if fault.RepeatedActor? && p.DecisionEvent? {
      hide Decisions; hide Grants;
      var before, after := Decisions(log), Decisions(log + [p]);
      assert forall i :: 0 <= i < |before| ==> after[i] == before[i] && after[..i] == before[..i];
      assert after[|before|] == p.decision && after[..|before|] == before;
    }
  }

  lemma {:induction false} SoundBefore(policy: Policy, h: Hashing, s: Racing, moves: seq<Move>, key: Key, fault: Fault)
    requires Sound(fault, LogIn(RunMoves(policy, h, s, moves), key))
    ensures Sound(fault, LogIn(s, key))
    decreases |moves|
  {
    hide Apply; hide LogIn; hide Sound;
    if moves != [] {
      SoundBefore(policy, h, Apply(policy, h, s, moves[0]), moves[1..], key, fault);
      ApplyLog(policy, h, s, moves[0], key);
      if Enters(s, moves[0]) {
        SoundStep(fault, LogIn(s, key), moves[0].event.record.payload);
      }
    }
  }

  /** However the calls interleave: all logs stay sound exactly when no event with that fault is
      appended. */
  lemma {:induction false} SoundIff(policy: Policy, h: Hashing, s: Racing, moves: seq<Move>, fault: Fault)
    requires AllSound(fault, s)
    ensures AllSound(fault, RunMoves(policy, h, s, moves)) <==> NoneEnters(policy, h, s, moves, fault)
    decreases |moves|
  {
    hide Apply; hide LogIn; hide Sound; hide Breaks;
    if moves != [] {
      var s' := Apply(policy, h, s, moves[0]);
      forall key ensures Sound(fault, LogIn(s', key)) <==>
        !(Enters(s, moves[0]) && key == PlaceOf(moves[0].event.record)
          && Breaks(fault, LogIn(s, key), moves[0].event.record.payload))
      {
        ApplyLog(policy, h, s, moves[0], key);
        if Enters(s, moves[0]) {
          SoundStep(fault, LogIn(s, key), moves[0].event.record.payload);
        }
      }
      if AllSound(fault, s') {
        assert Enters(s, moves[0]) ==> Sound(fault, LogIn(s', PlaceOf(moves[0].event.record)));
        SoundIff(policy, h, s', moves[1..], fault);
      } else {
        var key :| !Sound(fault, LogIn(s', key));
        if Sound(fault, LogIn(RunMoves(policy, h, s', moves[1..]), key)) {
          SoundBefore(policy, h, s', moves[1..], key, fault);
        }
      }
    }
  }

  lemma NothingLogged(key: Key)
    ensures LogIn(START_RACING, key) == []
  {
    StartLog(key);
  }

  // ---------------------------------------------------------------------
  // One resume
  // ---------------------------------------------------------------------

  /** Over every interleaving of calls: no approval is resumed twice exactly when no RESUME event
      is appended to a log that has one. */
  lemma OneResumeIff(policy: Policy, h: Hashing, moves: seq<Move>)
    ensures (forall key :: |Grants(LogIn(RunMoves(policy, h, START_RACING, moves), key))| <= 1) <==>
            NoneEnters(policy, h, START_RACING, moves, SecondGrant)
  {
    hide RunMoves; hide LogIn; hide Breaks;
    forall key ensures Sound(SecondGrant, LogIn(START_RACING, key)) {
      NothingLogged(key);
    }
    SoundIff(policy, h, START_RACING, moves, SecondGrant);
    var s := RunMoves(policy, h, START_RACING, moves);
    if forall key :: |Grants(LogIn(s, key))| <= 1 {
      assert AllSound(SecondGrant, s);
    }
    if AllSound(SecondGrant, s) {
      forall key ensures |Grants(LogIn(s, key))| <= 1 {
        assert Sound(SecondGrant, LogIn(s, key));
      }
    }
  }

  // ---------------------------------------------------------------------
  // Enough approvers
  // ---------------------------------------------------------------------

  /** A log begins with a candidate of its own key, stamped by this policy. */
  ghost predicate Opened(policy: Policy, key: Key, log: seq<Payload>) {
    log != [] ==>
      && log[0].CandidateEvent? && log[0].candidate.policyVersion == policy.version
      && KeyOf(log[0].candidate.scope, log[0].candidate.approvalId) == key
  }

  /** Approvals are in a required role and not by the requester. */
  ghost predicate Eligible(rule: Rule, requester: Uuid, decisions: seq<Decision>) {
    forall i :: 0 <= i < |decisions| && decisions[i].outcome == Approves ==>
      decisions[i].actor != requester && decisions[i].role in rule.required
  }

  ghost predicate LogOk(policy: Policy, key: Key, log: seq<Payload>) {
    && Opened(policy, key, log)
    && (log != [] ==> Eligible(policy.rules(log[0].candidate.kind), log[0].candidate.scope.user, Decisions(log)))
  }

  /** The log an event in flight was checked on is still the beginning of its log. */
  ghost predicate EventOk(policy: Policy, s: Racing, event: InFlight) {
    && PlaceOf(event.record) == event.key && event.seen <= LogIn(s, event.key)
    && MayFollow(policy, event.seen, event.record.payload)
    && Opened(policy, event.key, event.seen + [event.record.payload])
  }

  ghost predicate RacingOk(policy: Policy, s: Racing) {
    (forall key :: LogOk(policy, key, LogIn(s, key)))
      && (forall event :: event in s.pending ==> EventOk(policy, s, event))
  }

  lemma PreparedOk(policy: Policy, h: Hashing, s: Racing, call: Call)
    requires Opened(policy, OpKey(call.op), LogIn(s, OpKey(call.op))) && Prepared(policy, h, s.journal, call).Some?
    ensures EventOk(policy, s, Prepared(policy, h, s.journal, call).value)
  {
    hide LogAt; hide Decisions; hide Delegations; hide Grants; hide StateOf; hide Roles; hide MayFollow;
    EffectAllowed(policy, s.journal, call.op, call.now);
    WritesAtKey(s.journal, call.op);
  }

  /** An event appended to a log that goes on from what it was checked on. */
  lemma EnteredOk(policy: Policy, key: Key, seen: seq<Payload>, log: seq<Payload>, p: Payload)
    requires seen <= log && MayFollow(policy, seen, p) && Opened(policy, key, seen + [p]) && LogOk(policy, key, log)
    ensures LogOk(policy, key, log + [p])
  {
    hide StateOf; hide Delegations; hide Grants; hide Decided;
    FoldStep(log, p);
    if log == [] {
      assert seen == [] && seen + [p] == [p] && log + [p] == [p];
      assert Decisions(log) == [];
      assert (seen + [p])[0] == p;
    } else {
      assert (log + [p])[0] == log[0];
    }
    hide Decisions;
  }

  lemma MoveKeepsOk(policy: Policy, h: Hashing, s: Racing, move: Move)
    requires RacingOk(policy, s)
    ensures RacingOk(policy, Apply(policy, h, s, move))
  {
    hide Prepared; hide MayFollow; hide LogIn; hide Opened; hide LogOk;
    var s' := Apply(policy, h, s, move);
    forall key ensures LogIn(s, key) <= LogIn(s', key) && LogOk(policy, key, LogIn(s', key)) {
      ApplyLog(policy, h, s, move, key);
      if Enters(s, move) && key == PlaceOf(move.event.record) {
        EnteredOk(policy, key, move.event.seen, LogIn(s, key), move.event.record.payload);
      }
    }
    if move.Read? && Prepared(policy, h, s.journal, move.call).Some? {
      assert LogOk(policy, OpKey(move.call.op), LogIn(s, OpKey(move.call.op)));
      assert Opened(policy, OpKey(move.call.op), LogIn(s, OpKey(move.call.op))) by { OkIsOpened(policy, s, move.call); }
      PreparedOk(policy, h, s, move.call);
    }
    forall event | event in s'.pending ensures EventOk(policy, s', event) {
      assert EventOk(policy, s, event);
      assert LogIn(s, event.key) <= LogIn(s', event.key);
    }
  }

  lemma OkIsOpened(policy: Policy, s: Racing, call: Call)
    requires LogOk(policy, OpKey(call.op), LogIn(s, OpKey(call.op)))
    ensures Opened(policy, OpKey(call.op), LogIn(s, OpKey(call.op)))
  {
  }

  lemma {:induction false} RunKeepsOk(policy: Policy, h: Hashing, s: Racing, moves: seq<Move>)
    requires RacingOk(policy, s)
    ensures RacingOk(policy, RunMoves(policy, h, s, moves))
    decreases |moves|
  {
    hide Apply; hide RacingOk;
    if moves != [] {
      MoveKeepsOk(policy, h, s, moves[0]);
      RunKeepsOk(policy, h, Apply(policy, h, s, moves[0]), moves[1..]);
    }
  }

  /** In this state everybody who approved did so once, in a required role, and is not the requester. */
  ghost predicate AllIndependent(policy: Policy, s: Racing) {
    forall key :: IndependentAt(policy, LogIn(s, key))
  }

  ghost predicate IndependentAt(policy: Policy, log: seq<Payload>) {
    StatusOf(policy, log).Ok? ==>
      Independent(policy.rules(log[0].candidate.kind), log[0].candidate.scope.user, Decisions(log))
  }

  /** With eligible approvals, independence is that nobody approves after having decided. */
  lemma IndependentIff(policy: Policy, key: Key, log: seq<Payload>)
    requires LogOk(policy, key, log)
    ensures IndependentAt(policy, log) <==> Sound(RepeatedActor, log)
  {
    hide StateOf; hide Delegations; hide Grants;
    var ds := Decisions(log);
    if log != [] {
      hide Decisions;
      var rule, requester := policy.rules(log[0].candidate.kind), log[0].candidate.scope.user;
      forall i | 0 <= i < |ds|
        ensures Decided(ds[..i], ds[i].actor) <==> exists k :: 0 <= k < i && ds[k].actor == ds[i].actor
      {
        if k :| 0 <= k < i && ds[k].actor == ds[i].actor {
          assert ds[..i][k].actor == ds[i].actor;
        }
      }
    }
  }

  /** Over every interleaving of calls: approvals stay independent exactly when no approval is
      appended from somebody who has decided already. Then whatever is approved has enough
      approvers. */
  lemma ApproversIff(policy: Policy, h: Hashing, moves: seq<Move>)
    ensures AllIndependent(policy, RunMoves(policy, h, START_RACING, moves)) <==>
            NoneEnters(policy, h, START_RACING, moves, RepeatedActor)
  {
    hide RunMoves; hide LogIn; hide Breaks; hide LogOk; hide IndependentAt; hide Sound; hide EventOk;
    forall key ensures Sound(RepeatedActor, LogIn(START_RACING, key)) && LogOk(policy, key, LogIn(START_RACING, key)) {
      NothingLogged(key);
      EmptyOk(policy, key);
    }
    RunKeepsOk(policy, h, START_RACING, moves);
    SoundIff(policy, h, START_RACING, moves, RepeatedActor);
    var s := RunMoves(policy, h, START_RACING, moves);
    forall key ensures IndependentAt(policy, LogIn(s, key)) <==> Sound(RepeatedActor, LogIn(s, key)) {
      IndependentIff(policy, key, LogIn(s, key));
    }
  }

  lemma EmptyOk(policy: Policy, key: Key)
    ensures Sound(RepeatedActor, []) && LogOk(policy, key, [])
  {
  }

  lemma RacingApprovers(policy: Policy, h: Hashing, moves: seq<Move>, key: Key)
    requires NoneEnters(policy, h, START_RACING, moves, RepeatedActor)
    ensures var log := LogIn(RunMoves(policy, h, START_RACING, moves), key);
            StatusOf(policy, log).Ok? && StatusOf(policy, log).value.state == Approved ==>
              var rule, approvers := policy.rules(log[0].candidate.kind), Approvers(Decisions(log));
              && log[0].candidate.scope.user !in approvers
              && (if rule.requireAll then |rule.required| <= |approvers| else approvers != {})
  {
    hide RunMoves; hide LogIn; hide NoneEnters; hide StateOf; hide Independent; hide Approvers; hide Decisions;
    hide Delegations; hide Grants;
    ApproversIff(policy, h, moves);
    var log := LogIn(RunMoves(policy, h, START_RACING, moves), key);
    assert IndependentAt(policy, log);
    if StatusOf(policy, log).Ok? && StatusOf(policy, log).value.state == Approved {
      IndependentSuffice(policy.rules(log[0].candidate.kind), log[0].candidate.scope.user, Decisions(log));
    }
  }

  // ---------------------------------------------------------------------
  // Final states
  // ---------------------------------------------------------------------

  predicate Ends(p: Payload) {
    p.DecisionEvent? && Ending(p.decision.outcome).Some?
  }

  /** A move of the run appends a decision that ends this approval. */
  ghost predicate EndsLater(policy: Policy, h: Hashing, s: Racing, moves: seq<Move>, key: Key)
    decreases |moves|
  {
    moves != [] &&
    ((Enters(s, moves[0]) && PlaceOf(moves[0].event.record) == key && Ends(moves[0].event.record.payload))
     || EndsLater(policy, h, Apply(policy, h, s, moves[0]), moves[1..], key))
  }

  /** What any further event does to a state that has left PENDING. */
  lemma StateAfter(policy: Policy, log: seq<Payload>, p: Payload)
    requires StatusOf(policy, log).Ok? && StatusOf(policy, log).value.state != Pending
    ensures StatusOf(policy, log + [p]).Ok?
    ensures var before := StatusOf(policy, log).value.state;
            StatusOf(policy, log + [p]).value.state ==
            if before == Approved && Ends(p) then Ending(p.decision.outcome).value else before
  {
    FoldStep(log, p);
    assert (log + [p])[0] == log[0];
    var rule, ds := policy.rules(log[0].candidate.kind), Decisions(log);
    hide Decisions; hide Delegations; hide Grants;
    EndsOtherwise(ds);
    if p.DecisionEvent? {
      assert (ds + [p.decision])[..|ds|] == ds;
      ApproversStep(ds, p.decision);
    }
  }

  /** Over every interleaving: a state that has left PENDING is the state in the end as well, except
      that APPROVED ends exactly when a decision that ends it is still appended. */
  lemma {:induction false} FinalIff(policy: Policy, h: Hashing, s: Racing, moves: seq<Move>, key: Key)
    requires StatusOf(policy, LogIn(s, key)).Ok? && StatusOf(policy, LogIn(s, key)).value.state != Pending
    ensures var before, after :=
      StatusOf(policy, LogIn(s, key)), StatusOf(policy, LogIn(RunMoves(policy, h, s, moves), key));
            && after.Ok?
            && (after.value.state == before.value.state <==>
                  before.value.state != Approved || !EndsLater(policy, h, s, moves, key))
    decreases |moves|
  {
    hide Apply; hide LogIn; hide StatusOf;
    if moves != [] {
      ApplyLog(policy, h, s, moves[0], key);
      if moves[0].Enter? {
        StateAfter(policy, LogIn(s, key), moves[0].event.record.payload);
      }
      FinalIff(policy, h, Apply(policy, h, s, moves[0]), moves[1..], key);
    }
  }

  // ---------------------------------------------------------------------
  // Two calls at a time
  // ---------------------------------------------------------------------

  /** A call that reads and then appends, with nothing in between. */
  lemma OneCall(policy: Policy, h: Hashing, s: Racing, call: Call, x: InFlight, key: Key)
    requires s.pending == {} && Prepared(policy, h, s.journal, call) == Some(x)
    requires x.record.eventId !in s.journal.byId && PlaceOf(x.record) == key
    ensures var s' := RunMoves(policy, h, s, [Read(call), Enter(x)]);
            && s'.pending == {} && LogIn(s', key) == LogIn(s, key) + [x.record.payload]
            && s'.journal.byId.Keys == s.journal.byId.Keys + {x.record.eventId}
  {
    hide Prepared; hide LogAt;
    var s1 := Apply(policy, h, s, Read(call));
    assert s1.pending == {x};
    assert [Read(call), Enter(x)][1..] == [Enter(x)] && [Enter(x)][1..] == [];
    assert RunMoves(policy, h, s1, [Enter(x)]) == Apply(policy, h, s1, Enter(x));
    ApplyLog(policy, h, s1, Enter(x), key);
    assert s1.pending - {x} == {};
  }

  function Overlapping(a: Call, b: Call, x: InFlight): seq<Move> {
    [Read(a), Read(b), Enter(x)]
  }

  /** Two calls that both read before either appends: both events are appended. */
  lemma TwoCalls(policy: Policy, h: Hashing, s: Racing, a: Call, b: Call, x: InFlight, y: InFlight, key: Key)
    requires s.pending == {} && Prepared(policy, h, s.journal, a) == Some(x)
      && Prepared(policy, h, s.journal, b) == Some(y)
    requires x.record.eventId !in s.journal.byId && y.record.eventId !in s.journal.byId
    requires x.record.eventId != y.record.eventId
    requires PlaceOf(x.record) == key == PlaceOf(y.record)
    ensures LogIn(RunMoves(policy, h, s, Overlapping(a, b, x)), key) == LogIn(s, key) + [x.record.payload]
    ensures LogIn(RunMoves(policy, h, s, Overlapping(a, b, x) + [Enter(y)]), key) ==
            LogIn(s, key) + [x.record.payload] + [y.record.payload]
  {
    hide Prepared; hide LogAt; hide Apply;
    var moves := Overlapping(a, b, x);
    var s1 := Apply(policy, h, s, moves[0]);
    var s2 := Apply(policy, h, s1, moves[1]);
    var s3 := Apply(policy, h, s2, moves[2]);
    assert s2.journal == s.journal && s2.pending == {x, y} by { BothRead(policy, h, s, a, b, x, y); }
    assert s3.journal.byId.Keys == s.journal.byId.Keys + {x.record.eventId} && y in s3.pending by {
      FirstEnters(policy, h, s2, x, y);
    }
    ApplyLog(policy, h, s2, Enter(x), key);
    ApplyLog(policy, h, s3, Enter(y), key);
    assert moves[1..] == [Read(b), Enter(x)] && moves[2..] == [Enter(x)] && moves[3..] == [];
    assert RunMoves(policy, h, s2, [Enter(x)]) == s3;
    assert RunMoves(policy, h, s1, [Read(b), Enter(x)]) == RunMoves(policy, h, s2, [Read(b), Enter(x)][1..]);
    RunBoth(policy, h, s, moves, [Enter(y)]);
    assert RunMoves(policy, h, s3, [Enter(y)]) == Apply(policy, h, s3, Enter(y));
  }

  lemma BothRead(policy: Policy, h: Hashing, s: Racing, a: Call, b: Call, x: InFlight, y: InFlight)
    requires s.pending == {} && Prepared(policy, h, s.journal, a) == Some(x)
      && Prepared(policy, h, s.journal, b) == Some(y)
    ensures Apply(policy, h, Apply(policy, h, s, Read(a)), Read(b)) == Racing(s.journal, {x, y})
  {
    hide Prepared;
  }

  lemma FirstEnters(policy: Policy, h: Hashing, s: Racing, x: InFlight, y: InFlight)
    requires s.pending == {x, y} && x != y && x.record.eventId !in s.journal.byId
    ensures var s' := Apply(policy, h, s, Enter(x));
            s'.journal.byId.Keys == s.journal.byId.Keys + {x.record.eventId} && y in s'.pending
  {
  }

  lemma {:induction false} RunBoth(policy: Policy, h: Hashing, s: Racing, a: seq<Move>, b: seq<Move>)
    ensures RunMoves(policy, h, s, a + b) == RunMoves(policy, h, RunMoves(policy, h, s, a), b)
    decreases |a|
  {
    hide Apply;
    if a == [] {
      assert a + b == b;
    } else {
      assert (a + b)[0] == a[0] && (a + b)[1..] == a[1..] + b;
      RunBoth(policy, h, Apply(policy, h, s, a[0]), a[1..], b);
    }
  }

  /** A resume call that would be granted now. */
  ghost predicate Grantable(policy: Policy, s: Racing, call: Call) {
    && call.op.Resume? && call.op.id !in s.journal.byId && Opened(policy, OpKey(call.op), LogIn(s, OpKey(call.op)))
    && var status := StatusOf(policy, LogIn(s, OpKey(call.op)));
       status.Ok? && status.value.state == Approved && status.value.grant.None?
         && call.op.hash == status.value.candidate.hash
  }

  lemma GrantableReads(policy: Policy, h: Hashing, s: Racing, call: Call)
    requires Grantable(policy, s, call)
    ensures var x := Prepared(policy, h, s.journal, call);
            && x.Some? && x.value.record.payload.ResumeEvent? && x.value.record.eventId == call.op.id
            && PlaceOf(x.value.record) == OpKey(call.op)
    ensures Grants(LogIn(s, OpKey(call.op))) == []
  {
    hide LogAt; hide StateOf; hide Decisions; hide Delegations; hide Grants;
    GrantsSeen(policy, LogIn(s, OpKey(call.op)));
    WritesAtKey(s.journal, call.op);
  }

  /** For every approved checkpoint that is not yet resumed: two resume calls that both read
      before either appends are both granted, and the log ends with two RESUME events. */
  lemma RacingResumesBothGranted(policy: Policy, h: Hashing, s: Racing, a: Call, b: Call)
    requires s.pending == {} && Grantable(policy, s, a) && Grantable(policy, s, b)
    requires OpKey(a.op) == OpKey(b.op) && a.op.id != b.op.id
    ensures Prepared(policy, h, s.journal, a).Some? && Prepared(policy, h, s.journal, b).Some?
    ensures var x, y := Prepared(policy, h, s.journal, a).value, Prepared(policy, h, s.journal, b).value;
            |Grants(LogIn(RunMoves(policy, h, s, Overlapping(a, b, x) + [Enter(y)]), OpKey(a.op)))| == 2
  {
    hide Prepared; hide LogIn; hide Grants; hide RunMoves; hide Overlapping; hide Opened; hide StatusOf;
    GrantableReads(policy, h, s, a);
    GrantableReads(policy, h, s, b);
    var x, y, key := Prepared(policy, h, s.journal, a).value, Prepared(policy, h, s.journal, b).value, OpKey(a.op);
    TwoCalls(policy, h, s, a, b, x, y, key);
    FoldStep(LogIn(s, key), x.record.payload);
    FoldStep(LogIn(s, key) + [x.record.payload], y.record.payload);
  }

  // ---------------------------------------------------------------------
  // Runs from the beginning
  // ---------------------------------------------------------------------

  const REQUESTER := Scope(1, 1, 5, ["REQUESTER"], "1")
  const OWNER := Actor(Scope(1, 1, 6, ["SECURITY_OWNER", "QUALITY_OWNER"], "1"))
  const REQUEST := Candidate(1, REQUESTER, 0, Plan, "target", "hash", "", 0, 0)
  const ONE_ROLE := Rule({"QUALITY_OWNER"}, false, false, 86_400)
  const BOTH_ROLES := Rule({"SECURITY_OWNER", "QUALITY_OWNER"}, true, false, 86_400)
  const PLACE := KeyOf(REQUESTER, 1)

  function Under(rule: Rule): Policy {
    Policy("approval-policy-1", (kind: Kind) => rule)
  }

  function Stamped(rule: Rule): Candidate {
    REQUEST.(policyVersion := "approval-policy-1", createdAt := 0, expiresAt := rule.validity)
  }

  function Vote(id: Uuid, outcome: Outcome, role: string): Call {
    Call(Decide(id, REQUESTER, 1, "hash", OWNER, outcome, "", role), 1)
  }

  function Voted(id: Uuid, outcome: Outcome, role: string): Payload {
    DecisionEvent(Decision(id, 1, "hash", 6, role, outcome, "", 1))
  }

  /** The checkpoint is requested and nothing else happened. */
  ghost predicate Requested(rule: Rule, s: Racing) {
    s.pending == {} && s.journal.byId.Keys == {1} && LogIn(s, PLACE) == [CandidateEvent(Stamped(rule))]
  }

  function Requesting(h: Hashing, rule: Rule): seq<Move> {
    [Read(Call(Create(REQUEST), 0)),
     Enter(InFlight(PLACE, [], NewRecord(h, 1, 1, REQUESTER, CandidateEvent(Stamped(rule)), 0)))]
  }

  lemma RequestRuns(h: Hashing, rule: Rule)
    ensures Requested(rule, RunMoves(Under(rule), h, START_RACING, Requesting(h, rule)))
  {
    hide RunMoves;
    StartLog(PLACE);
    var call, x := Call(Create(REQUEST), 0), Requesting(h, rule)[1].event;
    assert Prepared(Under(rule), h, START, call) == Some(x);
    OneCall(Under(rule), h, START_RACING, call, x, PLACE);
  }

  lemma StatusAtFirst(rule: Rule)
    requires rule.required != {}
    ensures StatusOf(Under(rule), [CandidateEvent(Stamped(rule))]) == Ok(Status(Stamped(rule), Pending, [], [], None))
  {
    FoldStep([], CandidateEvent(Stamped(rule)));
    assert [] + [CandidateEvent(Stamped(rule))] == [CandidateEvent(Stamped(rule))];
    assert ApprovedRoles([]) == {};
  }

  /** The first decision is let through whoever else is deciding. */
  lemma VoteReads(h: Hashing, rule: Rule, s: Racing, id: Uuid, outcome: Outcome, role: string)
    requires Requested(rule, s) && id != 1 && Human(outcome) && rule.validity > 1
    requires role in rule.required && role in Roles(OWNER)
    ensures Prepared(Under(rule), h, s.journal, Vote(id, outcome, role)) ==
            Some(InFlight(PLACE, [CandidateEvent(Stamped(rule))],
                          NewRecord(h, id, 1, REQUESTER, Voted(id, outcome, role), 1)))
  {
    hide StatusOf; hide LogAt; hide Roles;
    StatusAtFirst(rule);
  }

  lemma OwnerRoles()
    ensures "SECURITY_OWNER" in Roles(OWNER) && "QUALITY_OWNER" in Roles(OWNER)
  {
  }

  /** Two decisions at a time: the logs after one and after both. */
  lemma TwoVotes(h: Hashing, rule: Rule, s: Racing, a: Outcome, b: Outcome, role: string, role': string)
    requires Requested(rule, s) && Human(a) && Human(b) && rule.validity > 1
    requires role in rule.required && role in Roles(OWNER) && role' in rule.required && role' in Roles(OWNER)
    ensures exists moves, last ::
      var first, p, q := CandidateEvent(Stamped(rule)), Voted(2, a, role), Voted(3, b, role');
      && LogIn(RunMoves(Under(rule), h, s, moves), PLACE) == [first, p]
      && LogIn(RunMoves(Under(rule), h, s, moves + [last]), PLACE) == [first, p, q]
  {
    hide Prepared; hide LogIn; hide RunMoves; hide Roles; hide Overlapping;
    VoteReads(h, rule, s, 2, a, role);
    VoteReads(h, rule, s, 3, b, role');
    var policy, calls, calls' := Under(rule), Vote(2, a, role), Vote(3, b, role');
    var x, y := Prepared(policy, h, s.journal, calls).value, Prepared(policy, h, s.journal, calls').value;
    TwoCalls(policy, h, s, calls, calls', x, y, PLACE);
    var moves := Overlapping(calls, calls', x);
    assert LogIn(RunMoves(policy, h, s, moves), PLACE) == [CandidateEvent(Stamped(rule)), Voted(2, a, role)];
    assert LogIn(RunMoves(policy, h, s, moves + [Enter(y)]), PLACE) ==
      [CandidateEvent(Stamped(rule)), Voted(2, a, role), Voted(3, b, role')];
  }

  function StateIn(policy: Policy, s: Racing): Option<State> {
    match StatusOf(policy, LogIn(s, PLACE)) case Ok(status) => Some(status.state) case Err(_) => None
  }

  lemma VotesAre(rule: Rule, p: Payload, q: Payload)
    requires p.DecisionEvent? && q.DecisionEvent?
    ensures var first := CandidateEvent(Stamped(rule));
            && Decisions([first, p]) == [p.decision] && Decisions([first, p, q]) == [p.decision, q.decision]
            && Grants([first, p]) == []
  {
    var first := CandidateEvent(Stamped(rule));
    FoldStep([], first);
    FoldStep([first], p);
    FoldStep([first, p], q);
    assert [] + [first] == [first] && [first] + [p] == [first, p] && [first, p] + [q] == [first, p, q];
  }

  lemma StateOfVotes(rule: Rule, d: Decision, e: Decision)
    requires d.outcome == Approves
    ensures !rule.requireAll && d.role in rule.required ==> StateOf(rule, [d]) == Approved
    ensures e.outcome == Approves && rule.requireAll && rule.required <= {d.role, e.role} ==>
      StateOf(rule, [d, e]) == Approved
    ensures e.outcome == Approves && d.actor == e.actor ==> Approvers([d, e]) == {d.actor}
  {
    hide Approvers;
    ApproversStep([], d);
    ApproversStep([d], e);
    assert [] + [d] == [d] && [d] + [e] == [d, e] && [d, e][..1] == [d] && [d][..0] == [];
    assert ApprovedRoles([]) == {} && ApprovedRoles([d]) == {d.role};
    assert Approvers([]) == {} by { NoApprovers(); }
    assert FirstEnding([]) == None && FirstEnding([d]) == None;
    assert d.role in rule.required ==> d.role in rule.required * {d.role};
  }

  lemma NoApprovers()
    ensures Approvers([]) == {}
  {
  }

  /** The state of an approval can change after it was APPROVED: a run from the beginning in
      which an approval and a rejection overlap. */
  lemma ApprovedThenRejected(h: Hashing)
    ensures exists moves, last ::
      && StateIn(Under(ONE_ROLE), RunMoves(Under(ONE_ROLE), h, START_RACING, moves)) == Some(Approved)
      && StateIn(Under(ONE_ROLE), RunMoves(Under(ONE_ROLE), h, START_RACING, moves + [last])) == Some(Rejected)
  {
    hide RunMoves; hide LogIn; hide Requested; hide StateOf; hide Decisions; hide Delegations; hide Grants;
    var policy, opening := Under(ONE_ROLE), Requesting(h, ONE_ROLE);
    var s := RunMoves(policy, h, START_RACING, opening);
    RequestRuns(h, ONE_ROLE);
    OwnerRoles();
    var p, q := Voted(2, Approves, "QUALITY_OWNER"), Voted(3, Rejects, "QUALITY_OWNER");
    var first := CandidateEvent(Stamped(ONE_ROLE));
    TwoVotes(h, ONE_ROLE, s, Approves, Rejects, "QUALITY_OWNER", "QUALITY_OWNER");
    var moves, last :| LogIn(RunMoves(policy, h, s, moves), PLACE) == [first, p]
      && LogIn(RunMoves(policy, h, s, moves + [last]), PLACE) == [first, p, q];
    VotesAre(ONE_ROLE, p, q);
    StateOfVotes(ONE_ROLE, p.decision, q.decision);
    assert [first, p] + [q] == [first, p, q];
    StateAfter(policy, [first, p], q);
    RunBoth(policy, h, START_RACING, opening, moves);
    RunBoth(policy, h, START_RACING, opening, moves + [last]);
    assert (opening + moves) + [last] == opening + (moves + [last]);
    assert StateIn(policy, RunMoves(policy, h, START_RACING, opening + moves)) == Some(Approved);
  }

  /** A rule that asks for two roles can be met by one person: a run from the beginning in which
      both approvals of that person overlap. */
  lemma OneActorApproves(h: Hashing)
    ensures |BOTH_ROLES.required| == 2
    ensures exists moves ::
      var s := RunMoves(Under(BOTH_ROLES), h, START_RACING, moves);
      StateIn(Under(BOTH_ROLES), s) == Some(Approved) && Approvers(Decisions(LogIn(s, PLACE))) == {6}
  {
    hide RunMoves; hide LogIn; hide Requested; hide StateOf; hide Decisions; hide Delegations; hide Grants;
    hide Approvers;
    var policy, opening := Under(BOTH_ROLES), Requesting(h, BOTH_ROLES);
    var s := RunMoves(policy, h, START_RACING, opening);
    RequestRuns(h, BOTH_ROLES);
    OwnerRoles();
    var p, q := Voted(2, Approves, "QUALITY_OWNER"), Voted(3, Approves, "SECURITY_OWNER");
    var first := CandidateEvent(Stamped(BOTH_ROLES));
    TwoVotes(h, BOTH_ROLES, s, Approves, Approves, "QUALITY_OWNER", "SECURITY_OWNER");
    var moves, last :| LogIn(RunMoves(policy, h, s, moves), PLACE) == [first, p]
      && LogIn(RunMoves(policy, h, s, moves + [last]), PLACE) == [first, p, q];
    VotesAre(BOTH_ROLES, p, q);
    StateOfVotes(BOTH_ROLES, p.decision, q.decision);
    RunBoth(policy, h, START_RACING, opening, moves + [last]);
    var all := RunMoves(policy, h, START_RACING, opening + (moves + [last]));
    assert StateIn(policy, all) == Some(Approved) && Approvers(Decisions(LogIn(all, PLACE))) == {6};
  }

  /** And an approval can be resumed twice: a run from the beginning. */
  lemma ResumedTwice(h: Hashing)
    ensures exists moves :: |Grants(LogIn(RunMoves(Under(ONE_ROLE), h, START_RACING, moves), PLACE))| == 2
  {
    hide RunMoves; hide LogIn; hide StateOf; hide Decisions; hide Delegations; hide Grants; hide Prepared;
    var policy, opening := Under(ONE_ROLE), Requesting(h, ONE_ROLE);
    var s := RunMoves(policy, h, START_RACING, opening);
    RequestRuns(h, ONE_ROLE);
    OwnerRoles();
    var vote, p := Vote(2, Approves, "QUALITY_OWNER"), Voted(2, Approves, "QUALITY_OWNER");
    VoteReads(h, ONE_ROLE, s, 2, Approves, "QUALITY_OWNER");
    var x := Prepared(policy, h, s.journal, vote).value;
    OneCall(policy, h, s, vote, x, PLACE);
    var s' := RunMoves(policy, h, s, [Read(vote), Enter(x)]);
    var first := CandidateEvent(Stamped(ONE_ROLE));
    assert LogIn(s', PLACE) == [first, p];
    VotesAre(ONE_ROLE, p, p);
    StateOfVotes(ONE_ROLE, p.decision, p.decision);
    var a, b := Call(Resume(3, REQUESTER, 1, "hash"), 2), Call(Resume(4, REQUESTER, 1, "hash"), 2);
    RacingResumesBothGranted(policy, h, s', a, b);
    var y, z := Prepared(policy, h, s'.journal, a).value, Prepared(policy, h, s'.journal, b).value;
    RunBoth(policy, h, START_RACING, opening, [Read(vote), Enter(x)]);
    RunBoth(policy, h, START_RACING, opening + [Read(vote), Enter(x)], Overlapping(a, b, y) + [Enter(z)]);
  }
}
