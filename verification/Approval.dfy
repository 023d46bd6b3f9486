/**
 The approval service of approval/service.py over its journal: the status of a checkpoint is a
 fold over the events of its chain, and every call appends at most one event.
 */
module Approval {
  import opened Common
  import opened HashChain
  import opened ApprovalJournal

  // ---------------------------------------------------------------------
  // Policy and status
  // ---------------------------------------------------------------------

  datatype Rule = Rule(required: set<string>, requireAll: bool, delegation: bool, validity: nat)

  datatype Policy = Policy(version: string, rules: Kind -> Rule)

  datatype State = Pending | Approved | Rejected | ChangesRequested | Expired | Cancelled

  datatype Status = Status(
    candidate: Candidate, state: State, decisions: seq<Decision>, delegations: seq<Delegation>, grant: Option<Grant>)

  datatype Code =
    | NotFound | PolicyIncompatible | IdConflict | ScopeMismatch | PayloadInvalid | Stale | Terminal | WindowElapsed
    | DelegationDenied | DelegationInvalid | SelfApproval | DuplicateActor | RoleDenied | NotExpired | CancelDenied
    | Replayed | NotApproved | OutcomeInvalid

  function PayloadsOf(chain: seq<Link<Record>>): seq<Payload> {
    seq(|chain|, i requires 0 <= i < |chain| => chain[i].record.payload)
  }

  function Decisions(log: seq<Payload>): seq<Decision> {
    if log == [] then []
    else
      var before, last := Decisions(log[..|log| - 1]), log[|log| - 1];
      if last.DecisionEvent? then before + [last.decision] else before
  }

  function Delegations(log: seq<Payload>): seq<Delegation> {
    if log == [] then []
    else
      var before, last := Delegations(log[..|log| - 1]), log[|log| - 1];
      if last.DelegationEvent? then before + [last.delegation] else before
  }

  function Grants(log: seq<Payload>): seq<Grant> {
    if log == [] then []
    else
      var before, last := Grants(log[..|log| - 1]), log[|log| - 1];
      if last.ResumeEvent? then before + [last.grant] else before
  }

  /** The state a decision ends the checkpoint in, unless it approves. */
  function Ending(outcome: Outcome): Option<State> {
    match outcome
    case Approves => None
    case Rejects => Some(Rejected)
    case RequestsChanges => Some(ChangesRequested)
    case Expires => Some(Expired)
    case Cancels => Some(Cancelled)
  }

  /** The first decision that ends the checkpoint, if any. */
  function FirstEnding(decisions: seq<Decision>): Option<State> {
    if decisions == [] then None
    else
      var before := FirstEnding(decisions[..|decisions| - 1]);
      if before.Some? then before else Ending(decisions[|decisions| - 1].outcome)
  }

  function ApprovedRoles(decisions: seq<Decision>): set<string> {
    set i | 0 <= i < |decisions| && decisions[i].outcome == Approves :: decisions[i].role
  }

  /** _state. */
  function StateOf(rule: Rule, decisions: seq<Decision>): State {
    if FirstEnding(decisions).Some? then FirstEnding(decisions).value
    else
      var roles := ApprovedRoles(decisions);
      var complete := if rule.requireAll then rule.required <= roles else rule.required * roles != {};
      if complete then Approved else Pending
  }

  function StatusOf(policy: Policy, log: seq<Payload>): Result<Status, Code> {
    if log == [] || !log[0].CandidateEvent? then Err(NotFound)
    else if log[0].candidate.policyVersion != policy.version then Err(PolicyIncompatible)
    else
      var c, grants := log[0].candidate, Grants(log);
      Ok(Status(c, StateOf(policy.rules(c.kind), Decisions(log)), Decisions(log), Delegations(log),
                if grants == [] then None else Some(grants[|grants| - 1])))
  }

  function LogAt(j: Approvals, key: Key): seq<Payload> {
    PayloadsOf(ChainAt(j, key))
  }

  /** InMemoryApprovalRepository.get. */
  function Existing(j: Approvals, scope: Scope, id: Uuid): Result<Option<Payload>, Code> {
    if id !in j.byId then Ok(None)
    else if !SameProject(j.byId[id].record.scope, scope) then Err(ScopeMismatch)
    else Ok(Some(j.byId[id].record.payload))
  }

  datatype Actor = Actor(scope: Scope)

  function Roles(a: Actor): set<string> {
    set role | role in a.scope.roles
  }

  // ---------------------------------------------------------------------
  // Checks
  // ---------------------------------------------------------------------

  /** _require_pending_current. */
  function PendingCheck(s: Status, hash: Hash, now: int, checkExpiry: bool): Option<Code> {
    if hash != s.candidate.hash then Some(Stale)
    else if s.state != Pending then Some(Terminal)
    else if checkExpiry && now >= s.candidate.expiresAt then Some(WindowElapsed)
    else None
  }

  /** _require_actor_scope. */
  predicate ActorInScope(c: Candidate, a: Actor) {
    SameProject(a.scope, c.scope) && a.scope.permissionVersion == c.scope.permissionVersion
  }

  /** A recorded delegation that gives the actor this role now. */
  predicate Covers(d: Delegation, c: Candidate, actor: Uuid, role: string, now: int) {
    d.delegate == actor && d.role == role && d.hash == c.hash && d.expiresAt > now
  }

  /** The actor holds the role itself or by a recorded delegation that is still valid. */
  predicate Entitled(s: Status, a: Actor, role: string, now: int) {
    role in Roles(a)
      || exists i :: 0 <= i < |s.delegations| && Covers(s.delegations[i], s.candidate, a.scope.user, role, now)
  }

  // ---------------------------------------------------------------------
  // Calls
  // ---------------------------------------------------------------------

  datatype Op =
    | Create(candidate: Candidate)
    | Delegate(id: Uuid, scope: Scope, approvalId: Uuid, hash: Hash, grantor: Actor, delegate: Uuid,
      delegatedRole: string, until: int)
    | Decide(id: Uuid, scope: Scope, approvalId: Uuid, hash: Hash, actor: Actor, outcome: Outcome, reason: string,
      role: string)
    | Expire(id: Uuid, scope: Scope, approvalId: Uuid, hash: Hash, reason: string)
    | Cancel(id: Uuid, scope: Scope, approvalId: Uuid, hash: Hash, actor: Actor, reason: string)
    | Resume(id: Uuid, scope: Scope, approvalId: Uuid, hash: Hash)

  datatype Reply = Done | Refused(code: Code) | Recorded(payload: Payload)

  /** One call: the event it appends, or its answer without one. */
  datatype Effect = Answer(reply: Reply) | Write(id: Uuid, payload: Payload)

  /** The same request as a stored decision. */
  predicate SameDecision(stored: Decision, d: Decision) {
    stored.approvalId == d.approvalId && stored.hash == d.hash && stored.actor == d.actor && stored.role == d.role
    && stored.outcome == d.outcome && stored.reason == d.reason
  }

  function ReplayDecision(stored: Payload, d: Decision): Effect {
    if !stored.DecisionEvent? then Answer(Refused(PayloadInvalid))
    else if SameDecision(stored.decision, d) then Answer(Recorded(stored))
    else Answer(Refused(IdConflict))
  }

  function CreateEffect(policy: Policy, j: Approvals, c: Candidate, now: int): Effect {
    var log := LogAt(j, KeyOf(c.scope, c.approvalId));
    var stamped :=
      c.(policyVersion := policy.version, createdAt := now, expiresAt := now + policy.rules(c.kind).validity);
    if log == [] then Write(c.approvalId, CandidateEvent(stamped))
    else if !log[0].CandidateEvent? then Answer(Refused(PayloadInvalid))
    else if log[0].candidate.(createdAt := 0, expiresAt := 0) == stamped.(createdAt := 0, expiresAt := 0) then
      match StatusOf(policy, log) case Ok(_) => Answer(Done) case Err(code) => Answer(Refused(code))
    else Answer(Refused(IdConflict))
  }

  function DelegateEffect(policy: Policy, j: Approvals, s: Status, op: Op, now: int): Effect
    requires op.Delegate?
  {
    var c := s.candidate;
    var d := Delegation(op.id, op.approvalId, op.hash, op.grantor.scope.user, op.delegate, op.delegatedRole, now,
      op.until);
    match Existing(j, op.scope, op.id)
    case Err(code) => Answer(Refused(code))
    case Ok(Some(stored)) =>
      if !stored.DelegationEvent? then Answer(Refused(PayloadInvalid))
      else if stored.delegation.(id := op.id, createdAt := now) == d then Answer(Recorded(stored))
      else Answer(Refused(IdConflict))
    case Ok(None) =>
      var rule := policy.rules(c.kind);
      if PendingCheck(s, op.hash, now, true).Some? then Answer(Refused(PendingCheck(s, op.hash, now, true).value))
      else if !ActorInScope(c, op.grantor) then Answer(Refused(ScopeMismatch))
      else if !rule.delegation || op.delegatedRole !in rule.required then Answer(Refused(DelegationDenied))
      else if op.delegatedRole !in Roles(op.grantor) || op.grantor.scope.user == c.scope.user
        then Answer(Refused(DelegationDenied))
      else if op.until <= now || op.until > c.expiresAt then Answer(Refused(DelegationInvalid))
      else Write(op.id, DelegationEvent(d))
  }

  function DecideEffect(policy: Policy, j: Approvals, s: Status, op: Op, now: int): Effect
    requires op.Decide?
  {
    var c, actor := s.candidate, op.actor.scope.user;
    var d := Decision(op.id, op.approvalId, op.hash, actor, op.role, op.outcome, op.reason, now);
    match Existing(j, op.scope, op.id)
    case Err(code) => Answer(Refused(code))
    case Ok(Some(stored)) => ReplayDecision(stored, d)
    case Ok(None) =>
      if PendingCheck(s, op.hash, now, true).Some? then Answer(Refused(PendingCheck(s, op.hash, now, true).value))
      else if !ActorInScope(c, op.actor) then Answer(Refused(ScopeMismatch))
      else if actor == c.scope.user then Answer(Refused(SelfApproval))
      else if exists i :: 0 <= i < |s.decisions| && s.decisions[i].actor == actor then Answer(Refused(DuplicateActor))
      else if op.role !in policy.rules(c.kind).required || !Entitled(s, op.actor, op.role, now)
        then Answer(Refused(RoleDenied))
      else Write(op.id, DecisionEvent(d))
  }

  /** _terminal_system_decision. */
  function SystemEffect(j: Approvals, s: Status, d: Decision, hash: Hash, now: int): Effect {
    match Existing(j, s.candidate.scope, d.id)
    case Err(code) => Answer(Refused(code))
    case Ok(Some(stored)) => ReplayDecision(stored, d)
    case Ok(None) =>
      if PendingCheck(s, hash, now, false).Some? then Answer(Refused(PendingCheck(s, hash, now, false).value))
      else Write(d.id, DecisionEvent(d))
  }

  function ExpireEffect(j: Approvals, s: Status, op: Op, now: int): Effect
    requires op.Expire?
  {
    if now < s.candidate.expiresAt then Answer(Refused(NotExpired))
    else SystemEffect(j, s, Decision(op.id, s.candidate.approvalId, op.hash, 0, "SYSTEM", Expires, op.reason, now),
      op.hash, now)
  }

  function CancelEffect(j: Approvals, s: Status, op: Op, now: int): Effect
    requires op.Cancel?
  {
    var c, actor := s.candidate, op.actor.scope.user;
    if !ActorInScope(c, op.actor) then Answer(Refused(ScopeMismatch))
    else if actor != c.scope.user && "PROJECT_ADMINISTRATOR" !in Roles(op.actor) then Answer(Refused(CancelDenied))
    else
      var role := if actor == c.scope.user then "REQUESTER" else "PROJECT_ADMINISTRATOR";
      SystemEffect(j, s, Decision(op.id, c.approvalId, op.hash, actor, role, Cancels, op.reason, now), op.hash, now)
  }

  function ResumeEffect(j: Approvals, s: Status, op: Op, now: int): Effect
    requires op.Resume?
  {
    match Existing(j, op.scope, op.id)
    case Err(code) => Answer(Refused(code))
    case Ok(Some(stored)) =>
      if !stored.ResumeEvent? then Answer(Refused(PayloadInvalid))
      else if stored.grant.approvalId == op.approvalId && stored.grant.hash == op.hash then Answer(Recorded(stored))
      else Answer(Refused(IdConflict))
    case Ok(None) =>
      if s.grant.Some? then Answer(Refused(Replayed))
      else if s.state != Approved then Answer(Refused(NotApproved))
      else if op.hash != s.candidate.hash then Answer(Refused(Stale))
      else Write(op.id, ResumeEvent(Grant(op.id, op.approvalId, s.candidate.scope, s.candidate.hash, now)))
  }

  function OpKey(op: Op): Key {
    if op.Create? then KeyOf(op.candidate.scope, op.candidate.approvalId) else KeyOf(op.scope, op.approvalId)
  }

  function EffectOf(policy: Policy, j: Approvals, op: Op, now: int): Effect {
    if op.Create? then CreateEffect(policy, j, op.candidate, now)
    else
      match StatusOf(policy, LogAt(j, OpKey(op)))
      case Err(code) => Answer(Refused(code))
      case Ok(s) =>
        match op
        case Delegate(_, _, _, _, _, _, _, _) => DelegateEffect(policy, j, s, op, now)
        case Decide(_, _, _, _, _, _, _, _) =>
          if Human(op.outcome) then DecideEffect(policy, j, s, op, now) else Answer(Refused(OutcomeInvalid))
        case Expire(_, _, _, _, _) => ExpireEffect(j, s, op, now)
        case Cancel(_, _, _, _, _, _) => CancelEffect(j, s, op, now)
        case Resume(_, _, _, _) => ResumeEffect(j, s, op, now)
  }

  /** What a person may decide. */
  predicate Human(outcome: Outcome) {
    outcome == Approves || outcome == Rejects || outcome == RequestsChanges
  }

  /** The scope under which a call writes: that of the stored candidate. */
  function WriteScope(j: Approvals, op: Op): Scope {
    if op.Create? then op.candidate.scope
    else
      var log := LogAt(j, OpKey(op));
      if log != [] && log[0].CandidateEvent? then log[0].candidate.scope else op.scope
  }

  function Step(policy: Policy, h: Hashing, j: Approvals, op: Op, now: int): (Approvals, Reply) {
    match EffectOf(policy, j, op, now)
    case Answer(reply) => (j, reply)
    case Write(id, payload) =>
      var (j', result) := Appended(j, h, NewRecord(h, id, OpKey(op).approvalId, WriteScope(j, op), payload, now));
      (j', if result.Ok? then Recorded(payload) else Refused(IdConflict))
  }

  // ---------------------------------------------------------------------
  // Which logs the service writes
  // ---------------------------------------------------------------------

  function Decided(decisions: seq<Decision>, actor: Uuid): bool {
    exists i :: 0 <= i < |decisions| && decisions[i].actor == actor
  }

  /** What the service checked before it let this event follow that log. */
  predicate MayFollow(policy: Policy, log: seq<Payload>, p: Payload) {
    match p
    case CandidateEvent(_) => log == []
    case DelegationEvent(d) =>
      && StatusOf(policy, log).Ok? && StatusOf(policy, log).value.state == Pending
      && d.grantor != log[0].candidate.scope.user && d.hash == log[0].candidate.hash
      && d.expiresAt <= log[0].candidate.expiresAt
      && policy.rules(log[0].candidate.kind).delegation && d.role in policy.rules(log[0].candidate.kind).required
    case DecisionEvent(d) =>
      && StatusOf(policy, log).Ok? && StatusOf(policy, log).value.state == Pending
      && (d.outcome == Approves ==>
            && d.actor != log[0].candidate.scope.user && d.role in policy.rules(log[0].candidate.kind).required
            && !Decided(Decisions(log), d.actor))
    case ResumeEvent(_) =>
      StatusOf(policy, log).Ok? && StatusOf(policy, log).value.state == Approved && Grants(log) == []
  }

  ghost predicate IsLog(policy: Policy, log: seq<Payload>) {
    forall i :: 0 <= i < |log| ==> MayFollow(policy, log[..i], log[i])
  }

  lemma LogPrefix(policy: Policy, log: seq<Payload>, n: nat)
    requires IsLog(policy, log) && n <= |log|
    ensures IsLog(policy, log[..n])
  {
    forall i | 0 <= i < n ensures MayFollow(policy, log[..n][..i], log[..n][i]) {
      assert log[..n][..i] == log[..i];
    }
  }

  lemma LogGrows(policy: Policy, log: seq<Payload>, p: Payload)
    requires IsLog(policy, log) && MayFollow(policy, log, p)
    ensures IsLog(policy, log + [p])
  {
    var all := log + [p];
    forall i | 0 <= i < |all| ensures MayFollow(policy, all[..i], all[i]) {
      assert all[..i] == if i < |log| then log[..i] else log;
    }
  }

  lemma FoldStep(log: seq<Payload>, p: Payload)
    ensures Decisions(log + [p]) == if p.DecisionEvent? then Decisions(log) + [p.decision] else Decisions(log)
    ensures Delegations(log + [p]) == if p.DelegationEvent? then Delegations(log) + [p.delegation] else Delegations(log)
    ensures Grants(log + [p]) == if p.ResumeEvent? then Grants(log) + [p.grant] else Grants(log)
  {
    assert (log + [p])[..|log|] == log;
  }

  /** Once a status has left PENDING no further event changes it. */
  lemma StatusAbsorbing(policy: Policy, log: seq<Payload>, p: Payload)
    requires MayFollow(policy, log, p) && StatusOf(policy, log).Ok? && StatusOf(policy, log).value.state != Pending
    ensures StatusOf(policy, log + [p]).Ok?
    ensures StatusOf(policy, log + [p]).value.state == StatusOf(policy, log).value.state
    ensures StatusOf(policy, log + [p]).value.decisions == StatusOf(policy, log).value.decisions
  {
    hide Decisions; hide Delegations; hide Grants; hide StateOf;
    FoldStep(log, p);
  }

  // ---------------------------------------------------------------------
  // One grant, many approvers
  // ---------------------------------------------------------------------

  /** A checkpoint is resumed at most once, and only when it is approved. */
  lemma {:induction false} OneResume(policy: Policy, log: seq<Payload>)
    requires IsLog(policy, log)
    ensures |Grants(log)| <= 1
    ensures Grants(log) != [] ==> StatusOf(policy, log).Ok? && StatusOf(policy, log).value.state == Approved
  {
    if log != [] {
      hide StatusOf; hide Decisions;
      var init, last := log[..|log| - 1], log[|log| - 1];
      assert log == init + [last];
      LogPrefix(policy, log, |log| - 1);
      OneResume(policy, init);
      assert MayFollow(policy, init, last);
      FoldStep(init, last);
      if Grants(init) != [] || last.ResumeEvent? {
        NoCandidateAgain(policy, init, last);
        StatusAbsorbing(policy, init, last);
      }
    }
  }

  lemma NoCandidateAgain(policy: Policy, log: seq<Payload>, p: Payload)
    requires MayFollow(policy, log, p) && (Grants(log) != [] || p.ResumeEvent?)
    ensures !p.CandidateEvent?
  {
  }

  function Approvers(decisions: seq<Decision>): set<Uuid> {
    set i | 0 <= i < |decisions| && decisions[i].outcome == Approves :: decisions[i].actor
  }

  /** Everybody who approved did so once, in a required role, and is not the requester. */
  ghost predicate Independent(rule: Rule, requester: Uuid, decisions: seq<Decision>) {
    forall i :: 0 <= i < |decisions| && decisions[i].outcome == Approves ==>
      && decisions[i].actor != requester && decisions[i].role in rule.required
      && forall k :: 0 <= k < i ==> decisions[k].actor != decisions[i].actor
  }

  lemma {:induction false} LogIndependent(policy: Policy, log: seq<Payload>)
    requires IsLog(policy, log) && StatusOf(policy, log).Ok?
    ensures var c := log[0].candidate;
            Independent(policy.rules(c.kind), c.scope.user, Decisions(log))
  {
    hide StateOf; hide Independent; hide Delegations; hide Grants;
    var init, last := log[..|log| - 1], log[|log| - 1];
    assert log == init + [last];
    assert MayFollow(policy, init, last);
    FoldStep(init, last);
    if init == [] {
      assert Decisions(log) == [] && Decisions([]) == [];
      NobodyDecided(policy.rules(log[0].candidate.kind), log[0].candidate.scope.user);
    } else {
      LogPrefix(policy, log, |log| - 1);
      assert init[0] == log[0];
      LogIndependent(policy, init);
      hide Decisions;
      if last.DecisionEvent? {
        DecisionKeepsIndependent(policy.rules(log[0].candidate.kind), log[0].candidate.scope.user, Decisions(init),
          last.decision);
      }
    }
  }

  lemma NobodyDecided(rule: Rule, requester: Uuid)
    ensures Independent(rule, requester, [])
  {
  }

  lemma DecisionKeepsIndependent(rule: Rule, requester: Uuid, decisions: seq<Decision>, d: Decision)
    requires Independent(rule, requester, decisions)
    requires d.outcome == Approves ==> d.actor != requester && d.role in rule.required && !Decided(decisions, d.actor)
    ensures Independent(rule, requester, decisions + [d])
  {
  }

  lemma {:induction false} RolesNeedActors(rule: Rule, requester: Uuid, decisions: seq<Decision>)
    requires Independent(rule, requester, decisions)
    ensures |ApprovedRoles(decisions)| <= |Approvers(decisions)|
    ensures requester !in Approvers(decisions) && ApprovedRoles(decisions) <= rule.required
  {
    if decisions != [] {
      var n := |decisions| - 1;
      var init, last := decisions[..n], decisions[n];
      assert decisions == init + [last];
      RolesNeedActors(rule, requester, init);
      ApproversStep(init, last);
      if last.outcome == Approves {
        assert last.actor !in Approvers(init);
      }
    }
  }

  lemma ApproversStep(init: seq<Decision>, last: Decision)
    ensures Approvers(init + [last]) == Approvers(init) + (if last.outcome == Approves then {last.actor} else {})
    ensures ApprovedRoles(init + [last]) == ApprovedRoles(init) + (if last.outcome == Approves then {last.role} else {})
  {
    var all := init + [last];
    assert all[|init|] == last && forall i :: 0 <= i < |init| ==> all[i] == init[i];
    forall a ensures a in Approvers(all) <==> a in Approvers(init) || (last.outcome == Approves && a == last.actor) {
      if a in Approvers(init) {
        var i :| 0 <= i < |init| && init[i].outcome == Approves && init[i].actor == a;
        assert all[i].outcome == Approves && all[i].actor == a;
      }
      if last.outcome == Approves && a == last.actor {
        assert all[|init|].outcome == Approves && all[|init|].actor == a;
      }
    }
    forall r
      ensures r in ApprovedRoles(all) <==> r in ApprovedRoles(init) || (last.outcome == Approves && r == last.role)
    {
      if r in ApprovedRoles(init) {
        var i :| 0 <= i < |init| && init[i].outcome == Approves && init[i].role == r;
        assert all[i].outcome == Approves && all[i].role == r;
      }
      if last.outcome == Approves && r == last.role {
        assert all[|init|].outcome == Approves && all[|init|].role == r;
      }
    }
  }

  /** An approved checkpoint under a require-all rule has as many different approvers as required
      roles, under any rule at least one, and the requester is never among them. */
  lemma EnoughApprovers(policy: Policy, log: seq<Payload>)
    requires IsLog(policy, log) && StatusOf(policy, log).Ok? && StatusOf(policy, log).value.state == Approved
    ensures var c := log[0].candidate;
            var rule, approvers := policy.rules(c.kind), Approvers(Decisions(log));
            && c.scope.user !in approvers
            && (rule.requireAll ==> |rule.required| <= |approvers|)
            && (!rule.requireAll ==> approvers != {})
  {
    hide Decisions; hide Delegations; hide Grants; hide IsLog; hide Independent; hide Approvers; hide StateOf;
    var c := log[0].candidate;
    LogIndependent(policy, log);
    IndependentSuffice(policy.rules(c.kind), c.scope.user, Decisions(log));
  }

  /** Independent approvals that complete a rule come from enough people. */
  lemma IndependentSuffice(rule: Rule, requester: Uuid, decisions: seq<Decision>)
    requires Independent(rule, requester, decisions) && StateOf(rule, decisions) == Approved
    ensures requester !in Approvers(decisions)
    ensures if rule.requireAll then |rule.required| <= |Approvers(decisions)| else Approvers(decisions) != {}
  {
    hide Independent; hide Approvers; hide ApprovedRoles;
    RolesNeedActors(rule, requester, decisions);
    EndsOtherwise(decisions);
    var roles := ApprovedRoles(decisions);
    if rule.requireAll {
      assert roles == rule.required;
    } else {
      SomeApprover(decisions);
    }
  }

  lemma {:induction false} EndsOtherwise(decisions: seq<Decision>)
    ensures FirstEnding(decisions) != Some(Approved) && FirstEnding(decisions) != Some(Pending)
  {
    if decisions != [] {
      EndsOtherwise(decisions[..|decisions| - 1]);
    }
  }

  lemma SomeApprover(decisions: seq<Decision>)
    ensures ApprovedRoles(decisions) != {} ==> Approvers(decisions) != {}
  {
    if ApprovedRoles(decisions) != {} {
      var r :| r in ApprovedRoles(decisions);
      var i :| 0 <= i < |decisions| && decisions[i].outcome == Approves && decisions[i].role == r;
      assert decisions[i].actor in Approvers(decisions);
    }
  }

  // ---------------------------------------------------------------------
  // Every step writes such logs
  // ---------------------------------------------------------------------

  /** The chain at a key begins with a candidate of that key. */
  ghost predicate Headed(key: Key, log: seq<Payload>) {
    log != [] ==> log[0].CandidateEvent? && KeyOf(log[0].candidate.scope, log[0].candidate.approvalId) == key
  }

  ghost predicate Inv(policy: Policy, h: Hashing, j: Approvals) {
    InOrder(j, h) && forall key :: key in j.chains ==> IsLog(policy, LogAt(j, key)) && Headed(key, LogAt(j, key))
  }

  lemma EffectAllowed(policy: Policy, j: Approvals, op: Op, now: int)
    ensures var effect := EffectOf(policy, j, op, now);
            effect.Write? ==> MayFollow(policy, LogAt(j, OpKey(op)), effect.payload)
  {
    hide LogAt; hide Decisions; hide Delegations; hide Grants; hide StateOf; hide Roles;
    GrantsSeen(policy, LogAt(j, OpKey(op)));
  }

  lemma GrantsSeen(policy: Policy, log: seq<Payload>)
    ensures StatusOf(policy, log).Ok? && StatusOf(policy, log).value.grant.None? ==> Grants(log) == []
  {
  }

  lemma AppendedLog(j: Approvals, h: Hashing, r: Record, key: Key)
    requires r.eventId !in j.byId
    ensures var j' := Appended(j, h, r).0;
            && LogAt(j', key) == (if key == PlaceOf(r) then LogAt(j, key) + [r.payload] else LogAt(j, key))
            && (key in j'.chains ==> key == PlaceOf(r) || key in j.chains)
  {
  }

  /** A call writes to its own approval. */
  lemma WritesAtKey(j: Approvals, op: Op)
    requires Headed(OpKey(op), LogAt(j, OpKey(op)))
    ensures KeyOf(WriteScope(j, op), OpKey(op).approvalId) == OpKey(op)
  {
  }

  /** Every call keeps the journal in order and every log one the checks allowed. */
  lemma StepKeepsInv(policy: Policy, h: Hashing, j: Approvals, op: Op, now: int)
    requires Inv(policy, h, j)
    ensures Inv(policy, h, Step(policy, h, j, op, now).0)
  {
    hide EffectOf; hide IsLog; hide InOrder; hide MayFollow; hide WriteScope; hide Appended;
    var effect, key := EffectOf(policy, j, op, now), OpKey(op);
    if effect.Write? {
      var r := NewRecord(h, effect.id, key.approvalId, WriteScope(j, op), effect.payload, now);
      var j' := Appended(j, h, r).0;
      EffectAllowed(policy, j, op, now);
      LogAllowed(policy, j, key);
      WritesAtKey(j, op);
      AppendedOk(j, h, r);
      if r.eventId in j.byId {
        AppendedAgain(j, h, r);
      } else {
        LogGrows(policy, LogAt(j, key), effect.payload);
        HeadedWrite(policy, j, op, now);
        forall k | k in j'.chains ensures IsLog(policy, LogAt(j', k)) && Headed(k, LogAt(j', k)) {
          AppendedLog(j, h, r, k);
        }
      }
    }
  }

  lemma AppendedAgain(j: Approvals, h: Hashing, r: Record)
    requires r.eventId in j.byId
    ensures Appended(j, h, r).0 == j
  {
  }

  lemma LogAllowed(policy: Policy, j: Approvals, key: Key)
    requires key in j.chains ==> IsLog(policy, LogAt(j, key)) && Headed(key, LogAt(j, key))
    ensures IsLog(policy, LogAt(j, key)) && Headed(key, LogAt(j, key))
  {
    if key !in j.chains {
      assert LogAt(j, key) == [];
    }
  }

  /** The first event of a log is a candidate of its own key. */
  lemma HeadedWrite(policy: Policy, j: Approvals, op: Op, now: int)
    requires EffectOf(policy, j, op, now).Write? && Headed(OpKey(op), LogAt(j, OpKey(op)))
    ensures Headed(OpKey(op), LogAt(j, OpKey(op)) + [EffectOf(policy, j, op, now).payload])
  {
    hide LogAt; hide StateOf; hide Decisions; hide Delegations; hide Grants; hide Roles;
  }

  // ---------------------------------------------------------------------
  // Runs
  // ---------------------------------------------------------------------

  /** A call at a clock value. */
  datatype Call = Call(op: Op, now: int)

  const START: Approvals := Journal(map[], map[])

  function RunFrom(policy: Policy, h: Hashing, j: Approvals, calls: seq<Call>): Approvals
    decreases |calls|
  {
    if calls == [] then j else RunFrom(policy, h, Step(policy, h, j, calls[0].op, calls[0].now).0, calls[1..])
  }

  /** What a step does to the log of one approval: nothing, or one allowed event more. */
  lemma StepExtends(policy: Policy, h: Hashing, j: Approvals, op: Op, now: int, key: Key)
    requires Inv(policy, h, j)
    ensures var j' := Step(policy, h, j, op, now).0;
            || LogAt(j', key) == LogAt(j, key)
            || (EffectOf(policy, j, op, now).Write? && key == OpKey(op)
                && LogAt(j', key) == LogAt(j, key) + [EffectOf(policy, j, op, now).payload])
  {
    hide EffectOf; hide InOrder; hide LogAt; hide WriteScope; hide Appended;
    var effect := EffectOf(policy, j, op, now);
    if effect.Write? {
      var r := NewRecord(h, effect.id, OpKey(op).approvalId, WriteScope(j, op), effect.payload, now);
      LogAllowed(policy, j, OpKey(op));
      WritesAtKey(j, op);
      if r.eventId in j.byId {
        AppendedAgain(j, h, r);
      } else {
        AppendedLog(j, h, r, key);
      }
    }
  }

  /** Over every run: logs stay allowed, and a status that has left PENDING stays what it is. */
  lemma {:induction false} RunAbsorbs(policy: Policy, h: Hashing, j: Approvals, calls: seq<Call>, key: Key)
    requires Inv(policy, h, j)
    ensures Inv(policy, h, RunFrom(policy, h, j, calls))
    ensures var before, after :=
      StatusOf(policy, LogAt(j, key)), StatusOf(policy, LogAt(RunFrom(policy, h, j, calls), key));
            before.Ok? && before.value.state != Pending ==>
              after.Ok? && after.value.state == before.value.state && after.value.decisions == before.value.decisions
    decreases |calls|
  {
    hide EffectOf; hide Inv; hide Step; hide StatusOf; hide LogAt; hide MayFollow;
    if calls != [] {
      var op, now := calls[0].op, calls[0].now;
      StepKeepsInv(policy, h, j, op, now);
      StepExtends(policy, h, j, op, now, key);
      EffectAllowed(policy, j, op, now);
      var effect := EffectOf(policy, j, op, now);
      var log := LogAt(j, key);
      if effect.Write? && key == OpKey(op) && StatusOf(policy, log).Ok?
        && StatusOf(policy, log).value.state != Pending {
        StatusAbsorbing(policy, log, effect.payload);
      }
      RunAbsorbs(policy, h, Step(policy, h, j, op, now).0, calls[1..], key);
    }
  }

  lemma StartInv(policy: Policy, h: Hashing)
    ensures Inv(policy, h, START)
  {
  }

  /** In every reachable journal: an approved checkpoint has enough independent approvers, and no
      checkpoint is resumed twice or before it is approved. */
  lemma ReachableApprovals(policy: Policy, h: Hashing, calls: seq<Call>, key: Key)
    ensures var log := LogAt(RunFrom(policy, h, START, calls), key);
            && |Grants(log)| <= 1
            && (Grants(log) != [] ==> StatusOf(policy, log).Ok? && StatusOf(policy, log).value.state == Approved)
            && (StatusOf(policy, log).Ok? && StatusOf(policy, log).value.state == Approved ==>
                  var rule, approvers := policy.rules(log[0].candidate.kind), Approvers(Decisions(log));
                  && log[0].candidate.scope.user !in approvers
                  && (if rule.requireAll then |rule.required| <= |approvers| else approvers != {}))
  {
    hide RunFrom; hide Approvers; hide Decisions; hide Grants; hide StateOf; hide Delegations;
    var j := RunFrom(policy, h, START, calls);
    StartInv(policy, h);
    RunAbsorbs(policy, h, START, calls, key);
    var log := LogAt(j, key);
    LogAllowed(policy, j, key);
    OneResume(policy, log);
    if StatusOf(policy, log).Ok? && StatusOf(policy, log).value.state == Approved {
      EnoughApprovers(policy, log);
    }
  }

  /** Every event of a run was written by one of its calls. */
  lemma {:induction false} EventWritten(policy: Policy, h: Hashing, j: Approvals, calls: seq<Call>, key: Key,
        p: Payload)
    returns (at: nat)
    requires Inv(policy, h, j) && p !in LogAt(j, key) && p in LogAt(RunFrom(policy, h, j, calls), key)
    ensures at < |calls| && OpKey(calls[at].op) == key
    ensures var effect := EffectOf(policy, RunFrom(policy, h, j, calls[..at]), calls[at].op, calls[at].now);
            effect.Write? && effect.payload == p
    decreases |calls|
  {
    hide EffectOf; hide Inv; hide Step; hide LogAt;
    var op, now := calls[0].op, calls[0].now;
    var j' := Step(policy, h, j, op, now).0;
    StepKeepsInv(policy, h, j, op, now);
    StepExtends(policy, h, j, op, now, key);
    if p in LogAt(j', key) {
      at := 0;
      assert RunFrom(policy, h, j, calls[..0]) == j;
    } else {
      var rest := EventWritten(policy, h, j', calls[1..], key, p);
      at := rest + 1;
      assert calls[..at][1..] == calls[1..][..rest];
      assert RunFrom(policy, h, j, calls[..at]) == RunFrom(policy, h, j', calls[1..][..rest]);
    }
  }

  lemma StartLog(key: Key)
    ensures LogAt(START, key) == []
  {
  }

  /** Every recorded approval was cast by somebody who, at that moment, held the role or had it
      by a recorded delegation that was still valid. */
  lemma ApproverWasEntitled(policy: Policy, h: Hashing, calls: seq<Call>, key: Key, d: Decision) returns (at: nat)
    requires d.outcome == Approves && DecisionEvent(d) in LogAt(RunFrom(policy, h, START, calls), key)
    ensures at < |calls| && calls[at].op.Decide?
    ensures var op, status := calls[at].op, StatusOf(policy, LogAt(RunFrom(policy, h, START, calls[..at]), key));
            && op.actor.scope.user == d.actor && op.role == d.role && status.Ok?
            && Entitled(status.value, op.actor, d.role, calls[at].now)
  {
    hide EffectOf; hide Inv; hide RunFrom; hide StatusOf; hide LogAt; hide Entitled;
    StartInv(policy, h);
    StartLog(key);
    at := EventWritten(policy, h, START, calls, key, DecisionEvent(d));
    ApprovalWritten(policy, RunFrom(policy, h, START, calls[..at]), calls[at].op, calls[at].now, d);
  }

  /** Every recorded delegation came from somebody who held the role directly, was not the
      requester, and delegated within the checkpoint's window under a rule that allows it. */
  lemma GrantorHeldRole(policy: Policy, h: Hashing, calls: seq<Call>, key: Key, d: Delegation) returns (at: nat)
    requires DelegationEvent(d) in LogAt(RunFrom(policy, h, START, calls), key)
    ensures at < |calls| && calls[at].op.Delegate?
    ensures var op, status := calls[at].op, StatusOf(policy, LogAt(RunFrom(policy, h, START, calls[..at]), key));
            && op.grantor.scope.user == d.grantor && d.role in Roles(op.grantor) && status.Ok?
            && d.grantor != status.value.candidate.scope.user
            && calls[at].now < d.expiresAt <= status.value.candidate.expiresAt
            && policy.rules(status.value.candidate.kind).delegation
            && d.role in policy.rules(status.value.candidate.kind).required
  {
    hide EffectOf; hide Inv; hide RunFrom; hide StatusOf; hide LogAt; hide Roles;
    StartInv(policy, h);
    StartLog(key);
    at := EventWritten(policy, h, START, calls, key, DelegationEvent(d));
    DelegationWritten(policy, RunFrom(policy, h, START, calls[..at]), calls[at].op, calls[at].now, d);
  }

  lemma DelegationWritten(policy: Policy, j: Approvals, op: Op, now: int, d: Delegation)
    requires EffectOf(policy, j, op, now).Write? && EffectOf(policy, j, op, now).payload == DelegationEvent(d)
    ensures op.Delegate? && op.grantor.scope.user == d.grantor && d.role in Roles(op.grantor)
    ensures var status := StatusOf(policy, LogAt(j, OpKey(op)));
            && status.Ok? && d.grantor != status.value.candidate.scope.user
            && now < d.expiresAt <= status.value.candidate.expiresAt
            && policy.rules(status.value.candidate.kind).delegation
            && d.role in policy.rules(status.value.candidate.kind).required
  {
    hide LogAt; hide StateOf; hide Decisions; hide Delegations; hide Grants; hide Roles;
  }

  lemma ApprovalWritten(policy: Policy, j: Approvals, op: Op, now: int, d: Decision)
    requires EffectOf(policy, j, op, now).Write? && EffectOf(policy, j, op, now).payload == DecisionEvent(d)
      && d.outcome == Approves
    ensures op.Decide? && op.actor.scope.user == d.actor && op.role == d.role
    ensures StatusOf(policy, LogAt(j, OpKey(op))).Ok?
    ensures Entitled(StatusOf(policy, LogAt(j, OpKey(op))).value, op.actor, d.role, now)
  {
    hide LogAt; hide Entitled; hide StateOf; hide Decisions; hide Delegations; hide Grants; hide Roles;
  }
}
