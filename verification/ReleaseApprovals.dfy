/**
 Releases and the approval journal together: a checkpoint of the release service counts as
 approved only when the journal's status says so for exactly that content.
 */
module ReleaseApprovals {
  import opened Common
  import HashChain
  import Journal = ApprovalJournal
  import Approval
  import opened Release
  import opened ReleaseService
  import opened ReleaseRuns

  /** How the hash of an approval candidate is computed from what it is bound to. */
  type ContentHash = Digest -> HashChain.Hash

  /** The policy of the approval service and the hashes of its journal. */
  datatype Setting = Setting(policy: Approval.Policy, hashing: Journal.Hashing, content: ContentHash)

  datatype Joint = Joint(service: State, journal: Journal.Approvals)

  datatype JointOp = Service(op: Op) | Approvals(call: Approval.Call)

  const JOINT_START := Joint(ReleaseRuns.START, Approval.START)

  function KeyFor(key: ProjectRef): Journal.Key {
    Journal.Key(key.tenant, key.project, key.approvalId)
  }

  /** The journal's status of this approval is APPROVED, for this scope and this content. */
  predicate Backs(x: Setting, j: Journal.Approvals, key: ProjectRef, c: Checkpoint) {
    var status := Approval.StatusOf(x.policy, Approval.LogAt(j, KeyFor(key)));
    status.Ok? && status.value.state == Approval.Approved
    && status.value.candidate.scope == c.scope && status.value.candidate.hash == x.content(c.digest)
  }

  /** A checkpoint turns approved only on the word of the journal. */
  predicate Enabled(x: Setting, s: Joint, op: JointOp) {
    op.Service? && op.op.Approve? && op.op.key in s.service.approvals.checkpoints ==>
      Backs(x, s.journal, op.op.key, s.service.approvals.checkpoints[op.op.key])
  }

  function JointStep(x: Setting, s: Joint, op: JointOp): Joint {
    match op
    case Service(o) => s.(service := Step(s.service, o).0)
    case Approvals(call) => s.(journal := Approval.Step(x.policy, x.hashing, s.journal, call.op, call.now).0)
  }

  function RunJoint(x: Setting, s: Joint, ops: seq<JointOp>): Joint
    decreases |ops|
  {
    if ops == [] then s else RunJoint(x, JointStep(x, s, ops[0]), ops[1..])
  }

  predicate ProperRun(x: Setting, s: Joint, ops: seq<JointOp>)
    decreases |ops|
  {
    ops == [] ||
    (Enabled(x, s, ops[0]) && (ops[0].Service? ==> FreshOp(s.service, ops[0].op))
      && ProperRun(x, JointStep(x, s, ops[0]), ops[1..]))
  }

  ghost predicate AllBacked(x: Setting, s: Joint) {
    forall key :: key in s.service.approvals.checkpoints && s.service.approvals.checkpoints[key].approved ==>
      Backs(x, s.journal, key, s.service.approvals.checkpoints[key])
  }

  ghost predicate JointInv(x: Setting, s: Joint) {
    ServiceInv(s.service) && Approval.Inv(x.policy, x.hashing, s.journal) && AllBacked(x, s)
  }

  /** No call of the service but an approval turns a checkpoint approved, and none rebinds one. */
  lemma CheckpointsStay(s: State, op: Op, key: ProjectRef)
    requires var s' := Step(s, op).0; key in s'.approvals.checkpoints && s'.approvals.checkpoints[key].approved
    ensures key in s.approvals.checkpoints
    ensures var c, c' := s.approvals.checkpoints[key], Step(s, op).0.approvals.checkpoints[key];
            c'.scope == c.scope && c'.digest == c.digest && (c.approved || op == Approve(key))
  {
    hide Passes; hide CommitIntent; hide Restored; hide NewPublication; hide Create; hide ValidateCandidate;
    hide RecordReview;
  }

  /** What the journal once approved it goes on approving. */
  lemma BackedStays(x: Setting, j: Journal.Approvals, call: Approval.Call, key: ProjectRef, c: Checkpoint)
    requires Approval.Inv(x.policy, x.hashing, j) && Backs(x, j, key, c)
    ensures Backs(x, Approval.Step(x.policy, x.hashing, j, call.op, call.now).0, key, c)
  {
    hide Approval.Inv; hide Approval.Step; hide Approval.EffectOf; hide Approval.LogAt; hide Approval.MayFollow;
    hide Approval.StateOf; hide Approval.Decisions; hide Approval.Delegations; hide Approval.Grants;
    var k := KeyFor(key);
    var log := Approval.LogAt(j, k);
    Approval.StepExtends(x.policy, x.hashing, j, call.op, call.now, k);
    Approval.EffectAllowed(x.policy, j, call.op, call.now);
    var effect := Approval.EffectOf(x.policy, j, call.op, call.now);
    if effect.Write? && k == Approval.OpKey(call.op) {
      Approval.StatusAbsorbing(x.policy, log, effect.payload);
      assert (log + [effect.payload])[0] == log[0];
    }
  }

  lemma JointStepKeepsInv(x: Setting, s: Joint, op: JointOp)
    requires JointInv(x, s) && Enabled(x, s, op) && (op.Service? ==> FreshOp(s.service, op.op))
    ensures JointInv(x, JointStep(x, s, op))
  {
    hide ServiceInv; hide Approval.Inv; hide Step; hide Approval.Step; hide Backs; hide FreshOp;
    match op
    case Service(o) =>
      ReleaseService.StepKeepsInv(s.service, o);
      forall key | key in Step(s.service, o).0.approvals.checkpoints
        && Step(s.service, o).0.approvals.checkpoints[key].approved
        ensures Backs(x, s.journal, key, Step(s.service, o).0.approvals.checkpoints[key])
      {
        CheckpointsStay(s.service, o, key);
        SameBacking(x, s.journal, key, s.service.approvals.checkpoints[key],
          Step(s.service, o).0.approvals.checkpoints[key]);
      }
    case Approvals(call) =>
      Approval.StepKeepsInv(x.policy, x.hashing, s.journal, call.op, call.now);
      forall key | key in s.service.approvals.checkpoints && s.service.approvals.checkpoints[key].approved
        ensures Backs(x, Approval.Step(x.policy, x.hashing, s.journal, call.op, call.now).0, key,
          s.service.approvals.checkpoints[key])
      {
        BackedStays(x, s.journal, call, key, s.service.approvals.checkpoints[key]);
      }
  }

  lemma SameBacking(x: Setting, j: Journal.Approvals, key: ProjectRef, c: Checkpoint, c': Checkpoint)
    requires c'.scope == c.scope && c'.digest == c.digest
    ensures Backs(x, j, key, c) == Backs(x, j, key, c')
  {
  }

  lemma {:induction false} RunJointKeepsInv(x: Setting, s: Joint, ops: seq<JointOp>)
    requires JointInv(x, s) && ProperRun(x, s, ops)
    ensures JointInv(x, RunJoint(x, s, ops))
    decreases |ops|
  {
    hide JointInv; hide JointStep; hide Enabled; hide FreshOp;
    if ops != [] {
      JointStepKeepsInv(x, s, ops[0]);
      RunJointKeepsInv(x, JointStep(x, s, ops[0]), ops[1..]);
    }
  }

  /** Different contents have different hashes. */
  ghost predicate Distinguishes(content: ContentHash) {
    forall a, b :: content(a) == content(b) ==> a == b
  }

  /** The journal holds an approved checkpoint for this content and no other, with enough
      independent approvers. */
  ghost predicate ApprovedBy(x: Setting, j: Journal.Approvals, key: ProjectRef, digest: Digest) {
    var log := Approval.LogAt(j, KeyFor(key));
    var status := Approval.StatusOf(x.policy, log);
    && status.Ok? && status.value.state == Approval.Approved
    && (forall other :: x.content(other) == status.value.candidate.hash <==> other == digest)
    && var rule := x.policy.rules(status.value.candidate.kind);
       var approvers := Approval.Approvers(status.value.decisions);
       && status.value.candidate.scope.user !in approvers
       && (if rule.requireAll then |rule.required| <= |approvers| else approvers != {})
  }

  lemma GrantedApproved(x: Setting, s: Joint, grant: Uuid, digest: Digest)
    requires JointInv(x, s) && Granted(s.service.approvals, grant, digest) && Distinguishes(x.content)
    ensures ApprovedBy(x, s.journal, s.service.approvals.resumes[grant].key, digest)
  {
    hide ServiceInv; hide Approval.LogAt; hide Approval.Decisions; hide Approval.Delegations; hide Approval.Grants;
    hide Approval.StateOf;
    hide Approval.IsLog; hide Approval.Headed; hide Journal.InOrder; hide Approval.Approvers;
    var key := s.service.approvals.resumes[grant].key;
    var log := Approval.LogAt(s.journal, KeyFor(key));
    assert Backs(x, s.journal, key, s.service.approvals.checkpoints[key]);
    Approval.LogAllowed(x.policy, s.journal, KeyFor(key));
    Approval.EnoughApprovers(x.policy, log);
  }

  /** Behind every publication of a joint run stands an approval in the journal, for exactly that
      candidate or for the rollback that made it, with enough independent approvers. */
  lemma PublishedWithApprovers(x: Setting, ops: seq<JointOp>, ref: Ref)
    requires ProperRun(x, JOINT_START, ops) && ref in RunJoint(x, JOINT_START, ops).service.repo.publications
    requires Distinguishes(x.content)
    ensures var s := RunJoint(x, JOINT_START, ops);
            var p := s.service.repo.publications[ref];
            && p.grant in s.service.approvals.resumes
            && var key := s.service.approvals.resumes[p.grant].key;
               if p.restoredFrom.None? then ApprovedBy(x, s.journal, key, OfCandidate(p.body))
               else exists action: ActionBody ::
                 IsRollbackOf(action, p) && ApprovedBy(x, s.journal, key, OfAction(action))
  {
    hide RunJoint; hide ProperRun; hide Inv; hide RecordsOk; hide IntentsOk; hide Approval.Inv; hide AllBacked;
    hide ApprovedBy; hide Distinguishes; hide IsRollbackOf; hide ResumesOk;
    StartJoint(x);
    RunJointKeepsInv(x, JOINT_START, ops);
    var s := RunJoint(x, JOINT_START, ops);
    var p := s.service.repo.publications[ref];
    assert Authorised(s.service.approvals, p);
    if p.restoredFrom.None? {
      GrantedApproved(x, s, p.grant, OfCandidate(p.body));
    } else {
      var action: ActionBody :| IsRollbackOf(action, p) && Granted(s.service.approvals, p.grant, OfAction(action));
      GrantedApproved(x, s, p.grant, OfAction(action));
    }
  }

  lemma StartJoint(x: Setting)
    ensures JointInv(x, JOINT_START)
  {
    hide ServiceInv; hide Approval.Inv;
    ReleaseRuns.StartInv();
    Approval.StartInv(x.policy, x.hashing);
  }
}
