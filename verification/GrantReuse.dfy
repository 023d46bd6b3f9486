/**
 How often an approval grant is used: a grant can end up behind two publications, and exactly
 when it does.
 */
module GrantReuse {
  import opened Common
  import opened KnowledgeIndex
  import opened Release
  import opened ReleaseService
  import opened ReleaseRuns
  import opened ReleaseForks

  /** No two publications carry the same grant. */
  ghost predicate UsedOnce(r: Repository) {
    forall a, b :: a in r.publications && b in r.publications && r.publications[a].grant == r.publications[b].grant ==>
      a == b
  }

  function Incoming(intent: Intent): Option<Publication> {
    match intent
    case ToPublish(_, p) => Some(p)
    case ToWithdraw(_, _) => None
    case ToRollBack(_, _, p) => Some(p)
  }

  /** The step commits a new publication whose grant a stored one carries. */
  ghost predicate Reuses(s: State, op: Op) {
    && op.Commit? && op.intent in s.intents && Incoming(op.intent).Some?
    && var p := Incoming(op.intent).value;
       && Ref(p.body.scope, p.id) !in s.repo.publications
       && Ref(p.body.scope, p.id) in Step(s, op).0.repo.publications
       && exists ref :: ref in s.repo.publications && s.repo.publications[ref].grant == p.grant
  }

  ghost predicate NoneReused(s: State, ops: seq<Op>)
    decreases |ops|
  {
    ops == [] || (!Reuses(s, ops[0]) && NoneReused(Step(s, ops[0]).0, ops[1..]))
  }

  /** A step adds at most the publication of the intent it commits, and keeps all others' grants. */
  lemma StepAdds(s: State, op: Op)
    requires ServiceInv(s) && FreshOp(s, op)
    ensures var r, r' := s.repo, Step(s, op).0.repo;
            && (forall ref :: ref in r.publications ==>
                  ref in r'.publications && r'.publications[ref].grant == r.publications[ref].grant)
            && (forall ref :: ref in r'.publications && ref !in r.publications ==>
                  && op.Commit? && op.intent in s.intents && Incoming(op.intent) == Some(r'.publications[ref])
                  && ref == Ref(r'.publications[ref].body.scope, r'.publications[ref].id))
  {
    hide Step; hide RecordsOk; hide ApprovalsOk; hide Inv; hide IntentOk; hide Recorded;
    StepKeepsInv(s, op);
    var r' := Step(s, op).0.repo;
    forall ref | ref in r'.publications ensures ref == Ref(r'.publications[ref].body.scope, r'.publications[ref].id) {
      StoredAtOwnRef(r', ref);
    }
    if op.Commit? && op.intent in s.intents {
      CommitStep(s, op);
      CommitKeepsInv(s.repo, op.intent);
    } else {
      OthersPublishNothing(s, op);
    }
  }

  lemma StoredAtOwnRef(r: Repository, ref: Ref)
    requires Inv(r) && ref in r.publications
    ensures ref == Ref(r.publications[ref].body.scope, r.publications[ref].id)
  {
    hide HeadsOk; hide IndexOk; hide LinearOk;
    assert PublicationOk(ref, r.publications[ref]);
  }

  lemma CommitStep(s: State, op: Op)
    requires op.Commit? && op.intent in s.intents
    ensures Step(s, op).0.repo == CommitIntent(s.repo, op.intent).0
  {
    hide CommitIntent;
  }

  lemma OthersPublishNothing(s: State, op: Op)
    requires !(op.Commit? && op.intent in s.intents)
    ensures Step(s, op).0.repo.publications == s.repo.publications
  {
    hide CommitIntent; hide Passes; hide Resume; hide Bound; hide Request;
  }

  lemma StepUsedOnceIff(s: State, op: Op)
    requires ServiceInv(s) && FreshOp(s, op) && UsedOnce(s.repo)
    ensures UsedOnce(Step(s, op).0.repo) <==> !Reuses(s, op)
  {
    hide Step; hide ServiceInv; hide FreshOp; hide Incoming;
    StepAdds(s, op);
    var r, r' := s.repo, Step(s, op).0.repo;
    if Reuses(s, op) {
      var p := Incoming(op.intent).value;
      var ref :| ref in r.publications && r.publications[ref].grant == p.grant;
      assert r'.publications[Ref(p.body.scope, p.id)].grant == r'.publications[ref].grant;
    }
  }

  lemma {:induction false} UsedOnceBefore(s: State, ops: seq<Op>)
    requires ServiceInv(s) && FreshRun(s, ops) && UsedOnce(RunFrom(s, ops).repo)
    ensures UsedOnce(s.repo)
  {
    hide ServiceInv; hide FreshRun; hide RunFrom;
    RunKeepsInv(s, ops);
  }

  /** Over every run with new rollback identifiers: every grant stands behind at most one
      publication exactly when no commit adds one under a grant that another carries. */
  lemma {:induction false} UsedOnceIff(s: State, ops: seq<Op>)
    requires ServiceInv(s) && FreshRun(s, ops) && UsedOnce(s.repo)
    ensures UsedOnce(RunFrom(s, ops).repo) <==> NoneReused(s, ops)
    decreases |ops|
  {
    hide ServiceInv; hide Step; hide FreshOp; hide UsedOnce; hide Reuses;
    if ops != [] {
      var s' := Step(s, ops[0]).0;
      StepKeepsInv(s, ops[0]);
      StepUsedOnceIff(s, ops[0]);
      if UsedOnce(s'.repo) {
        UsedOnceIff(s', ops[1..]);
      } else if UsedOnce(RunFrom(s', ops[1..]).repo) {
        UsedOnceBefore(s', ops[1..]);
      }
    }
  }

  // ---------------------------------------------------------------------
  // A grant used twice
  // ---------------------------------------------------------------------

  const OTHER := Ids(11, 100, 1000) // the same approval and the same resume identifier
  const RECALL := Ids(20, 101, 1001)

  function Doc(): Body {
    BodyOf(0, "1", None)
  }

  function Committing(ids: Ids): Op {
    Commit(ToPublish(Ready(Doc(), FIRST), NewPublication(Ready(Doc(), FIRST), ids.publicationId, ids.resumeId)))
  }

  function Recalling(): Action {
    Action(ActionBody(20, SCOPE, Withdraw, "corpus", 10, 10), RECALL.approvalId, None)
  }

  /** Two publishes of one candidate in flight, the first is withdrawn before the second commits. */
  function SharingOps(): seq<Op> {
    Preparing(Doc(), FIRST)
    + [Publish(SCOPE, 0, 10, 1000), Publish(SCOPE, 0, 11, 1000), Committing(FIRST)]
    + [RequestAction(SCOPE, 20, RECALL.approvalId, Withdraw, 10), Approve(CheckpointRef(SCOPE, RECALL.approvalId)),
       Withdrawing(SCOPE, 20, RECALL.resumeId), Commit(ToWithdraw(Recalling(), RECALL.resumeId))]
    + [Committing(OTHER)]
  }

  /** The state after both calls are prepared and the first is committed. */
  ghost predicate FirstCommitted(s: State) {
    && s.repo.publications == map[Ref(SCOPE, 10) := FirstPublication()] && s.repo.current == map[SLOT := 10]
    && s.repo.actions == map[] && !s.repo.failNextCommit && Committing(OTHER).intent in s.intents
    && CheckpointRef(SCOPE, RECALL.approvalId) !in s.approvals.checkpoints && RECALL.resumeId !in s.approvals.resumes
  }

  lemma BothInFlight(s: State)
    requires s == Under(With(START, Doc(), Ready(Doc(), FIRST)), CheckpointRef(SCOPE, 100),
                        Checkpoint(SCOPE, PublishVerb, 0, OfCandidate(Doc()), true, None))
    ensures var s' := Step(Step(s, Publish(SCOPE, 0, 10, 1000)).0, Publish(SCOPE, 0, 11, 1000)).0;
            && s'.repo == s.repo && s'.intents == {Committing(FIRST).intent, Committing(OTHER).intent}
            && s'.approvals.checkpoints.Keys == {CheckpointRef(SCOPE, 100)} && s'.approvals.resumes.Keys == {1000}
  {
    hide Stamp; hide BodyOf; hide NewPublication;
    BodyFields(0, "1", None);
    var s1 := Step(s, Publish(SCOPE, 0, 10, 1000)).0;
    assert s1.repo == s.repo && s1.intents == {Committing(FIRST).intent};
  }

  lemma FirstCommits(s: State, r: Repository)
    requires r == With(START, Doc(), Ready(Doc(), FIRST)).repo && s.repo == r && Committing(FIRST).intent in s.intents
    ensures var s' := Step(s, Committing(FIRST)).0;
            && s'.repo.publications == map[Ref(SCOPE, 10) := FirstPublication()] && s'.repo.current == map[SLOT := 10]
            && s'.repo.actions == map[] && !s'.repo.failNextCommit
            && s'.intents == s.intents && s'.approvals == s.approvals
  {
    hide PutAll; hide SwapBatch; hide DistinctKeys; hide Stamp; hide BodyOf;
    BodyFields(0, "1", None);
    SingleDocument(Doc(), FIRST, Current);
    SingleInstalls(r, SLOT, None, FirstPublication());
  }

  lemma BothPublish(s: State)
    requires s == Under(With(START, Doc(), Ready(Doc(), FIRST)), CheckpointRef(SCOPE, 100),
                        Checkpoint(SCOPE, PublishVerb, 0, OfCandidate(Doc()), true, None))
    ensures FirstCommitted(RunFrom(s, [Publish(SCOPE, 0, 10, 1000), Publish(SCOPE, 0, 11, 1000), Committing(FIRST)]))
  {
    hide RunFrom; hide Step; hide FirstPublication; hide Doc; hide Ready; hide Committing;
    var a, b := Publish(SCOPE, 0, 10, 1000), Publish(SCOPE, 0, 11, 1000);
    BothInFlight(s);
    FirstCommits(Step(Step(s, a).0, b).0, s.repo);
    RunOne(s, a, [b, Committing(FIRST)]);
    RunTwo(Step(s, a).0, b, Committing(FIRST));
    assert [a, b, Committing(FIRST)] == [a] + [b, Committing(FIRST)];
  }

  lemma RecallRequested(s: State)
    requires FirstCommitted(s)
    ensures Step(s, RequestAction(SCOPE, 20, RECALL.approvalId, Withdraw, 10)).0 ==
            Under(Acting(s, Recalling()), CheckpointRef(SCOPE, RECALL.approvalId),
                  Checkpoint(SCOPE, WithdrawVerb, 20, OfAction(Recalling().body), false, None))
  {
    hide Stamp; hide BodyOf;
    BodyFields(0, "1", None);
    PublishedIs(Doc(), FIRST);
  }

  lemma RecallPrepared(s: State, t: State)
    requires FirstCommitted(s)
    requires t == Under(Acting(s, Recalling()), CheckpointRef(SCOPE, RECALL.approvalId),
                        Checkpoint(SCOPE, WithdrawVerb, 20, OfAction(Recalling().body), true, None))
    ensures var t' := Step(t, Withdrawing(SCOPE, 20, RECALL.resumeId)).0;
            t'.repo == t.repo && t'.intents == s.intents + {ToWithdraw(Recalling(), RECALL.resumeId)}
  {
    hide FirstPublication; hide Committing;
  }

  lemma RecallCommitted(t: State)
    requires t.repo.publications == map[Ref(SCOPE, 10) := FirstPublication()] && t.repo.current == map[SLOT := 10]
    requires t.repo.actions == map[Ref(SCOPE, 20) := Recalling()] && !t.repo.failNextCommit
    requires ToWithdraw(Recalling(), RECALL.resumeId) in t.intents
    ensures var t' := Step(t, Commit(ToWithdraw(Recalling(), RECALL.resumeId))).0;
            && t'.repo.publications == map[Ref(SCOPE, 10) := Retire(FirstPublication(), Recalled)]
            && t'.repo.current == map[] && !t'.repo.failNextCommit && t'.intents == t.intents
  {
    SingleDocument(Doc(), FIRST, Recalled);
    var withdrawn := Retire(FirstPublication(), Recalled);
    assert withdrawn.id == 10 && |withdrawn.snapshots| == 1;
    hide PutAll; hide DistinctKeys; hide Stamp; hide Retire; hide FirstPublication;
    OneKey(withdrawn.snapshots);
    assert map[SLOT := 10] - {SLOT} == map[];
  }

  lemma Withdrawn(s: State)
    requires FirstCommitted(s)
    ensures var s' := RunFrom(s, [RequestAction(SCOPE, 20, RECALL.approvalId, Withdraw, 10),
                                  Approve(CheckpointRef(SCOPE, RECALL.approvalId)),
                                  Withdrawing(SCOPE, 20, RECALL.resumeId),
                                  Commit(ToWithdraw(Recalling(), RECALL.resumeId))]);
            && s'.repo.publications == map[Ref(SCOPE, 10) := Retire(FirstPublication(), Recalled)]
            && s'.repo.current == map[] && !s'.repo.failNextCommit && Committing(OTHER).intent in s'.intents
  {
    hide RunFrom; hide Step; hide Retire; hide FirstPublication; hide FirstCommitted; hide Under; hide Acting;
    var a, key := Recalling(), CheckpointRef(SCOPE, RECALL.approvalId);
    var open := Checkpoint(SCOPE, WithdrawVerb, 20, OfAction(a.body), false, None);
    var request, approve := RequestAction(SCOPE, 20, RECALL.approvalId, Withdraw, 10), Approve(key);
    var prepare, commit := Withdrawing(SCOPE, 20, RECALL.resumeId), Commit(ToWithdraw(a, RECALL.resumeId));
    RecallRequested(s);
    ApproveStep(Acting(s, a), key, open);
    var t := Under(Acting(s, a), key, open.(approved := true));
    RecallPrepared(s, t);
    ActingOn(s);
    RecallCommitted(Step(t, prepare).0);
    RunOne(s, request, [approve, prepare, commit]);
    RunOne(Under(Acting(s, a), key, open), approve, [prepare, commit]);
    RunTwo(t, prepare, commit);
    assert [request, approve, prepare, commit] == [request] + [approve, prepare, commit];
    assert [approve, prepare, commit] == [approve] + [prepare, commit];
  }

  lemma ActingOn(s: State)
    requires FirstCommitted(s)
    ensures var t := Under(Acting(s, Recalling()), CheckpointRef(SCOPE, RECALL.approvalId),
                           Checkpoint(SCOPE, WithdrawVerb, 20, OfAction(Recalling().body), true, None));
            && t.repo.publications == map[Ref(SCOPE, 10) := FirstPublication()] && t.repo.current == map[SLOT := 10]
            && t.repo.actions == map[Ref(SCOPE, 20) := Recalling()] && !t.repo.failNextCommit
            && t.intents == s.intents && Committing(OTHER).intent in t.intents
  {
    hide FirstPublication; hide Committing;
  }

  lemma OneKey(snapshots: seq<Snapshot>)
    requires |snapshots| <= 1
    ensures DistinctKeys(snapshots)
  {
  }

  lemma SecondCommits(s: State)
    requires s.repo.publications == map[Ref(SCOPE, 10) := Retire(FirstPublication(), Recalled)]
    requires s.repo.current == map[] && !s.repo.failNextCommit && Committing(OTHER).intent in s.intents
    ensures var r := Step(s, Committing(OTHER)).0.repo;
            && Ref(SCOPE, 10) in r.publications && Ref(SCOPE, 11) in r.publications
            && r.publications[Ref(SCOPE, 10)].grant == 1000 == r.publications[Ref(SCOPE, 11)].grant
  {
    hide PutAll; hide SwapBatch; hide DistinctKeys; hide Stamp; hide BodyOf;
    BodyFields(0, "1", None);
    SingleDocument(Doc(), OTHER, Current);
    var c := Ready(Doc(), FIRST);
    assert Ready(Doc(), OTHER) == c;
    SingleInstalls(s.repo, SLOT, None, NewPublication(c, 11, 1000));
  }

  lemma {:induction false} NoRollbackIsFresh(s: State, ops: seq<Op>)
    requires forall i :: 0 <= i < |ops| && ops[i].Commit? ==> !ops[i].intent.ToRollBack?
    ensures FreshRun(s, ops)
    decreases |ops|
  {
    hide Step;
    if ops != [] {
      NoRollbackIsFresh(Step(s, ops[0]).0, ops[1..]);
    }
  }

  lemma SharingIsFresh()
    ensures FreshRun(START, SharingOps())
  {
    hide FreshRun; hide NewPublication; hide Ready; hide Doc;
    NoRollbackIsFresh(START, SharingOps());
  }

  /** A grant can stand behind two publications: a run from the beginning, with no rollback in it,
      at whose end the publications 10 and 11 carry the grant 1000. */
  lemma GrantUsedTwice()
    ensures FreshRun(START, SharingOps())
    ensures var r := RunFrom(START, SharingOps()).repo;
            && Ref(SCOPE, 10) in r.publications && Ref(SCOPE, 11) in r.publications
            && r.publications[Ref(SCOPE, 10)].grant == 1000 == r.publications[Ref(SCOPE, 11)].grant
  {
    SharingIsFresh();
    hide RunFrom; hide FreshRun; hide Step; hide Preparing; hide Passes; hide FirstCommitted; hide BodyOf; hide Retire;
    hide FirstPublication;
    var opening := Preparing(Doc(), FIRST);
    var publish := [Publish(SCOPE, 0, 10, 1000), Publish(SCOPE, 0, 11, 1000), Committing(FIRST)];
    var recall := [RequestAction(SCOPE, 20, RECALL.approvalId, Withdraw, 10),
                   Approve(CheckpointRef(SCOPE, RECALL.approvalId)),
                   Withdrawing(SCOPE, 20, RECALL.resumeId), Commit(ToWithdraw(Recalling(), RECALL.resumeId))];
    BodyFields(0, "1", None);
    BodyPasses(START.repo, 0, "1", None);
    CandidateApproved(START, Doc(), FIRST);
    var s1 := RunFrom(START, opening);
    BothPublish(s1);
    var s2 := RunFrom(s1, publish);
    Withdrawn(s2);
    var s3 := RunFrom(s2, recall);
    SecondCommits(s3);
    RunBoth(START, opening, publish);
    RunBoth(START, opening + publish, recall);
    RunBoth(START, opening + publish + recall, [Committing(OTHER)]);
    RunOne(s3, Committing(OTHER), []);
    assert [Committing(OTHER)] == [Committing(OTHER)] + [];
    assert RunFrom(Step(s3, Committing(OTHER)).0, []) == Step(s3, Committing(OTHER)).0 by {
      RunNone(Step(s3, Committing(OTHER)).0);
    }
  }

  lemma RunNone(s: State)
    ensures RunFrom(s, []) == s
  {
  }
}
