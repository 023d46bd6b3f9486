/** Whole runs of the release service: any interleaving of calls and commits from an empty start. */
module ReleaseRuns {
  import opened Common
  import opened KnowledgeIndex
  import opened Release
  import opened ReleaseService

  const START := State(EMPTY, Approvals(map[], map[]), {})

  function RunFrom(s: State, ops: seq<Op>): State
    decreases |ops|
  {
    if ops == [] then s else RunFrom(Step(s, ops[0]).0, ops[1..])
  }

  /** Every rollback of the run commits under an identifier that is new by then. */
  predicate FreshRun(s: State, ops: seq<Op>)
    decreases |ops|
  {
    ops == [] || (FreshOp(s, ops[0]) && FreshRun(Step(s, ops[0]).0, ops[1..]))
  }

  lemma StartInv()
    ensures ServiceInv(START)
  {
  }

  lemma {:induction false} RunKeepsInv(s: State, ops: seq<Op>)
    requires ServiceInv(s) && FreshRun(s, ops)
    ensures ServiceInv(RunFrom(s, ops))
    ensures forall ref :: ref in s.repo.publications ==>
              ref in RunFrom(s, ops).repo.publications
              && Lasting(s.repo.publications[ref], RunFrom(s, ops).repo.publications[ref])
    decreases |ops|
  {
    hide ServiceInv; hide Step; hide FreshOp;
    if ops != [] {
      StepKeepsInv(s, ops[0]);
      RunKeepsInv(Step(s, ops[0]).0, ops[1..]);
    }
  }

  /** What no later step changes about a publication. */
  ghost predicate Lasting(p: Publication, p': Publication) {
    p'.id == p.id && p'.body == p.body && p'.previous == p.previous && p'.restoredFrom == p.restoredFrom
      && p'.grant == p.grant
  }

  /** `x` is a PUBLISHED index entry of the slot. */
  ghost predicate Listed(index: Index, slot: Slot, x: Snapshot) {
    x.status == Published && Slot(x.scope, x.corpusId) == slot && KeyOf(x) in index && index[KeyOf(x)] == x
  }

  /** In every reachable state the PUBLISHED entries of a slot are exactly the head's snapshots,
      none without a head, and the head is the slot's only PUBLISHED publication. */
  lemma IndexShowsHead(ops: seq<Op>, slot: Slot)
    requires FreshRun(START, ops)
    ensures var r := RunFrom(START, ops).repo;
            && (forall k :: k in r.index ==> KeyOf(r.index[k]) == k)
            && (forall x :: Listed(r.index, slot, x) <==>
                  slot in r.current && Ref(slot.scope, r.current[slot]) in r.publications
                  && x in r.publications[Ref(slot.scope, r.current[slot])].snapshots)
            && (forall ref :: ref in r.publications && SlotOf(r.publications[ref]) == slot ==>
                  (r.publications[ref].state == Current <==> CurrentId(r, slot) == Some(ref.id)))
  {
    hide RunFrom; hide FreshRun; hide RecordsOk; hide IntentsOk; hide ApprovalsOk;
    StartInv();
    RunKeepsInv(START, ops);
    var r := RunFrom(START, ops).repo;
    forall x ensures Listed(r.index, slot, x) <==>
        slot in r.current && Ref(slot.scope, r.current[slot]) in r.publications
        && x in r.publications[Ref(slot.scope, r.current[slot])].snapshots
    {
      ListedMeansShown(r, slot, x);
    }
    forall ref | ref in r.publications && SlotOf(r.publications[ref]) == slot
      ensures r.publications[ref].state == Current <==> CurrentId(r, slot) == Some(ref.id)
    {
      OnlyPublished(r, ref);
    }
    IndexKeys(r);
  }

  lemma IndexKeys(r: Repository)
    requires IndexOk(r)
    ensures forall k :: k in r.index ==> KeyOf(r.index[k]) == k
  {
  }

  lemma OnlyPublished(r: Repository, ref: Ref)
    requires Inv(r) && ref in r.publications
    ensures r.publications[ref].state == Current <==> CurrentId(r, SlotOf(r.publications[ref])) == Some(ref.id)
  {
    hide IndexOk; hide LinearOk; hide PublicationOk;
    PublicationIds(ref, r.publications[ref]);
  }

  lemma ListedMeansShown(r: Repository, slot: Slot, x: Snapshot)
    requires Inv(r)
    ensures Listed(r.index, slot, x) <==>
            slot in r.current && Ref(slot.scope, r.current[slot]) in r.publications
            && x in r.publications[Ref(slot.scope, r.current[slot])].snapshots
  {
    hide PublicationOk; hide LinearOk; hide KeyOf;
    if Listed(r.index, slot, x) {
      KeySlot(x);
      var p :| HeadIs(r, slot, p) && x in p.snapshots;
    }
    if slot in r.current && x in r.publications[Ref(slot.scope, r.current[slot])].snapshots {
      var ref := Ref(slot.scope, r.current[slot]);
      var p := r.publications[ref];
      assert HeadIs(r, slot, p);
      HeadSnapshot(ref, p, x);
      var i :| 0 <= i < |p.snapshots| && p.snapshots[i] == x;
    }
  }

  lemma KeySlot(x: Snapshot)
    ensures Slot(KeyOf(x).scope, KeyOf(x).corpusId) == Slot(x.scope, x.corpusId)
  {
  }

  lemma HeadSnapshot(ref: Ref, p: Publication, x: Snapshot)
    requires PublicationOk(ref, p) && p.state == Current && x in p.snapshots
    ensures x.status == Published && Slot(x.scope, x.corpusId) == SlotOf(p)
  {
  }

  /** No two publications of a run name the same predecessor. */
  lemma HistoryNeverForks(ops: seq<Op>, a: Ref, b: Ref)
    requires FreshRun(START, ops)
    requires var r := RunFrom(START, ops).repo;
             a in r.publications && b in r.publications && a.scope == b.scope
             && r.publications[a].previous.Some? && r.publications[a].previous == r.publications[b].previous
    ensures a == b
  {
    hide RunFrom; hide FreshRun; hide RecordsOk; hide IntentsOk; hide ApprovalsOk; hide PublicationsOk; hide HeadsOk;
    hide IndexOk;
    StartInv();
    RunKeepsInv(START, ops);
  }

  /** Every publication was committed by one step, over the head of that moment as its predecessor. */
  lemma {:induction false} PredecessorWasHead(s: State, ops: seq<Op>, ref: Ref) returns (at: nat)
    requires ServiceInv(s) && FreshRun(s, ops)
    requires ref !in s.repo.publications && ref in RunFrom(s, ops).repo.publications
    ensures at < |ops|
    ensures var before, after := RunFrom(s, ops[..at]).repo, RunFrom(s, ops[..at + 1]).repo;
            && ref !in before.publications && ref in after.publications
            && RunFrom(s, ops).repo.publications[ref].previous == CurrentId(before, SlotOf(after.publications[ref]))
            && CurrentId(after, SlotOf(after.publications[ref])) == Some(ref.id)
    decreases |ops|
  {
    hide ServiceInv; hide Step; hide FreshOp; hide SlotOf; hide CurrentId;
    var s1 := Step(s, ops[0]).0;
    StepKeepsInv(s, ops[0]);
    assert ops[..1][1..] == [];
    if ref in s1.repo.publications {
      at := 0;
      RunKeepsInv(s1, ops[1..]);
      assert RunFrom(s, ops[..0]) == s;
      assert RunFrom(s, ops[..1]) == RunFrom(s1, []) == s1;
    } else {
      var rest := PredecessorWasHead(s1, ops[1..], ref);
      at := rest + 1;
      assert ops[..at][1..] == ops[1..][..rest] && ops[..at + 1][1..] == ops[1..][..rest + 1];
      assert RunFrom(s, ops[..at]) == RunFrom(s1, ops[1..][..rest]);
      assert RunFrom(s, ops[..at + 1]) == RunFrom(s1, ops[1..][..rest + 1]);
    }
  }

  /** Every publication of a run carries the validated content of a stored candidate that was
      reviewed, and was approved: that exact candidate, or the rollback that made it. */
  lemma PublishedOnlyApproved(ops: seq<Op>, ref: Ref)
    requires FreshRun(START, ops) && ref in RunFrom(START, ops).repo.publications
    ensures var s := RunFrom(START, ops);
            var p := s.repo.publications[ref];
            Authorised(s.approvals, p) && ReleasedFrom(s.repo.candidates, p.body) && Sound(p.body)
  {
    hide RunFrom; hide FreshRun; hide IntentsOk; hide Inv; hide Authorised; hide ReleasedFrom; hide Sound;
    StartInv();
    RunKeepsInv(START, ops);
    SoundStored(RunFrom(START, ops).repo, ref);
  }

  lemma SoundStored(r: Repository, ref: Ref)
    requires Inv(r) && ref in r.publications
    ensures Sound(r.publications[ref].body)
  {
    hide HeadsOk; hide IndexOk; hide LinearOk; hide Sound; hide Stamp;
    assert PublicationOk(ref, r.publications[ref]);
  }

  // ---------------------------------------------------------------------
  // Failed commits
  // ---------------------------------------------------------------------

  /** A whole call: everything up to the commit, then the commit. */
  function Call(s: State, op: Op): (State, Reply) {
    var (prepared, reply) := Step(s, op);
    if reply.InFlight? then Finish(prepared, reply.intent) else (prepared, reply)
  }

  predicate Committing(op: Op) {
    op.Publish? || op.Withdrawing? || op.RollingBack?
  }

  function Unarmed(r: Repository): Repository {
    r.(failNextCommit := false)
  }

  /** A commit that fails atomically changes nothing but the switch that made it fail. */
  lemma AtomicCommit(r: Repository, intent: Intent)
    requires CommitIntent(r, intent).1 == Err(AtomicCommitFailed)
    ensures CommitIntent(r, intent).0 == Unarmed(r) && r.failNextCommit
  {
    hide Retire; hide PutAll; hide SwapBatch; hide DistinctKeys;
  }

  /** The same commit goes through once the switch is off. */
  lemma CommitAgain(r: Repository, intent: Intent)
    requires Inv(r) && IntentOk(intent) && CommitIntent(r, intent).1 == Err(AtomicCommitFailed)
    ensures CommitIntent(Unarmed(r), intent).1.Ok?
    ensures intent.ToPublish? ==> CommitIntent(Unarmed(r), intent).1 == Ok(intent.publication)
    ensures intent.ToRollBack? ==> CommitIntent(Unarmed(r), intent).1 == Ok(intent.restored)
  {
    hide Retire; hide PutAll; hide SwapBatch; hide DistinctKeys; hide PublicationsOk; hide HeadsOk; hide IndexOk;
    hide LinearOk;
    hide PublicationOk; hide Stamp;
    var scope := if intent.ToPublish? then intent.candidate.body.scope else intent.action.body.scope;
    var corpusId := if intent.ToPublish? then intent.candidate.body.corpusId else intent.action.body.corpusId;
    var slot := Slot(scope, corpusId);
    FlagIrrelevant(r, Unarmed(r));
    HeadStored(r, slot);
    match intent
    case ToPublish(c, p) =>
      InstallSucceeds(Unarmed(r), slot, p);
    case ToWithdraw(a, grant) =>
      HeadRetires(r, slot, Recalled);
    case ToRollBack(a, grant, p) =>
      InstallSucceeds(Unarmed(r), slot, p);
  }

  /** A call that got as far as its commit gets there again, with the same grant, and nothing new is granted. */
  lemma PrepareAgain(s: State, op: Op)
    requires Committing(op) && Step(s, op).1.InFlight?
    ensures var s1 := Step(s, op).0.(repo := Unarmed(s.repo));
            Step(s1, op) == (s1, Step(s, op).1) && Step(s, op).0.repo == s.repo
              && Step(s, op).1.intent in Step(s, op).0.intents
  {
    hide Stamp; hide Resume; hide Bound; hide NewPublication; hide Restored;
    var s1 := Step(s, op).0.(repo := Unarmed(s.repo));
    match op
    case Publish(scope, id, _, resumeId) =>
      var c := s.repo.candidates[Ref(scope, id)];
      ResumeAgain(s.approvals, resumeId, scope, c.approvalId.value, PublishVerb, c.body.candidateId,
        OfCandidate(c.body));
    case Withdrawing(scope, id, resumeId) =>
      var a := s.repo.actions[Ref(scope, id)];
      ResumeAgain(s.approvals, resumeId, scope, a.approvalId, WithdrawVerb, a.body.id, OfAction(a.body));
    case RollingBack(scope, id, resumeId) =>
      var a := s.repo.actions[Ref(scope, id)];
      ResumeAgain(s.approvals, resumeId, scope, a.approvalId, RollbackVerb, a.body.id, OfAction(a.body));
    assert s1.intents + {Step(s, op).1.intent} == s1.intents;
  }

  /** The same resume call is granted again, and the binding of the checkpoint is as before. */
  lemma ResumeAgain(a: Approvals, resumeId: Uuid, scope: Scope, approvalId: Uuid, verb: Verb, target: Uuid,
        digest: Digest)
    requires Resume(a, resumeId, scope, approvalId, digest).1.Ok?
    ensures var (a', grant) := Resume(a, resumeId, scope, approvalId, digest);
            && Resume(a', resumeId, scope, approvalId, digest) == (a', grant)
            && Bound(a', scope, approvalId, verb, target, digest) == Bound(a, scope, approvalId, verb, target, digest)
  {
  }

  /** The call `op` leads to the commit of `intent`. */
  predicate LeadsTo(op: Op, intent: Intent) {
    match op
    case Publish(scope, id, publicationId, _) =>
      && intent.ToPublish? && intent.candidate.body.scope == scope && intent.candidate.body.candidateId == id
      && intent.publication.id == publicationId
    case Withdrawing(scope, id, _) =>
      && intent.ToWithdraw? && intent.action.body.scope == scope && intent.action.body.id == id
      && intent.action.body.kind == Withdraw
    case RollingBack(scope, id, _) =>
      && intent.ToRollBack? && intent.action.body.scope == scope && intent.action.body.id == id
      && intent.action.body.kind == Rollback && intent.restored.id == id
    case _ => false
  }

  lemma PreparedFrom(s: State, op: Op)
    requires RecordsOk(s.repo) && Committing(op) && Step(s, op).1.InFlight?
    ensures LeadsTo(op, Step(s, op).1.intent)
  {
    hide Stamp; hide Sound; hide SlotOf; hide ReleasedFrom;
    if op.Publish? {
      assert CandidateOk(Ref(op.scope, op.candidateId), s.repo.candidates[Ref(op.scope, op.candidateId)]);
    } else {
      assert ActionOk(s.repo.publications, Ref(op.scope, op.operationId),
        s.repo.actions[Ref(op.scope, op.operationId)]);
    }
  }

  /** The repository holds `p` as what `intent` committed. */
  predicate Remembers(r: Repository, intent: Intent, p: Publication) {
    match intent
    case ToPublish(c, q) =>
      var ref := Ref(c.body.scope, c.body.candidateId);
      && ref in r.candidates && r.candidates[ref].state == CandidatePublished
      && r.candidates[ref].publicationId == Some(q.id)
      && Ref(c.body.scope, q.id) in r.publications && r.publications[Ref(c.body.scope, q.id)] == p
    case ToWithdraw(a, grant) =>
      var ref := Ref(a.body.scope, a.body.id);
      && ref in r.actions && r.actions[ref] == a.(grant := Some(grant))
      && Ref(a.body.scope, a.body.target) in r.publications && r.publications[Ref(a.body.scope, a.body.target)] == p
    case ToRollBack(a, grant, q) =>
      var ref := Ref(a.body.scope, a.body.id);
      && ref in r.actions && r.actions[ref] == a.(grant := Some(grant))
      && Ref(a.body.scope, q.id) in r.publications && r.publications[Ref(a.body.scope, q.id)] == p
  }

  lemma CommitRemembered(r: Repository, intent: Intent)
    requires Inv(r) && IntentOk(intent) && CommitIntent(r, intent).1 == Err(AtomicCommitFailed)
    ensures CommitIntent(Unarmed(r), intent).1.Ok?
    ensures Remembers(CommitIntent(Unarmed(r), intent).0, intent, CommitIntent(Unarmed(r), intent).1.value)
  {
    hide Retire; hide PutAll; hide SwapBatch; hide DistinctKeys; hide PublicationsOk; hide HeadsOk; hide IndexOk;
    hide LinearOk;
    hide PublicationOk; hide Stamp;
    CommitAgain(r, intent);
    if intent.ToWithdraw? {
      var b := intent.action.body;
      HeadStored(r, Slot(b.scope, b.corpusId));
      HeadRetires(r, Slot(b.scope, b.corpusId), Recalled);
      RetiredId(r.publications[Ref(b.scope, b.target)], Recalled);
    }
  }

  lemma RetiredId(p: Publication, state: PublicationState)
    ensures Retire(p, state).id == p.id
  {
  }

  lemma RememberedAnswer(s: State, op: Op, intent: Intent, p: Publication)
    requires LeadsTo(op, intent) && Remembers(s.repo, intent, p)
    ensures Call(s, op) == (s, Answered(p))
  {
  }

  /** A committing call that fails atomically changes no record, publication, head or index
      entry; the same call with the same resume identifier then commits, and any further
      repetition gives the same answer and changes nothing. */
  lemma RetryCommitsOnce(s: State, op: Op)
    requires ServiceInv(s) && Committing(op) && Call(s, op).1 == Refused(AtomicCommitFailed)
    ensures var s1 := Call(s, op).0;
            var s2 := Call(s1, op).0;
            && s1.repo == Unarmed(s.repo)
            && Call(s1, op).1.Answered?
            && s2.approvals == s1.approvals
            && Call(s2, op) == (s2, Call(s1, op).1)
  {
    hide RecordsOk; hide Inv; hide ApprovalsOk; hide IntentOk; hide CommitIntent; hide Step; hide LeadsTo;
    hide Remembers;
    NotPrepared(s, op);
    var intent, prepared := Step(s, op).1.intent, Step(s, op).0;
    PrepareAgain(s, op);
    PreparedFrom(s, op);
    PreparedOk(s, op);
    AtomicCommit(s.repo, intent);
    CommitRemembered(s.repo, intent);
    var s1 := Call(s, op).0;
    assert s1 == prepared.(repo := Unarmed(s.repo));
    RememberedAnswer(Call(s1, op).0, op, intent, CommitIntent(Unarmed(s.repo), intent).1.value);
  }

  lemma NotPrepared(s: State, op: Op)
    requires Committing(op) && Call(s, op).1 == Refused(AtomicCommitFailed)
    ensures Step(s, op).1.InFlight?
  {
  }

  lemma PreparedOk(s: State, op: Op)
    requires ServiceInv(s) && Committing(op) && Step(s, op).1.InFlight?
    ensures IntentOk(Step(s, op).1.intent)
  {
    hide Step; hide RecordsOk; hide Inv; hide ApprovalsOk; hide IntentOk;
    StepKeepsInv(s, op);
    PrepareAgain(s, op);
  }
}
