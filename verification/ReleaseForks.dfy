/**
 Why rollback identifiers must be new: a run of the release service, every call of it accepted,
 that reuses a publication's identifier for a rollback and ends with a forked history.
 */
module ReleaseForks {
  import opened Common
  import opened KnowledgeIndex
  import opened Release
  import opened ReleaseService
  import opened ReleaseRuns

  // ---------------------------------------------------------------------
  // A publication and a rollback from beginning to end
  // ---------------------------------------------------------------------

  /** The identifiers one publication or rollback uses. */
  datatype Ids = Ids(publicationId: Uuid, approvalId: Uuid, resumeId: Uuid)

  function Ready(body: Body, ids: Ids): Candidate {
    Candidate(body, ReviewRequired, true, Some(ids.approvalId), None)
  }

  /** Create, validate, review, request approval, approve, publish, commit. */
  function PublishOps(body: Body, ids: Ids): seq<Op> {
    Preparing(body, ids) + Publishing(body, ids)
  }

  function Publishing(body: Body, ids: Ids): seq<Op> {
    var c := Ready(body, ids);
    [Publish(body.scope, body.candidateId, ids.publicationId, ids.resumeId),
     Commit(ToPublish(c, NewPublication(c, ids.publicationId, ids.resumeId)))]
  }

  /** Everything up to the approval. */
  function Preparing(body: Body, ids: Ids): seq<Op> {
    var scope, id := body.scope, body.candidateId;
    [CreateCandidate(body), Validate(scope, id, true), Review(scope, id), RequestPublish(scope, id, ids.approvalId),
     Approve(CheckpointRef(scope, ids.approvalId))]
  }

  function Rolling(scope: Scope, corpusId: string, target: Uuid, current: Uuid, ids: Ids): Action {
    Action(ActionBody(ids.publicationId, scope, Rollback, corpusId, target, current), ids.approvalId, None)
  }

  /** Request the rollback, approve it, prepare it, commit it. */
  function RollbackOps(action: Action, target: Publication, ids: Ids): seq<Op> {
    var b := action.body;
    [RequestAction(b.scope, b.id, ids.approvalId, Rollback, b.target), Approve(CheckpointRef(b.scope, ids.approvalId)),
     RollingBack(b.scope, b.id, ids.resumeId),
     Commit(ToRollBack(action, ids.resumeId, Restored(action, target, ids.resumeId)))]
  }

  /** Approval and resume identifiers nobody has used. */
  predicate Unused(a: Approvals, scope: Scope, ids: Ids) {
    CheckpointRef(scope, ids.approvalId) !in a.checkpoints && ids.resumeId !in a.resumes
  }

  /** The same identifiers are used as before, and these. */
  predicate UsedNow(a: Approvals, scope: Scope, ids: Ids, a': Approvals) {
    a'.checkpoints.Keys == a.checkpoints.Keys + {CheckpointRef(scope, ids.approvalId)}
      && a'.resumes.Keys == a.resumes.Keys + {ids.resumeId}
  }

  lemma RunOne(s: State, op: Op, rest: seq<Op>)
    ensures RunFrom(s, [op] + rest) == RunFrom(Step(s, op).0, rest)
  {
    assert ([op] + rest)[1..] == rest;
  }

  lemma {:induction false} RunBoth(s: State, a: seq<Op>, b: seq<Op>)
    ensures RunFrom(s, a + b) == RunFrom(RunFrom(s, a), b)
    decreases |a|
  {
    if a == [] {
      assert a + b == b;
    } else {
      assert (a + b)[1..] == a[1..] + b;
      RunBoth(Step(s, a[0]).0, a[1..], b);
    }
  }

  /** The checkpoint of a publication once it is approved. */
  function Approved(scope: Scope, verb: Verb, targetId: Uuid, digest: Digest): Checkpoint {
    Checkpoint(scope, verb, targetId, digest, true, None)
  }

  /** The state with one candidate and one checkpoint stored. */
  function With(s: State, body: Body, c: Candidate): State {
    s.(repo := s.repo.(candidates := s.repo.candidates[Ref(body.scope, body.candidateId) := c]))
  }

  function Under(s: State, key: ProjectRef, c: Checkpoint): State {
    s.(approvals := s.approvals.(checkpoints := s.approvals.checkpoints[key := c]))
  }

  function Drafted(body: Body): Candidate {
    Candidate(body, CandidateDraft, false, None, None)
  }

  lemma CreateStep(s: State, body: Body)
    requires Passes(s.repo, body, true) && Ref(body.scope, body.candidateId) !in s.repo.candidates
    ensures Step(s, CreateCandidate(body)).0 == With(s, body, Drafted(body))
  {
  }

  lemma ValidateStep(s: State, body: Body)
    requires Passes(s.repo, body, true)
    ensures Step(With(s, body, Drafted(body)), Validate(body.scope, body.candidateId, true)).0 ==
            With(s, body, Drafted(body).(state := ReviewRequired))
  {
    hide Passes;
    var t := With(s, body, Drafted(body));
    SamePasses(s.repo, t.repo, body);
    var ref := Ref(body.scope, body.candidateId);
    assert t.repo.candidates[ref := Drafted(body).(state := ReviewRequired)] ==
           s.repo.candidates[ref := Drafted(body).(state := ReviewRequired)];
  }

  lemma ReviewStep(s: State, body: Body)
    ensures Step(With(s, body, Drafted(body).(state := ReviewRequired)), Review(body.scope, body.candidateId)).0 ==
            With(s, body, Drafted(body).(state := ReviewRequired, reviewed := true))
  {
    var c, ref := Drafted(body).(state := ReviewRequired), Ref(body.scope, body.candidateId);
    assert s.repo.candidates[ref := c][ref := c.(reviewed := true)] == s.repo.candidates[ref := c.(reviewed := true)];
  }

  lemma RequestStep(s: State, body: Body, ids: Ids)
    requires CheckpointRef(body.scope, ids.approvalId) !in s.approvals.checkpoints
    ensures var key := CheckpointRef(body.scope, ids.approvalId);
            var open := Checkpoint(body.scope, PublishVerb, body.candidateId, OfCandidate(body), false, None);
            Step(With(s, body, Drafted(body).(state := ReviewRequired, reviewed := true)),
                 RequestPublish(body.scope, body.candidateId, ids.approvalId)).0 ==
            Under(With(s, body, Ready(body, ids)), key, open)
  {
    var c, ref := Drafted(body).(state := ReviewRequired, reviewed := true), Ref(body.scope, body.candidateId);
    assert s.repo.candidates[ref := c][ref := Ready(body, ids)] == s.repo.candidates[ref := Ready(body, ids)];
  }

  lemma ApproveStep(s: State, key: ProjectRef, c: Checkpoint)
    ensures Step(Under(s, key, c), Approve(key)).0 == Under(s, key, c.(approved := true))
  {
    assert s.approvals.checkpoints[key := c][key := c.(approved := true)] ==
      s.approvals.checkpoints[key := c.(approved := true)];
  }

  lemma RunFive(s: State, ops: seq<Op>, s1: State, s2: State, s3: State, s4: State, s5: State)
    requires |ops| == 5 && Step(s, ops[0]).0 == s1 && Step(s1, ops[1]).0 == s2 && Step(s2, ops[2]).0 == s3
    requires Step(s3, ops[3]).0 == s4 && Step(s4, ops[4]).0 == s5
    ensures RunFrom(s, ops) == s5
  {
    hide Step; hide RunFrom;
    RunOne(s, ops[0], ops[1..]);
    RunOne(s1, ops[1], ops[2..]);
    RunOne(s2, ops[2], ops[3..]);
    RunTwo(s3, ops[3], ops[4]);
    assert ops == [ops[0]] + ops[1..] && ops[1..] == [ops[1]] + ops[2..] && ops[2..] == [ops[2]] + ops[3..];
    assert ops[3..] == [ops[3], ops[4]];
  }

  /** The first five calls touch candidates and checkpoints only. */
  lemma CandidateApproved(s: State, body: Body, ids: Ids)
    requires Passes(s.repo, body, true) && Ref(body.scope, body.candidateId) !in s.repo.candidates
    requires CheckpointRef(body.scope, ids.approvalId) !in s.approvals.checkpoints
    ensures var key := CheckpointRef(body.scope, ids.approvalId);
            var approved := Checkpoint(body.scope, PublishVerb, body.candidateId, OfCandidate(body), true, None);
            RunFrom(s, Preparing(body, ids)) == Under(With(s, body, Ready(body, ids)), key, approved)
  {
    hide RunFrom; hide Step; hide Passes; hide With; hide Under;
    var ops, key := Preparing(body, ids), CheckpointRef(body.scope, ids.approvalId);
    var open := Checkpoint(body.scope, PublishVerb, body.candidateId, OfCandidate(body), false, None);
    CreateStep(s, body);
    ValidateStep(s, body);
    ReviewStep(s, body);
    RequestStep(s, body, ids);
    ApproveStep(With(s, body, Ready(body, ids)), key, open);
    RunFive(s, ops, With(s, body, Drafted(body)), With(s, body, Drafted(body).(state := ReviewRequired)),
      With(s, body, Drafted(body).(state := ReviewRequired, reviewed := true)),
      Under(With(s, body, Ready(body, ids)), key, open),
      Under(With(s, body, Ready(body, ids)), key, open.(approved := true)));
  }

  lemma SamePasses(r: Repository, r': Repository, body: Body)
    requires Passes(r, body, true) && r'.current == r.current
    ensures Passes(r', body, true)
  {
  }

  lemma RunTwo(s: State, a: Op, b: Op)
    ensures RunFrom(s, [a, b]) == Step(Step(s, a).0, b).0
  {
    hide Step;
    RunOne(s, a, [b]);
    RunOne(Step(s, a).0, b, []);
    assert [a, b] == [a] + [b] && [b] == [b] + [];
  }

  function RetiredFor(r: Repository, slot: Slot): Option<Publication>
    requires slot in r.current ==> Ref(slot.scope, r.current[slot]) in r.publications
  {
    if slot in r.current then Some(Retire(r.publications[Ref(slot.scope, r.current[slot])], Replaced)) else None
  }

  /** What a finished publication or rollback leaves behind. */
  ghost predicate Installed(r: Repository, slot: Slot, p: Publication, r': Repository)
    requires slot in r.current ==> Ref(slot.scope, r.current[slot]) in r.publications
  {
    var installed := Install(r, slot, RetiredFor(r, slot), p);
    && installed.Ok? && r'.publications == installed.value.publications && r'.current == installed.value.current
    && r'.failNextCommit == r.failNextCommit
  }

  /** Publishing and committing an approved candidate. */
  lemma ApprovedPublished(s: State, body: Body, ids: Ids)
    requires var ref, key := Ref(body.scope, body.candidateId), CheckpointRef(body.scope, ids.approvalId);
             && ref in s.repo.candidates && s.repo.candidates[ref] == Ready(body, ids)
             && key in s.approvals.checkpoints
             && s.approvals.checkpoints[key] ==
                Checkpoint(body.scope, PublishVerb, body.candidateId, OfCandidate(body), true, None)
    requires ids.resumeId !in s.approvals.resumes && !s.repo.failNextCommit
    requires var slot := Slot(body.scope, body.corpusId);
             && CurrentId(s.repo, slot) == body.base && Ref(body.scope, ids.publicationId) !in s.repo.publications
             && (slot in s.repo.current ==> Ref(slot.scope, s.repo.current[slot]) in s.repo.publications)
             && Install(s.repo, slot, RetiredFor(s.repo, slot),
                        NewPublication(Ready(body, ids), ids.publicationId, ids.resumeId)).Ok?
    ensures var s' := RunFrom(s, Publishing(body, ids));
            && Installed(s.repo, Slot(body.scope, body.corpusId),
                         NewPublication(Ready(body, ids), ids.publicationId, ids.resumeId), s'.repo)
            && s'.repo.actions == s.repo.actions && s'.repo.candidates.Keys == s.repo.candidates.Keys
            && s'.approvals.checkpoints.Keys == s.approvals.checkpoints.Keys
            && s'.approvals.resumes.Keys == s.approvals.resumes.Keys + {ids.resumeId}
  {
    hide PutAll; hide SwapBatch; hide DistinctKeys; hide Stamp; hide Retire;
    var ops, ref := Publishing(body, ids), Ref(body.scope, body.candidateId);
    var c := Ready(body, ids);
    var intent := ToPublish(c, NewPublication(c, ids.publicationId, ids.resumeId));
    RunTwo(s, ops[0], ops[1]);
    var prepared := Step(s, ops[0]).0;
    assert Step(s, ops[0]).1 == InFlight(intent) && prepared.repo == s.repo && intent in prepared.intents;
    assert ref in s.repo.candidates;
  }

  /** One publication from beginning to end, on any state that accepts it. */
  lemma PublishRuns(s: State, body: Body, ids: Ids)
    requires Passes(s.repo, body, true) && Ref(body.scope, body.candidateId) !in s.repo.candidates
    requires Unused(s.approvals, body.scope, ids) && !s.repo.failNextCommit
    requires Ref(body.scope, ids.publicationId) !in s.repo.publications
    requires var slot := Slot(body.scope, body.corpusId);
             && (slot in s.repo.current ==> Ref(slot.scope, s.repo.current[slot]) in s.repo.publications)
             && Install(s.repo, slot, RetiredFor(s.repo, slot),
                        NewPublication(Ready(body, ids), ids.publicationId, ids.resumeId)).Ok?
    ensures var s' := RunFrom(s, PublishOps(body, ids));
            && Installed(s.repo, Slot(body.scope, body.corpusId),
                         NewPublication(Ready(body, ids), ids.publicationId, ids.resumeId), s'.repo)
            && s'.repo.actions == s.repo.actions
            && s'.repo.candidates.Keys == s.repo.candidates.Keys + {Ref(body.scope, body.candidateId)}
            && UsedNow(s.approvals, body.scope, ids, s'.approvals)
  {
    hide RunFrom; hide PutAll; hide SwapBatch; hide DistinctKeys; hide Stamp; hide Retire; hide NewPublication;
    hide Ready; hide Preparing; hide Publishing;
    var key := CheckpointRef(body.scope, ids.approvalId);
    var approved := Checkpoint(body.scope, PublishVerb, body.candidateId, OfCandidate(body), true, None);
    CandidateApproved(s, body, ids);
    var t := Under(With(s, body, Ready(body, ids)), key, approved);
    assert t.repo.publications == s.repo.publications && t.repo.current == s.repo.current
      && t.repo.index == s.repo.index;
    SamePasses(s.repo, t.repo, body);
    ApprovedPublished(t, body, ids);
    RunBoth(s, Preparing(body, ids), Publishing(body, ids));
  }

  // ---------------------------------------------------------------------
  // A rollback
  // ---------------------------------------------------------------------

  /** The state with one action stored. */
  function Acting(s: State, a: Action): State {
    s.(repo := s.repo.(actions := s.repo.actions[Ref(a.body.scope, a.body.id) := a]))
  }

  lemma ActionStep(s: State, slot: Slot, target: Uuid, ids: Ids)
    requires Ref(slot.scope, target) in s.repo.publications
      && s.repo.publications[Ref(slot.scope, target)].body.corpusId == slot.corpusId
    requires slot in s.repo.current && Ref(slot.scope, s.repo.current[slot]) in s.repo.publications
      && s.repo.current[slot] != target
    requires Ref(slot.scope, ids.publicationId) !in s.repo.actions
    requires CheckpointRef(slot.scope, ids.approvalId) !in s.approvals.checkpoints
    ensures var a := Rolling(slot.scope, slot.corpusId, target, s.repo.current[slot], ids);
            Step(s, RequestAction(slot.scope, ids.publicationId, ids.approvalId, Rollback, target)).0 ==
            Under(Acting(s, a), CheckpointRef(slot.scope, ids.approvalId),
                  Checkpoint(slot.scope, RollbackVerb, ids.publicationId, OfAction(a.body), false, None))
  {
  }

  /** Preparing and committing an approved rollback, whether or not its identifier is new. */
  lemma ApprovedRolledBack(s: State, a: Action, ids: Ids)
    requires var b, key := a.body, CheckpointRef(a.body.scope, ids.approvalId);
             && b.kind == Rollback && a.grant.None? && a.approvalId == ids.approvalId && b.id == ids.publicationId
             && Ref(b.scope, b.id) in s.repo.actions && s.repo.actions[Ref(b.scope, b.id)] == a
             && key in s.approvals.checkpoints
             && s.approvals.checkpoints[key] == Checkpoint(b.scope, RollbackVerb, b.id, OfAction(b), true, None)
             && Ref(b.scope, b.target) in s.repo.publications
    requires ids.resumeId !in s.approvals.resumes && !s.repo.failNextCommit
    requires var slot := Slot(a.body.scope, a.body.corpusId);
             && CurrentId(s.repo, slot) == Some(a.body.expectedCurrent)
             && Ref(slot.scope, s.repo.current[slot]) in s.repo.publications
             && Install(s.repo, slot, RetiredFor(s.repo, slot),
                        Restored(a, s.repo.publications[Ref(a.body.scope, a.body.target)], ids.resumeId)).Ok?
    ensures var target := s.repo.publications[Ref(a.body.scope, a.body.target)];
            var s' := RunFrom(s, RollbackOps(a, target, ids)[2..]);
            && Installed(s.repo, Slot(a.body.scope, a.body.corpusId), Restored(a, target, ids.resumeId), s'.repo)
            && s'.repo.candidates == s.repo.candidates && s'.approvals.checkpoints.Keys == s.approvals.checkpoints.Keys
            && s'.approvals.resumes.Keys == s.approvals.resumes.Keys + {ids.resumeId}
  {
    hide PutAll; hide SwapBatch; hide DistinctKeys; hide Stamp; hide Retire;
    var target := s.repo.publications[Ref(a.body.scope, a.body.target)];
    var ops, intent := RollbackOps(a, target, ids), ToRollBack(a, ids.resumeId, Restored(a, target, ids.resumeId));
    assert ops[2..] == [ops[2], ops[3]];
    RunTwo(s, ops[2], ops[3]);
    var prepared := Step(s, ops[2]).0;
    assert Step(s, ops[2]).1 == InFlight(intent) && prepared.repo == s.repo && intent in prepared.intents;
  }

  /** One rollback from beginning to end, on any state that accepts it. */
  lemma RollbackRuns(s: State, slot: Slot, target: Uuid, ids: Ids)
    requires Ref(slot.scope, target) in s.repo.publications
      && s.repo.publications[Ref(slot.scope, target)].body.corpusId == slot.corpusId
    requires slot in s.repo.current && Ref(slot.scope, s.repo.current[slot]) in s.repo.publications
      && s.repo.current[slot] != target
    requires Ref(slot.scope, ids.publicationId) !in s.repo.actions && Unused(s.approvals, slot.scope, ids)
      && !s.repo.failNextCommit
    requires var a := Rolling(slot.scope, slot.corpusId, target, s.repo.current[slot], ids);
             Install(s.repo, slot, RetiredFor(s.repo, slot),
                     Restored(a, s.repo.publications[Ref(slot.scope, target)], ids.resumeId)).Ok?
    ensures var a := Rolling(slot.scope, slot.corpusId, target, s.repo.current[slot], ids);
            var s' := RunFrom(s, RollbackOps(a, s.repo.publications[Ref(slot.scope, target)], ids));
            && Installed(s.repo, slot, Restored(a, s.repo.publications[Ref(slot.scope, target)], ids.resumeId), s'.repo)
            && s'.repo.candidates == s.repo.candidates && UsedNow(s.approvals, slot.scope, ids, s'.approvals)
  {
    hide RunFrom; hide PutAll; hide SwapBatch; hide DistinctKeys; hide Stamp; hide Retire; hide Restored; hide Step;
    var a := Rolling(slot.scope, slot.corpusId, target, s.repo.current[slot], ids);
    var p, key := s.repo.publications[Ref(slot.scope, target)], CheckpointRef(slot.scope, ids.approvalId);
    var ops := RollbackOps(a, p, ids);
    var open := Checkpoint(slot.scope, RollbackVerb, ids.publicationId, OfAction(a.body), false, None);
    ActionStep(s, slot, target, ids);
    ApproveStep(Acting(s, a), key, open);
    var t := Under(Acting(s, a), key, open.(approved := true));
    RunOne(s, ops[0], ops[1..]);
    RunOne(Under(Acting(s, a), key, open), ops[1], ops[2..]);
    assert ops == [ops[0]] + ops[1..] && ops[1..] == [ops[1]] + ops[2..];
    ApprovedRolledBack(t, a, ids);
  }

  // ---------------------------------------------------------------------
  // The fork
  // ---------------------------------------------------------------------

  const SCOPE := Scope(1, 1, 1, ["KNOWLEDGE_OWNER"], "1")
  const SLOT := Slot(SCOPE, "corpus")

  /** A candidate with one document. */
  function BodyOf(candidateId: Uuid, version: string, base: Option<Uuid>): Body {
    Body(candidateId, SCOPE, "corpus", version, "i", "e", base,
         [Snapshot("s", SCOPE, "corpus", version, "i", "e", "d", "text", Draft)])
  }

  const FIRST := Ids(10, 100, 1000)
  const SECOND := Ids(11, 101, 1001)
  const REUSED := Ids(10, 102, 1002) // a rollback under the first publication's identifier
  const THIRD := Ids(12, 103, 1003)

  function Published(body: Body, ids: Ids): Publication {
    NewPublication(Ready(body, ids), ids.publicationId, ids.resumeId)
  }

  /** Publish 10, publish 11 over it, roll back to 10 under the identifier 10, publish 12 over that. */
  function ForkingOps(): seq<Op> {
    var a := Rolling(SCOPE, "corpus", 10, 11, REUSED);
    PublishOps(BodyOf(0, "1", None), FIRST) + PublishOps(BodyOf(1, "2", Some(10)), SECOND)
    + RollbackOps(a, Retire(Published(BodyOf(0, "1", None), FIRST), Replaced), REUSED)
    + PublishOps(BodyOf(2, "3", Some(10)), THIRD)
  }

  lemma BodyPasses(r: Repository, candidateId: Uuid, version: string, base: Option<Uuid>)
    requires CurrentId(r, SLOT) == base
    ensures Passes(r, BodyOf(candidateId, version, base), true)
  {
  }

  /** One document each way is never a duplicate. */
  lemma SingleInstalls(r: Repository, slot: Slot, retired: Option<Publication>, p: Publication)
    requires |p.snapshots| <= 1 && (retired.Some? ==> |retired.value.snapshots| <= 1)
    ensures Install(r, slot, retired, p).Ok?
  {
    hide SwapBatch; hide PutAll;
    SwapDistinct(if retired.Some? then retired.value.snapshots else [], p.snapshots);
  }

  lemma SingleDocument(body: Body, ids: Ids, state: PublicationState)
    requires |body.snapshots| == 1
    ensures |Published(body, ids).snapshots| == 1 && |Retire(Published(body, ids), state).snapshots| == 1
    ensures Retire(Published(body, ids), state).id == ids.publicationId
    ensures Retire(Published(body, ids), state).previous == body.base
  {
  }

  /** What is stored, and which identifiers are used. */
  ghost predicate Stands(s: State, publications: map<Ref, Publication>, head: Uuid, candidates: set<Uuid>,
        used: set<Ids>) {
    && s.repo.publications == publications && s.repo.current == map[SLOT := head] && !s.repo.failNextCommit
    && s.repo.candidates.Keys == (set id | id in candidates :: Ref(SCOPE, id))
    && s.approvals.checkpoints.Keys == (set ids | ids in used :: CheckpointRef(SCOPE, ids.approvalId))
    && s.approvals.resumes.Keys == (set ids | ids in used :: ids.resumeId)
  }

  function FirstPublication(): Publication {
    Published(BodyOf(0, "1", None), FIRST)
  }

  function SecondPublication(): Publication {
    Published(BodyOf(1, "2", Some(10)), SECOND)
  }

  function RestoredPublication(): Publication {
    Restored(Rolling(SCOPE, "corpus", 10, 11, REUSED), Retire(FirstPublication(), Replaced), REUSED.resumeId)
  }

  function ThirdPublication(): Publication {
    Published(BodyOf(2, "3", Some(10)), THIRD)
  }

  lemma Stage1()
    ensures var s := RunFrom(START, PublishOps(BodyOf(0, "1", None), FIRST));
            Stands(s, map[Ref(SCOPE, 10) := FirstPublication()], 10, {0}, {FIRST}) && s.repo.actions == map[]
  {
    hide RunFrom; hide PublishOps; hide Passes; hide PutAll; hide SwapBatch; hide DistinctKeys; hide Stamp;
    var body := BodyOf(0, "1", None);
    BodyPasses(START.repo, 0, "1", None);
    SingleDocument(body, FIRST, Current);
    SingleInstalls(START.repo, SLOT, None, FirstPublication());
    PublishRuns(START, body, FIRST);
  }

  lemma Stage2(s: State)
    requires Stands(s, map[Ref(SCOPE, 10) := FirstPublication()], 10, {0}, {FIRST}) && s.repo.actions == map[]
    ensures var s' := RunFrom(s, PublishOps(BodyOf(1, "2", Some(10)), SECOND));
            && Stands(s',
               map[Ref(SCOPE, 10) := Retire(FirstPublication(), Replaced), Ref(SCOPE, 11) := SecondPublication()],
                      11, {0, 1}, {FIRST, SECOND})
            && s'.repo.actions == map[]
  {
    hide RunFrom; hide Installed; hide Install; hide PublishOps; hide Passes; hide PutAll; hide SwapBatch;
    hide DistinctKeys; hide Stamp; hide BodyOf; hide Published;
    hide NewPublication; hide Retire;
    var body := BodyOf(1, "2", Some(10));
    BodyFields(1, "2", Some(10));
    BodyFields(0, "1", None);
    BodyPasses(s.repo, 1, "2", Some(10));
    SingleDocument(BodyOf(0, "1", None), FIRST, Replaced);
    SingleDocument(body, SECOND, Current);
    SingleInstalls(s.repo, SLOT, RetiredFor(s.repo, SLOT), SecondPublication());
    PublishedIs(body, SECOND);
    PublishRuns(s, body, SECOND);
    InstalledOver(s.repo, RunFrom(s, PublishOps(body, SECOND)).repo, SecondPublication());
  }

  lemma BodyFields(candidateId: Uuid, version: string, base: Option<Uuid>)
    ensures var b := BodyOf(candidateId, version, base);
            b.candidateId == candidateId && b.scope == SCOPE && b.corpusId == "corpus" && b.base == base
              && |b.snapshots| == 1
  {
  }

  lemma PublishedIs(body: Body, ids: Ids)
    ensures Published(body, ids) == NewPublication(Ready(body, ids), ids.publicationId, ids.resumeId)
    ensures Published(body, ids).id == ids.publicationId && Published(body, ids).body == body
    ensures Published(body, ids).previous == body.base
  {
  }

  /** What a new publication over the head changes. */
  lemma InstalledOver(r: Repository, r': Repository, p: Publication)
    requires SLOT in r.current && Ref(SCOPE, r.current[SLOT]) in r.publications && Installed(r, SLOT, p, r')
    ensures var retired := Retire(r.publications[Ref(SCOPE, r.current[SLOT])], Replaced);
            && r'.publications == r.publications[Ref(SCOPE, retired.id) := retired][Ref(SCOPE, p.id) := p]
            && r'.current == r.current[SLOT := p.id] && r'.failNextCommit == r.failNextCommit
  {
    hide Retire; hide PutAll; hide SwapBatch; hide DistinctKeys;
  }

  lemma RestoredIs()
    ensures var p := RestoredPublication();
            p.id == 10 && p.previous == Some(11) && |p.snapshots| == 1 && p.body.corpusId == "corpus"
            && Retire(p, Replaced).id == 10 && |Retire(p, Replaced).snapshots| == 1
  {
    SingleDocument(BodyOf(0, "1", None), FIRST, Replaced);
  }

  lemma Stage3(s: State)
    requires Stands(s,
      map[Ref(SCOPE, 10) := Retire(FirstPublication(), Replaced), Ref(SCOPE, 11) := SecondPublication()],
                    11, {0, 1}, {FIRST, SECOND})
    requires s.repo.actions == map[]
    ensures var a := Rolling(SCOPE, "corpus", 10, 11, REUSED);
            var s' := RunFrom(s, RollbackOps(a, Retire(FirstPublication(), Replaced), REUSED));
            Stands(s', map[Ref(SCOPE, 10) := RestoredPublication(),
              Ref(SCOPE, 11) := Retire(SecondPublication(), Replaced)],
                   10, {0, 1}, {FIRST, SECOND, REUSED})
  {
    hide RunFrom; hide Installed; hide Install; hide RollbackOps; hide PutAll; hide SwapBatch; hide DistinctKeys;
    hide Stamp; hide BodyOf; hide Published; hide Retire;
    hide Restored;
    BodyFields(0, "1", None);
    BodyFields(1, "2", Some(10));
    PublishedIs(BodyOf(0, "1", None), FIRST);
    RetiredBody(FirstPublication(), Replaced);
    SingleDocument(BodyOf(1, "2", Some(10)), SECOND, Replaced);
    RestoredIs();
    SingleInstalls(s.repo, SLOT, RetiredFor(s.repo, SLOT), RestoredPublication());
    RollbackRuns(s, SLOT, 10, REUSED);
    var ops := RollbackOps(Rolling(SCOPE, "corpus", 10, 11, REUSED), Retire(FirstPublication(), Replaced), REUSED);
    InstalledOver(s.repo, RunFrom(s, ops).repo, RestoredPublication());
  }

  lemma RetiredBody(p: Publication, state: PublicationState)
    ensures Retire(p, state).body == p.body && Retire(p, state).previous == p.previous && Retire(p, state).id == p.id
  {
  }

  lemma StillUnused(s: State)
    requires s.repo.candidates.Keys == (set id | id in {0, 1} :: Ref(SCOPE, id))
    requires s.approvals.checkpoints.Keys ==
      (set ids | ids in {FIRST, SECOND, REUSED} :: CheckpointRef(SCOPE, ids.approvalId))
    requires s.approvals.resumes.Keys == (set ids | ids in {FIRST, SECOND, REUSED} :: ids.resumeId)
    ensures Unused(s.approvals, SCOPE, THIRD) && Ref(SCOPE, 2) !in s.repo.candidates
  {
  }

  lemma Stage4(s: State)
    requires Stands(s,
      map[Ref(SCOPE, 10) := RestoredPublication(), Ref(SCOPE, 11) := Retire(SecondPublication(), Replaced)],
                    10, {0, 1}, {FIRST, SECOND, REUSED})
    ensures var r := RunFrom(s, PublishOps(BodyOf(2, "3", Some(10)), THIRD)).repo;
            && Ref(SCOPE, 11) in r.publications
            && r.publications[Ref(SCOPE, 11)] == Retire(SecondPublication(), Replaced)
            && Ref(SCOPE, 12) in r.publications && r.publications[Ref(SCOPE, 12)] == ThirdPublication()
  {
    hide RunFrom; hide Installed; hide Install; hide PublishOps; hide Passes; hide PutAll; hide SwapBatch;
    hide DistinctKeys; hide Stamp; hide BodyOf; hide Published;
    hide NewPublication; hide Retire; hide Restored; hide RestoredPublication;
    var body := BodyOf(2, "3", Some(10));
    StillUnused(s);
    hide Stands; hide Unused;
    BodyFields(2, "3", Some(10));
    BodyPasses(s.repo, 2, "3", Some(10));
    RestoredIs();
    SingleDocument(body, THIRD, Current);
    SingleInstalls(s.repo, SLOT, RetiredFor(s.repo, SLOT), ThirdPublication());
    PublishedIs(body, THIRD);
    PublishRuns(s, body, THIRD);
    InstalledOver(s.repo, RunFrom(s, PublishOps(body, THIRD)).repo, ThirdPublication());
  }

  /** Without new rollback identifiers the history forks: from an empty start every call of this
      run is accepted, it is not a fresh run, and at its end the publications 11 and 12 both
      name 10 as their predecessor. */
  lemma ReusedIdentifierForks()
    ensures !FreshRun(START, ForkingOps())
    ensures var r := RunFrom(START, ForkingOps()).repo;
            var a, b := Ref(SCOPE, 11), Ref(SCOPE, 12);
            && a in r.publications && b in r.publications && a != b
            && r.publications[a].previous == Some(10) && r.publications[b].previous == Some(10)
  {
    hide RunFrom; hide FreshRun; hide PublishOps; hide RollbackOps; hide Retire; hide Published; hide BodyOf;
    hide Restored;
    hide RestoredPublication;
    var first, second := PublishOps(BodyOf(0, "1", None), FIRST), PublishOps(BodyOf(1, "2", Some(10)), SECOND);
    var third := RollbackOps(Rolling(SCOPE, "corpus", 10, 11, REUSED), Retire(FirstPublication(), Replaced), REUSED);
    var fourth := PublishOps(BodyOf(2, "3", Some(10)), THIRD);
    var s1 := RunFrom(START, first);
    var s2 := RunFrom(s1, second);
    var s3 := RunFrom(s2, third);
    assert ForkingOps() == first + second + third + fourth;
    RunBoth(START, first, second);
    RunBoth(START, first + second, third);
    RunBoth(START, first + second + third, fourth);
    Stage1();
    Stage2(s1);
    Stage3(s2);
    Stage4(s3);
    BodyFields(1, "2", Some(10));
    BodyFields(2, "3", Some(10));
    PublishedIs(BodyOf(1, "2", Some(10)), SECOND);
    PublishedIs(BodyOf(2, "3", Some(10)), THIRD);
    RetiredBody(SecondPublication(), Replaced);
    if FreshRun(START, ForkingOps()) {
      HistoryNeverForks(ForkingOps(), Ref(SCOPE, 11), Ref(SCOPE, 12));
    }
  }
}
