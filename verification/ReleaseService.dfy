/**
 The release service of knowledge/release.py over its repository and its approval checkpoints.
 A call that ends in a commit is two steps: everything up to the commit, which leaves an
 intent in flight, and the commit itself, so that any number of calls may interleave.
 */
module ReleaseService {
  import opened Common
  import opened KnowledgeIndex
  import opened Release

  // ---------------------------------------------------------------------
  // Approval checkpoints, as far as releases see them
  // ---------------------------------------------------------------------

  datatype Verb = PublishVerb | WithdrawVerb | RollbackVerb

  /** What an approval is bound to; the hash of a value stands for the value. */
  datatype Digest = OfCandidate(body: Body) | OfAction(action: ActionBody)

  datatype ProjectRef = ProjectRef(tenant: Uuid, project: Uuid, approvalId: Uuid)

  datatype Checkpoint = Checkpoint(
    scope: Scope, verb: Verb, targetId: Uuid, digest: Digest, approved: bool, grant: Option<Uuid>)

  datatype Resumption = Resumption(key: ProjectRef, digest: Digest)

  datatype Approvals = Approvals(checkpoints: map<ProjectRef, Checkpoint>, resumes: map<Uuid, Resumption>)

  function CheckpointRef(scope: Scope, approvalId: Uuid): ProjectRef {
    ProjectRef(scope.tenant, scope.project, approvalId)
  }

  /** ApprovalService.create: a repeated identifier must repeat the request. */
  function Request(a: Approvals, scope: Scope, approvalId: Uuid, verb: Verb, targetId: Uuid, digest: Digest)
    : Result<Approvals, Code>
  {
    var key := CheckpointRef(scope, approvalId);
    if key !in a.checkpoints then
      Ok(a.(checkpoints := a.checkpoints[key := Checkpoint(scope, verb, targetId, digest, false, None)]))
    else
      var c := a.checkpoints[key];
      if c.(approved := false, grant := None) == Checkpoint(scope, verb, targetId, digest, false, None) then Ok(a)
      else Err(ApprovalConflict)
  }

  /** _require_checkpoint. */
  function Bound(a: Approvals, scope: Scope, approvalId: Uuid, verb: Verb, targetId: Uuid,
        digest: Digest): Result<(), Code> {
    var key := CheckpointRef(scope, approvalId);
    if key !in a.checkpoints then Err(NotApproved)
    else if a.checkpoints[key].scope != scope then Err(ScopeDenied)
    else if a.checkpoints[key].verb != verb || a.checkpoints[key].targetId != targetId
      || a.checkpoints[key].digest != digest
    then Err(BindingInvalid)
    else Ok(())
  }

  /** ApprovalService.resume: one grant for each checkpoint, returned again to the same resume identifier. */
  function Resume(a: Approvals, resumeId: Uuid, scope: Scope, approvalId: Uuid,
        digest: Digest): (Approvals, Result<Uuid, Code>) {
    var key := CheckpointRef(scope, approvalId);
    if key !in a.checkpoints then (a, Err(NotApproved))
    else if resumeId in a.resumes then
      (a, if a.resumes[resumeId] == Resumption(key, digest) then Ok(resumeId) else Err(ResumeConflict))
    else if a.checkpoints[key].grant.Some? then (a, Err(GrantReplayed))
    else if !a.checkpoints[key].approved then (a, Err(NotApproved))
    else if a.checkpoints[key].digest != digest then (a, Err(BindingInvalid))
    else
      (Approvals(a.checkpoints[key := a.checkpoints[key].(grant := Some(resumeId))],
                 a.resumes[resumeId := Resumption(key, digest)]),
       Ok(resumeId))
  }

  // ---------------------------------------------------------------------
  // Service calls
  // ---------------------------------------------------------------------

  datatype Intent =
    | ToPublish(candidate: Candidate, publication: Publication)
    | ToWithdraw(action: Action, grant: Uuid)
    | ToRollBack(action: Action, grant: Uuid, restored: Publication)

  datatype State = State(repo: Repository, approvals: Approvals, intents: set<Intent>)

  datatype Reply = Done | Refused(code: Code) | Answered(publication: Publication) | InFlight(intent: Intent)

  datatype Op =
    | CreateCandidate(body: Body)
    | Validate(scope: Scope, candidateId: Uuid, standardsUsable: bool)
    | Review(scope: Scope, candidateId: Uuid)
    | RequestPublish(scope: Scope, candidateId: Uuid, approvalId: Uuid)
    | Approve(key: ProjectRef)
    | Publish(scope: Scope, candidateId: Uuid, publicationId: Uuid, resumeId: Uuid)
    | RequestAction(scope: Scope, operationId: Uuid, approvalId: Uuid, kind: ActionKind, target: Uuid)
    | Withdrawing(scope: Scope, operationId: Uuid, resumeId: Uuid)
    | RollingBack(scope: Scope, operationId: Uuid, resumeId: Uuid)
    | Commit(intent: Intent)
    | FailNext

  function Create(r: Repository, body: Body): (Repository, Reply) {
    var ref := Ref(body.scope, body.candidateId);
    if exists i :: 0 <= i < |body.snapshots| && body.snapshots[i].scope != body.scope then (r, Refused(ScopeDenied))
    else if ref in r.candidates then (r, if r.candidates[ref].body == body then Done else Refused(CandidateConflict))
    else if CurrentId(r, Slot(body.scope, body.corpusId)) != body.base then (r, Refused(BaseStale))
    else (r.(candidates := r.candidates[ref := Candidate(body, CandidateDraft, false, None, None)]), Done)
  }

  /** `_validation_codes` finds nothing; usable standards and distinct chunks are an input. */
  predicate Passes(r: Repository, b: Body, standardsUsable: bool) {
    && CurrentId(r, Slot(b.scope, b.corpusId)) == b.base
    && (forall i, j :: 0 <= i < j < |b.snapshots| ==> b.snapshots[i].snapshotId != b.snapshots[j].snapshotId)
    && (forall i, j :: 0 <= i < j < |b.snapshots| ==> b.snapshots[i].documentId != b.snapshots[j].documentId)
    && (forall i :: 0 <= i < |b.snapshots| ==>
          var x := b.snapshots[i];
          && x.scope == b.scope && x.status == Draft && x.corpusId == b.corpusId && x.corpusVersion == b.corpusVersion
          && x.indexVersion == b.indexVersion && x.embeddingVersion == b.embeddingVersion)
    && standardsUsable
  }

  function ValidateCandidate(r: Repository, ref: Ref, standardsUsable: bool): (Repository, Reply) {
    if ref !in r.candidates then (r, Refused(CandidateNotFound))
    else
      var c := r.candidates[ref];
      if c.state != CandidateDraft then (r, Done)
      else
        var state := if Passes(r, c.body, standardsUsable) then ReviewRequired else CandidateFailed;
        (r.(candidates := r.candidates[ref := c.(state := state)]), Done)
  }

  function RecordReview(r: Repository, ref: Ref): (Repository, Reply) {
    if ref !in r.candidates then (r, Refused(CandidateNotFound))
    else if r.candidates[ref].state != ReviewRequired then (r, Refused(ReviewMissing))
    else (r.(candidates := r.candidates[ref := r.candidates[ref].(reviewed := true)]), Done)
  }

  function RequestPublishApproval(s: State, ref: Ref, approvalId: Uuid): (State, Reply) {
    var r := s.repo;
    if ref !in r.candidates then (s, Refused(CandidateNotFound))
    else
      var c := r.candidates[ref];
      if c.state != ReviewRequired || !c.reviewed then (s, Refused(ReviewMissing))
      else if c.approvalId.Some? && c.approvalId.value != approvalId then (s, Refused(ApprovalConflict))
      else match Request(s.approvals, ref.scope, approvalId, PublishVerb, c.body.candidateId, OfCandidate(c.body))
        case Err(code) => (s, Refused(code))
        case Ok(a) =>
          (s.(approvals := a, repo := r.(candidates := r.candidates[ref := c.(approvalId := Some(approvalId))])), Done)
  }

  function Found(r: Repository, ref: Ref): Reply {
    if ref in r.publications then Answered(r.publications[ref]) else Refused(PublicationNotFound)
  }

  function NewPublication(c: Candidate, publicationId: Uuid, grant: Uuid): Publication {
    Publication(publicationId, c.body, Current, Stamp(c.body.snapshots, Published), c.body.base, None, grant)
  }

  /** `publish` up to its commit. */
  function PreparePublish(s: State, ref: Ref, publicationId: Uuid, resumeId: Uuid): (State, Reply) {
    var r := s.repo;
    if ref !in r.candidates then (s, Refused(CandidateNotFound))
    else
      var c := r.candidates[ref];
      if c.state == CandidatePublished && c.publicationId == Some(publicationId)
        then (s, Found(r, Ref(ref.scope, publicationId)))
      else if c.state != ReviewRequired || !c.reviewed || c.approvalId.None? then (s, Refused(PublicationNotReady))
      else
        var digest := OfCandidate(c.body);
        match Bound(s.approvals, ref.scope, c.approvalId.value, PublishVerb, c.body.candidateId, digest)
        case Err(code) => (s, Refused(code))
        case Ok(_) =>
          if CurrentId(r, Slot(ref.scope, c.body.corpusId)) != c.body.base then (s, Refused(BaseStale))
          else
            var (a, grant) := Resume(s.approvals, resumeId, ref.scope, c.approvalId.value, digest);
            if grant.Err? then (s, Refused(grant.error))
            else
              var intent := ToPublish(c, NewPublication(c, publicationId, grant.value));
              (s.(approvals := a, intents := s.intents + {intent}), InFlight(intent))
  }

  /** The action is stored before its checkpoint is requested, and stays if that is refused. */
  function NewAction(s: State, scope: Scope, operationId: Uuid, approvalId: Uuid, kind: ActionKind,
        target: Uuid): (State, Reply) {
    var r := s.repo;
    if Ref(scope, target) !in r.publications then (s, Refused(PublicationNotFound))
    else
      var slot := Slot(scope, r.publications[Ref(scope, target)].body.corpusId);
      if slot !in r.current then (s, Refused(CurrentMissing))
      else if Ref(scope, r.current[slot]) !in r.publications then (s, Refused(PublicationNotFound))
      else if kind == Withdraw && r.current[slot] != target then (s, Refused(CurrentStale))
      else if kind == Rollback && r.current[slot] == target then (s, Refused(RollbackTargetCurrent))
      else
        var body := ActionBody(operationId, scope, kind, slot.corpusId, target, r.current[slot]);
        var action := Action(body, approvalId, None);
        var ref := Ref(scope, operationId);
        if ref in r.actions && r.actions[ref] != action then (s, Refused(ActionConflict))
        else
          var stored := s.(repo := r.(actions := r.actions[ref := action]));
          match Request(s.approvals, scope, approvalId, if kind == Withdraw then WithdrawVerb else RollbackVerb,
            operationId, OfAction(body))
          case Err(code) => (stored, Refused(code))
          case Ok(a) => (stored.(approvals := a), Done)
  }

  /** `withdraw` up to its commit. */
  function PrepareWithdraw(s: State, ref: Ref, resumeId: Uuid): (State, Reply) {
    var r := s.repo;
    if ref !in r.actions then (s, Refused(ActionNotFound))
    else
      var action := r.actions[ref];
      var b := action.body;
      if b.kind != Withdraw then (s, Refused(ActionKindMismatch))
      else if action.grant.Some? then (s, Found(r, Ref(ref.scope, b.target)))
      else if CurrentId(r, Slot(b.scope, b.corpusId)) != Some(b.expectedCurrent) then (s, Refused(CurrentStale))
      else match Bound(s.approvals, ref.scope, action.approvalId, WithdrawVerb, b.id, OfAction(b))
        case Err(code) => (s, Refused(code))
        case Ok(_) =>
          var (a, grant) := Resume(s.approvals, resumeId, ref.scope, action.approvalId, OfAction(b));
          if grant.Err? then (s, Refused(grant.error))
          else
            var intent := ToWithdraw(action, grant.value);
            (s.(approvals := a, intents := s.intents + {intent}), InFlight(intent))
  }

  function Restored(action: Action, target: Publication, grant: Uuid): Publication {
    Publication(action.body.id, target.body, Current, Stamp(target.snapshots, Published),
                Some(action.body.expectedCurrent), Some(target.id), grant)
  }

  /** `rollback` up to its commit. */
  function PrepareRollback(s: State, ref: Ref, resumeId: Uuid): (State, Reply) {
    var r := s.repo;
    if ref !in r.actions then (s, Refused(ActionNotFound))
    else
      var action := r.actions[ref];
      var b := action.body;
      if b.kind != Rollback then (s, Refused(ActionKindMismatch))
      else if action.grant.Some? then (s, Found(r, Ref(ref.scope, ref.id)))
      else if CurrentId(r, Slot(b.scope, b.corpusId)) != Some(b.expectedCurrent) then (s, Refused(CurrentStale))
      else if Ref(ref.scope, b.target) !in r.publications then (s, Refused(PublicationNotFound))
      else match Bound(s.approvals, ref.scope, action.approvalId, RollbackVerb, b.id, OfAction(b))
        case Err(code) => (s, Refused(code))
        case Ok(_) =>
          var (a, grant) := Resume(s.approvals, resumeId, ref.scope, action.approvalId, OfAction(b));
          if grant.Err? then (s, Refused(grant.error))
          else
            var intent :=
              ToRollBack(action, grant.value, Restored(action, r.publications[Ref(ref.scope, b.target)], grant.value));
            (s.(approvals := a, intents := s.intents + {intent}), InFlight(intent))
  }

  function CommitIntent(r: Repository, intent: Intent): (Repository, Result<Publication, Code>) {
    match intent
    case ToPublish(c, p) => CommitPublication(r, c, p)
    case ToWithdraw(a, grant) => CommitWithdrawal(r, a, grant)
    case ToRollBack(a, grant, p) => CommitRollback(r, a, grant, p)
  }

  function Finish(s: State, intent: Intent): (State, Reply) {
    var (r', result) := CommitIntent(s.repo, intent);
    (s.(repo := r'), match result case Ok(p) => Answered(p) case Err(code) => Refused(code))
  }

  function OnRepository(s: State, change: (Repository, Reply)): (State, Reply) {
    (s.(repo := change.0), change.1)
  }

  function Step(s: State, op: Op): (State, Reply) {
    match op
    case CreateCandidate(body) => OnRepository(s, Create(s.repo, body))
    case Validate(scope, id, usable) => OnRepository(s, ValidateCandidate(s.repo, Ref(scope, id), usable))
    case Review(scope, id) => OnRepository(s, RecordReview(s.repo, Ref(scope, id)))
    case RequestPublish(scope, id, approvalId) => RequestPublishApproval(s, Ref(scope, id), approvalId)
    case Approve(key) =>
      (if key in s.approvals.checkpoints then
         s.(approvals :=
           s.approvals.(checkpoints := s.approvals.checkpoints[key := s.approvals.checkpoints[key].(approved := true)]))
       else s, Done)
    case Publish(scope, id, publicationId, resumeId) => PreparePublish(s, Ref(scope, id), publicationId, resumeId)
    case RequestAction(scope, id, approvalId, kind, target) => NewAction(s, scope, id, approvalId, kind, target)
    case Withdrawing(scope, id, resumeId) => PrepareWithdraw(s, Ref(scope, id), resumeId)
    case RollingBack(scope, id, resumeId) => PrepareRollback(s, Ref(scope, id), resumeId)
    case Commit(intent) => if intent in s.intents then Finish(s, intent) else (s, Done)
    case FailNext => (s.(repo := s.repo.(failNextCommit := true)), Done)
  }

  /** Operation identifiers of rollbacks are new among the publications when they commit. */
  predicate FreshOp(s: State, op: Op) {
    op.Commit? && op.intent.ToRollBack? && op.intent in s.intents ==> FreshRollback(s.repo, op.intent.action)
  }

  // ---------------------------------------------------------------------
  // Invariant
  // ---------------------------------------------------------------------

  ghost predicate CandidateOk(ref: Ref, c: Candidate) {
    && c.body.scope == ref.scope && c.body.candidateId == ref.id
    && (c.state == ReviewRequired || c.state == CandidatePublished ==> Sound(c.body))
  }

  /** An action names its target's corpus; a withdrawal targets the head it expects. */
  ghost predicate ActionOk(publications: map<Ref, Publication>, ref: Ref, a: Action) {
    && a.body.scope == ref.scope && a.body.id == ref.id
    && (a.body.kind == Withdraw ==> a.body.target == a.body.expectedCurrent)
    && Ref(ref.scope, a.body.target) in publications
    && SlotOf(publications[Ref(ref.scope, a.body.target)]) == Slot(ref.scope, a.body.corpusId)
  }

  ghost predicate IntentOk(intent: Intent) {
    match intent
    case ToPublish(c, p) => PublishReady(c, p) && p.restoredFrom.None? && c.reviewed
    case ToWithdraw(a, grant) => a.body.kind == Withdraw && a.body.target == a.body.expectedCurrent
    case ToRollBack(a, grant, p) =>
      a.body.kind == Rollback && RollbackReady(a, p) && p.restoredFrom == Some(a.body.target)
  }

  /** The grant came from a checkpoint that was approved for exactly this content. */
  ghost predicate Granted(a: Approvals, grant: Uuid, digest: Digest) {
    && grant in a.resumes && a.resumes[grant].digest == digest
    && var key := a.resumes[grant].key;
       && key in a.checkpoints && a.checkpoints[key].approved
       && a.checkpoints[key].digest == digest && a.checkpoints[key].grant == Some(grant)
  }

  ghost predicate ResumesOk(a: Approvals) {
    forall grant :: grant in a.resumes ==> Granted(a, grant, a.resumes[grant].digest)
  }

  ghost predicate IsRollbackOf(action: ActionBody, p: Publication) {
    action.kind == Rollback && action.id == p.id && p.restoredFrom == Some(action.target)
      && p.previous == Some(action.expectedCurrent)
  }

  /** Somebody approved this publication: the candidate itself, or the rollback that made it. */
  ghost predicate Authorised(a: Approvals, p: Publication) {
    if p.restoredFrom.None? then Granted(a, p.grant, OfCandidate(p.body))
    else exists action: ActionBody :: IsRollbackOf(action, p) && Granted(a, p.grant, OfAction(action))
  }

  ghost predicate IntentAuthorised(a: Approvals, intent: Intent) {
    match intent
    case ToPublish(c, p) => Granted(a, p.grant, OfCandidate(p.body))
    case ToWithdraw(action, grant) => Granted(a, grant, OfAction(action.body))
    case ToRollBack(action, grant, p) => p.grant == grant && Granted(a, grant, OfAction(action.body))
  }

  /** The candidate with this content is stored, was reviewed, and is published. */
  ghost predicate ReleasedFrom(candidates: map<Ref, Candidate>, body: Body) {
    var ref := Ref(body.scope, body.candidateId);
    ref in candidates && candidates[ref].body == body && candidates[ref].reviewed
      && candidates[ref].state == CandidatePublished
  }

  ghost predicate RecordsOk(r: Repository) {
    && (forall ref :: ref in r.publications ==> ReleasedFrom(r.candidates, r.publications[ref].body))
    && (forall ref :: ref in r.candidates ==> CandidateOk(ref, r.candidates[ref]))
    && (forall ref :: ref in r.actions ==> ActionOk(r.publications, ref, r.actions[ref]))
  }

  ghost predicate ApprovalsOk(s: State) {
    && ResumesOk(s.approvals)
    && (forall ref :: ref in s.repo.publications ==> Authorised(s.approvals, s.repo.publications[ref]))
    && (forall intent :: intent in s.intents ==> IntentAuthorised(s.approvals, intent))
  }

  /** An intent was read from the record stored under its identifier. */
  ghost predicate Recorded(r: Repository, intent: Intent) {
    match intent
    case ToPublish(c, p) =>
      var ref := Ref(c.body.scope, c.body.candidateId);
      ref in r.candidates && r.candidates[ref].body == c.body
    case ToWithdraw(a, _) => ActionStoredAs(r.actions, a)
    case ToRollBack(a, _, p) => ActionStoredAs(r.actions, a) && ReleasedFrom(r.candidates, p.body)
  }

  ghost predicate ActionStoredAs(actions: map<Ref, Action>, a: Action) {
    var ref := Ref(a.body.scope, a.body.id);
    ref in actions && actions[ref].body == a.body
  }

  ghost predicate IntentsOk(s: State) {
    forall intent :: intent in s.intents ==> IntentOk(intent) && Recorded(s.repo, intent)
  }

  ghost predicate ServiceInv(s: State) {
    Inv(s.repo) && RecordsOk(s.repo) && IntentsOk(s) && ApprovalsOk(s)
  }

  // ---------------------------------------------------------------------
  // Approvals only grow
  // ---------------------------------------------------------------------

  ghost predicate Grows(a: Approvals, a': Approvals) {
    forall grant, digest :: Granted(a, grant, digest) ==> Granted(a', grant, digest)
  }

  lemma ResumeGrants(a: Approvals, resumeId: Uuid, scope: Scope, approvalId: Uuid, digest: Digest)
    requires ResumesOk(a)
    ensures var (a', grant) := Resume(a, resumeId, scope, approvalId, digest);
            Grows(a, a') && ResumesOk(a') && (grant.Ok? ==> grant.value == resumeId && Granted(a', resumeId, digest))
  {
    var (a', result) := Resume(a, resumeId, scope, approvalId, digest);
    forall grant, d | Granted(a, grant, d) ensures Granted(a', grant, d) {
    }
    forall grant | grant in a'.resumes ensures Granted(a', grant, a'.resumes[grant].digest) {
      if grant in a.resumes {
        assert Granted(a, grant, a.resumes[grant].digest);
      }
    }
  }

  lemma CheckpointsGrow(a: Approvals, a': Approvals)
    requires ResumesOk(a) && a'.resumes == a.resumes
    requires forall key :: key in a.checkpoints ==>
               key in a'.checkpoints
               && (a'.checkpoints[key] == a.checkpoints[key]
                  || a'.checkpoints[key] == a.checkpoints[key].(approved := true))
    ensures Grows(a, a') && ResumesOk(a')
  {
    forall grant, d | Granted(a, grant, d) ensures Granted(a', grant, d) {
    }
  }

  lemma AuthorisedGrows(a: Approvals, a': Approvals, p: Publication)
    requires Grows(a, a') && Authorised(a, p)
    ensures Authorised(a', p)
  {
    hide Granted; hide IsRollbackOf;
    if p.restoredFrom.Some? {
      var action: ActionBody :| IsRollbackOf(action, p) && Granted(a, p.grant, OfAction(action));
      assert Granted(a', p.grant, OfAction(action));
    }
  }

  lemma ApprovalsKept(s: State, s': State)
    requires ApprovalsOk(s) && Grows(s.approvals, s'.approvals) && ResumesOk(s'.approvals)
    requires s'.repo.publications == s.repo.publications
    requires forall intent :: intent in s'.intents ==> IntentAuthorised(s'.approvals, intent)
    ensures ApprovalsOk(s')
  {
    hide Granted; hide Authorised;
    forall ref | ref in s'.repo.publications ensures Authorised(s'.approvals, s'.repo.publications[ref]) {
      AuthorisedGrows(s.approvals, s'.approvals, s.repo.publications[ref]);
    }
  }

  // ---------------------------------------------------------------------
  // What a step does to the history
  // ---------------------------------------------------------------------

  /** Only state and stamps of a publication ever change, and only while it is the head. */
  ghost predicate Kept(p: Publication, p': Publication) {
    && p'.id == p.id && p'.body == p.body && p'.previous == p.previous
    && p'.restoredFrom == p.restoredFrom && p'.grant == p.grant
    && (p.state != Current ==> p' == p)
  }

  /** A new publication follows what was the head of its slot, and is the head afterwards. */
  ghost predicate Succeeds(r: Repository, ref: Ref, p: Publication, r': Repository) {
    p.previous == CurrentId(r, SlotOf(p)) && CurrentId(r', SlotOf(p)) == Some(ref.id)
  }

  ghost predicate Evolves(r: Repository, r': Repository) {
    && (forall ref ::
       ref in r.publications ==> ref in r'.publications && Kept(r.publications[ref], r'.publications[ref]))
    && (forall ref :: ref in r'.publications && ref !in r.publications ==> Succeeds(r, ref, r'.publications[ref], r'))
  }

  /** A commit adds at most the publication of its intent. */
  ghost predicate AddsOnly(r: Repository, intent: Intent, r': Repository) {
    forall ref :: ref in r'.publications && ref !in r.publications ==>
      match intent
      case ToPublish(c, p) => r'.publications[ref] == p
      case ToWithdraw(a, grant) => false
      case ToRollBack(a, grant, p) => r'.publications[ref] == p
  }

  lemma AdvanceEvolves(r: Repository, slot: Slot, incoming: Publication, r': Repository)
    requires HeadsOk(r) && Follows(r, slot, incoming) && Advanced(r, slot, incoming, r')
    ensures Evolves(r, r')
    ensures forall ref :: ref in r'.publications && ref !in r.publications ==> r'.publications[ref] == incoming
  {
    hide PublicationOk; hide Stamp;
    forall ref | ref in r.publications
      ensures ref in r'.publications && Kept(r.publications[ref], r'.publications[ref])
    {
    }
  }

  /** When a call of `Install` is the whole effect of a commit on publications and heads. */
  lemma InstalledEvolves(r: Repository, slot: Slot, incoming: Publication, r': Repository)
    requires Inv(r) && Follows(r, slot, incoming)
    requires var installed := Install(r, slot, RetiredHead(r, slot), incoming);
             installed.Ok? && r'.publications == installed.value.publications && r'.current == installed.value.current
    ensures Evolves(r, r')
    ensures forall ref :: ref in r'.publications && ref !in r.publications ==> r'.publications[ref] == incoming
  {
    hide PublicationsOk; hide HeadsOk; hide IndexOk; hide LinearOk; hide Install; hide Follows;
    var installed := Install(r, slot, RetiredHead(r, slot), incoming).value;
    InstallAdvances(r, slot, incoming);
    AdvanceEvolves(r, slot, incoming, installed);
    forall ref | ref in r'.publications && ref !in r.publications ensures Succeeds(r, ref, r'.publications[ref], r') {
      assert Succeeds(r, ref, installed.publications[ref], installed);
    }
  }

  lemma PublicationEvolves(r: Repository, c: Candidate, p: Publication)
    requires Inv(r) && PublishReady(c, p)
    ensures Evolves(r, CommitPublication(r, c, p).0) && AddsOnly(r, ToPublish(c, p), CommitPublication(r, c, p).0)
  {
    hide PublicationsOk; hide HeadsOk; hide IndexOk; hide LinearOk; hide Install; hide PublicationOk; hide Stamp;
    var slot := Slot(c.body.scope, c.body.corpusId);
    var r' := CommitPublication(r, c, p).0;
    HeadStored(r, slot);
    if r'.publications != r.publications {
      InstalledEvolves(r, slot, p, r');
    }
  }

  lemma RollbackEvolves(r: Repository, a: Action, grant: Uuid, p: Publication)
    requires Inv(r) && RollbackReady(a, p) && FreshRollback(r, a)
    ensures Evolves(r, CommitRollback(r, a, grant, p).0)
      && AddsOnly(r, ToRollBack(a, grant, p), CommitRollback(r, a, grant, p).0)
  {
    hide PublicationsOk; hide HeadsOk; hide IndexOk; hide LinearOk; hide Install; hide PublicationOk; hide Stamp;
    var slot := Slot(a.body.scope, a.body.corpusId);
    var r' := CommitRollback(r, a, grant, p).0;
    HeadStored(r, slot);
    if r'.publications != r.publications {
      InstalledEvolves(r, slot, p, r');
    }
  }

  lemma WithdrawalEvolves(r: Repository, a: Action, grant: Uuid)
    requires Inv(r) && a.body.target == a.body.expectedCurrent
    ensures Evolves(r, CommitWithdrawal(r, a, grant).0)
      && AddsOnly(r, ToWithdraw(a, grant), CommitWithdrawal(r, a, grant).0)
  {
    hide PublicationsOk; hide IndexOk; hide LinearOk; hide PublicationOk; hide Stamp; hide PutAll; hide DistinctKeys;
    var slot := Slot(a.body.scope, a.body.corpusId);
    if CurrentId(r, slot) == Some(a.body.expectedCurrent) {
      HeadRetires(r, slot, Recalled);
    }
  }

  // ---------------------------------------------------------------------
  // Every step keeps the invariant
  // ---------------------------------------------------------------------

  lemma CommitKeepsInv(r: Repository, intent: Intent)
    requires Inv(r) && IntentOk(intent)
    requires intent.ToRollBack? ==> FreshRollback(r, intent.action)
    ensures Inv(CommitIntent(r, intent).0)
    ensures Evolves(r, CommitIntent(r, intent).0) && AddsOnly(r, intent, CommitIntent(r, intent).0)
    ensures CommitIntent(r, intent).1 != Err(IndexDuplicate)
  {
    hide Inv; hide PublishReady; hide RollbackReady; hide FreshRollback; hide Evolves; hide AddsOnly;
    hide CommitPublication; hide CommitWithdrawal; hide CommitRollback;
    match intent
    case ToPublish(c, p) =>
      PublicationKeepsInv(r, c, p);
      PublicationEvolves(r, c, p);
    case ToWithdraw(a, grant) =>
      WithdrawalKeepsInv(r, a, grant);
      WithdrawalEvolves(r, a, grant);
    case ToRollBack(a, grant, p) =>
      RollbackKeepsInv(r, a, grant, p);
      RollbackEvolves(r, a, grant, p);
  }

  /** Stored actions and candidates keep their content, and what is released stays released. */
  ghost predicate RecordsKept(r: Repository, r': Repository) {
    && (forall ref :: ref in r.actions ==> ref in r'.actions && r'.actions[ref].body == r.actions[ref].body)
    && (forall ref ::
       ref in r.candidates ==> ref in r'.candidates && CandidateKept(r.candidates[ref], r'.candidates[ref]))
  }

  ghost predicate CandidateKept(c: Candidate, c': Candidate) {
    && c'.body == c.body
    && (c.state == CandidatePublished && c.reviewed ==> c'.state == CandidatePublished && c'.reviewed)
  }

  /** What the three commits write besides publications, heads and index. */
  lemma CommitWrites(r: Repository, intent: Intent)
    ensures var r' := CommitIntent(r, intent).0;
            match intent
            case ToPublish(c, p) =>
              && r'.actions == r.actions
              && (r'.candidates == r.candidates
                  || r'.candidates == r.candidates[Ref(c.body.scope, c.body.candidateId) :=
                                                   c.(state := CandidatePublished, publicationId := Some(p.id))])
            case ToWithdraw(a, grant) =>
              && r'.candidates == r.candidates
              && (r'.actions == r.actions
                  || (Ref(a.body.scope, a.body.id) in r.actions
                      && r'.actions == r.actions[Ref(a.body.scope, a.body.id) := a.(grant := Some(grant))]))
            case ToRollBack(a, grant, p) =>
              && r'.candidates == r.candidates
              && (r'.actions == r.actions
                  || (Ref(a.body.scope, a.body.id) in r.actions
                      && r'.actions == r.actions[Ref(a.body.scope, a.body.id) := a.(grant := Some(grant))]))
  {
    hide Retire; hide PutAll; hide SwapBatch; hide DistinctKeys;
  }

  lemma CommitKeepsStored(r: Repository, intent: Intent)
    requires IntentOk(intent) && Recorded(r, intent)
    ensures RecordsKept(r, CommitIntent(r, intent).0)
    ensures CommitIntent(r, intent).0.actions.Keys == r.actions.Keys
  {
    hide CommitIntent; hide PublishReady; hide RollbackReady;
    CommitWrites(r, intent);
  }

  lemma ReleasedStays(r: Repository, r': Repository, body: Body)
    requires RecordsKept(r, r') && ReleasedFrom(r.candidates, body)
    ensures ReleasedFrom(r'.candidates, body)
  {
  }

  lemma RecordedStays(r: Repository, r': Repository, intent: Intent)
    requires RecordsKept(r, r') && Recorded(r, intent)
    ensures Recorded(r', intent)
  {
    if intent.ToRollBack? {
      ReleasedStays(r, r', intent.restored.body);
    }
  }

  /** What a commit adds comes from a reviewed, published candidate. */
  lemma AddedIsReleased(r: Repository, intent: Intent, ref: Ref)
    requires IntentOk(intent) && Recorded(r, intent) && AddsOnly(r, intent, CommitIntent(r, intent).0)
    requires ref in CommitIntent(r, intent).0.publications && ref !in r.publications
    ensures ReleasedFrom(CommitIntent(r, intent).0.candidates, CommitIntent(r, intent).0.publications[ref].body)
  {
    hide Retire; hide PutAll; hide SwapBatch; hide DistinctKeys; hide RollbackReady; hide PublicationOk;
    if intent.ToRollBack? {
      CommitKeepsStored(r, intent);
      ReleasedStays(r, CommitIntent(r, intent).0, intent.restored.body);
    }
  }

  lemma CommitKeepsCandidates(r: Repository, intent: Intent, ref: Ref)
    requires IntentOk(intent) && (ref in r.candidates ==> CandidateOk(ref, r.candidates[ref]))
    ensures var r' := CommitIntent(r, intent).0;
            ref in r'.candidates ==> CandidateOk(ref, r'.candidates[ref])
  {
    hide Retire; hide PutAll; hide SwapBatch; hide DistinctKeys; hide Sound; hide Stamp;
  }

  lemma ActionStays(r: Repository, r': Repository, ref: Ref, a: Action, a': Action)
    requires ActionOk(r.publications, ref, a) && Evolves(r, r') && a'.body == a.body
    ensures ActionOk(r'.publications, ref, a')
  {
  }

  lemma CommitKeepsRecords(r: Repository, intent: Intent)
    requires Inv(r) && RecordsOk(r) && IntentOk(intent) && Recorded(r, intent)
    requires intent.ToRollBack? ==> FreshRollback(r, intent.action)
    ensures RecordsOk(CommitIntent(r, intent).0)
  {
    hide Inv; hide IntentOk; hide Recorded; hide FreshRollback; hide CommitIntent; hide CandidateOk; hide ActionOk;
    hide Evolves;
    hide AddsOnly; hide ReleasedFrom;
    var r' := CommitIntent(r, intent).0;
    CommitKeepsInv(r, intent);
    CommitKeepsStored(r, intent);
    forall ref | ref in r'.publications ensures ReleasedFrom(r'.candidates, r'.publications[ref].body) {
      if ref in r.publications {
        KeptBody(r, r', ref);
        ReleasedStays(r, r', r.publications[ref].body);
      } else {
        AddedIsReleased(r, intent, ref);
      }
    }
    forall ref | ref in r'.candidates ensures CandidateOk(ref, r'.candidates[ref]) {
      CommitKeepsCandidates(r, intent, ref);
    }
    forall ref | ref in r'.actions ensures ActionOk(r'.publications, ref, r'.actions[ref]) {
      ActionStays(r, r', ref, r.actions[ref], r'.actions[ref]);
    }
  }

  lemma KeptBody(r: Repository, r': Repository, ref: Ref)
    requires Evolves(r, r') && ref in r.publications
    ensures ref in r'.publications && r'.publications[ref].body == r.publications[ref].body
  {
  }

  lemma KeptAuthorised(a: Approvals, p: Publication, p': Publication)
    requires Kept(p, p') && Authorised(a, p)
    ensures Authorised(a, p')
  {
    hide Granted;
    if p.restoredFrom.Some? {
      var action: ActionBody :| IsRollbackOf(action, p) && Granted(a, p.grant, OfAction(action));
      assert IsRollbackOf(action, p');
    }
  }

  lemma IntentPublicationAuthorised(a: Approvals, intent: Intent)
    requires IntentOk(intent) && IntentAuthorised(a, intent)
    ensures intent.ToPublish? ==> Authorised(a, intent.publication)
    ensures intent.ToRollBack? ==> Authorised(a, intent.restored)
  {
    hide Granted; hide PublicationOk;
    if intent.ToRollBack? {
      assert IsRollbackOf(intent.action.body, intent.restored);
    }
  }

  lemma CommitKeepsApprovals(s: State, intent: Intent)
    requires ServiceInv(s) && intent in s.intents
    requires intent.ToRollBack? ==> FreshRollback(s.repo, intent.action)
    ensures ApprovalsOk(Finish(s, intent).0)
  {
    hide Inv; hide IntentOk; hide Recorded; hide FreshRollback; hide CommitIntent; hide RecordsOk; hide Authorised;
    hide ResumesOk;
    hide IntentAuthorised; hide Kept; hide Succeeds;
    CommitKeepsInv(s.repo, intent);
    IntentPublicationAuthorised(s.approvals, intent);
    var r' := CommitIntent(s.repo, intent).0;
    forall ref | ref in r'.publications ensures Authorised(s.approvals, r'.publications[ref]) {
      if ref in s.repo.publications {
        KeptAuthorised(s.approvals, s.repo.publications[ref], r'.publications[ref]);
      }
    }
  }

  lemma FinishKeepsInv(s: State, intent: Intent)
    requires ServiceInv(s) && intent in s.intents
    requires intent.ToRollBack? ==> FreshRollback(s.repo, intent.action)
    ensures ServiceInv(Finish(s, intent).0) && Evolves(s.repo, Finish(s, intent).0.repo)
    ensures Finish(s, intent).1 != Refused(IndexDuplicate)
  {
    hide Inv; hide IntentOk; hide FreshRollback; hide CommitIntent; hide RecordsOk; hide ApprovalsOk; hide Evolves;
    CommitKeepsInv(s.repo, intent);
    CommitKeepsRecords(s.repo, intent);
    CommitKeepsApprovals(s, intent);
    CommitKeepsStored(s.repo, intent);
    forall other | other in s.intents ensures Recorded(Finish(s, intent).0.repo, other) {
      RecordedStays(s.repo, Finish(s, intent).0.repo, other);
    }
  }

  /** A step that leaves publications, heads and index alone. */
  ghost predicate Untouched(r: Repository, r': Repository) {
    r'.publications == r.publications && r'.current == r.current && r'.index == r.index
  }

  lemma UntouchedKeepsInv(s: State, s': State)
    requires ServiceInv(s) && Untouched(s.repo, s'.repo)
    requires RecordsOk(s'.repo) && RecordsKept(s.repo, s'.repo)
    requires Grows(s.approvals, s'.approvals) && ResumesOk(s'.approvals)
    requires forall intent :: intent in s'.intents && intent !in s.intents ==>
               IntentOk(intent) && Recorded(s'.repo, intent) && IntentAuthorised(s'.approvals, intent)
    ensures ServiceInv(s') && Evolves(s.repo, s'.repo)
  {
    hide IntentOk; hide RecordsOk; hide IntentAuthorised; hide Granted; hide PublicationsOk; hide HeadsOk;
    hide IndexOk; hide LinearOk;
    hide ResumesOk; hide Authorised; hide Grows;
    hide Recorded; hide RecordsKept;
    FlagIrrelevant(s.repo, s'.repo);
    forall intent | intent in s.intents ensures Recorded(s'.repo, intent) {
      RecordedStays(s.repo, s'.repo, intent);
    }
    ApprovalsKept(s, s') by {
      forall intent | intent in s.intents ensures IntentAuthorised(s'.approvals, intent) {
        IntentGrows(s.approvals, s'.approvals, intent);
      }
    }
  }

  lemma IntentGrows(a: Approvals, a': Approvals, intent: Intent)
    requires Grows(a, a') && IntentAuthorised(a, intent)
    ensures IntentAuthorised(a', intent)
  {
    hide Granted;
  }

  /** Storing one candidate. */
  lemma CandidateStored(s: State, ref: Ref, c: Candidate, a: Approvals)
    requires ServiceInv(s) && CandidateOk(ref, c) && Grows(s.approvals, a) && ResumesOk(a)
    requires ref in s.repo.candidates ==> CandidateKept(s.repo.candidates[ref], c)
    ensures var s' := State(s.repo.(candidates := s.repo.candidates[ref := c]), a, s.intents);
            ServiceInv(s') && Evolves(s.repo, s'.repo)
  {
    hide Inv; hide IntentOk; hide IntentAuthorised; hide ApprovalsOk; hide ActionOk; hide Evolves; hide CandidateOk;
    hide Grows; hide ResumesOk;
    var s' := State(s.repo.(candidates := s.repo.candidates[ref := c]), a, s.intents);
    forall p | p in s.repo.publications ensures ReleasedFrom(s'.repo.candidates, s.repo.publications[p].body) {
      ReleasedStays(s.repo, s'.repo, s.repo.publications[p].body);
    }
    UntouchedKeepsInv(s, s');
  }

  /** Storing one action that is new or was already stored. */
  lemma ActionStored(s: State, ref: Ref, action: Action, a: Approvals)
    requires ServiceInv(s) && ActionOk(s.repo.publications, ref, action) && Grows(s.approvals, a) && ResumesOk(a)
    requires ref in s.repo.actions ==> s.repo.actions[ref] == action
    ensures var s' := State(s.repo.(actions := s.repo.actions[ref := action]), a, s.intents);
            ServiceInv(s') && Evolves(s.repo, s'.repo)
  {
    hide Inv; hide IntentOk; hide IntentAuthorised; hide ApprovalsOk; hide ActionOk; hide Evolves; hide CandidateOk;
    hide Grows; hide ResumesOk;
    UntouchedKeepsInv(s, State(s.repo.(actions := s.repo.actions[ref := action]), a, s.intents));
  }

  /** Putting one intent in flight. */
  lemma IntentStarted(s: State, a: Approvals, intent: Intent)
    requires ServiceInv(s) && Grows(s.approvals, a) && ResumesOk(a)
    requires IntentOk(intent) && Recorded(s.repo, intent) && IntentAuthorised(a, intent)
    ensures ServiceInv(State(s.repo, a, s.intents + {intent})) && Evolves(s.repo, s.repo)
  {
    hide Inv; hide IntentOk; hide IntentAuthorised; hide ApprovalsOk; hide RecordsOk; hide Evolves; hide Grows;
    hide ResumesOk; hide Recorded;
    UntouchedKeepsInv(s, State(s.repo, a, s.intents + {intent}));
  }

  lemma CandidateStepsKeepInv(s: State, op: Op)
    requires ServiceInv(s) && (op.CreateCandidate? || op.Validate? || op.Review?)
    ensures ServiceInv(Step(s, op).0) && Evolves(s.repo, Step(s, op).0.repo)
  {
    hide Inv; hide IntentsOk; hide ApprovalsOk; hide ActionOk; hide Evolves; hide Sound;
    hide Grows; hide ResumesOk; hide Passes;
    ApprovalsUnchanged(s);
    SameEvolves(s.repo);
    var s' := Step(s, op).0;
    var ref := if op.CreateCandidate? then Ref(op.body.scope, op.body.candidateId) else Ref(op.scope, op.candidateId);
    if op.Validate? && ref in s.repo.candidates && Passes(s.repo, s.repo.candidates[ref].body, op.standardsUsable) {
      PassesSound(s.repo, s.repo.candidates[ref].body, op.standardsUsable);
    }
    if s' != s {
      CandidateStored(s, ref, s'.repo.candidates[ref], s.approvals);
    }
  }

  lemma PassesSound(r: Repository, b: Body, standardsUsable: bool)
    requires Passes(r, b, standardsUsable)
    ensures Sound(b)
  {
  }

  lemma ApprovalsUnchanged(s: State)
    requires ApprovalsOk(s)
    ensures Grows(s.approvals, s.approvals) && ResumesOk(s.approvals)
  {
  }

  lemma RequestKeeps(a: Approvals, scope: Scope, approvalId: Uuid, verb: Verb, targetId: Uuid, digest: Digest)
    requires ResumesOk(a)
    ensures var result := Request(a, scope, approvalId, verb, targetId, digest);
            result.Ok? ==> Grows(a, result.value) && ResumesOk(result.value)
  {
    hide ResumesOk; hide Grows;
    var result := Request(a, scope, approvalId, verb, targetId, digest);
    if result.Ok? {
      CheckpointsGrow(a, result.value);
    }
  }

  lemma RequestPublishKeepsInv(s: State, op: Op)
    requires ServiceInv(s) && op.RequestPublish?
    ensures ServiceInv(Step(s, op).0) && Evolves(s.repo, Step(s, op).0.repo)
  {
    hide Inv; hide IntentsOk; hide ApprovalsOk; hide ActionOk; hide Evolves; hide Sound; hide Request; hide Grows;
    hide ResumesOk;
    var s' := Step(s, op).0;
    var ref := Ref(op.scope, op.candidateId);
    ApprovalsUnchanged(s);
    SameEvolves(s.repo);
    if s' != s {
      var c := s.repo.candidates[ref];
      RequestKeeps(s.approvals, op.scope, op.approvalId, PublishVerb, c.body.candidateId, OfCandidate(c.body));
      CandidateStored(s, ref, c.(approvalId := Some(op.approvalId)), s'.approvals);
    }
  }

  lemma NewActionKeepsInv(s: State, op: Op)
    requires ServiceInv(s) && op.RequestAction?
    ensures ServiceInv(Step(s, op).0) && Evolves(s.repo, Step(s, op).0.repo)
  {
    hide Inv; hide IntentsOk; hide ApprovalsOk; hide RecordsOk; hide Evolves; hide Request; hide Grows; hide ResumesOk;
    var s' := Step(s, op).0;
    ApprovalsUnchanged(s);
    SameEvolves(s.repo);
    if s' != s {
      var target := Ref(op.scope, op.target);
      StoredPublication(s.repo, target);
      var slot := SlotOf(s.repo.publications[target]);
      var body := ActionBody(op.operationId, op.scope, op.kind, slot.corpusId, op.target, s.repo.current[slot]);
      RequestKeeps(s.approvals, op.scope, op.approvalId, if op.kind == Withdraw then WithdrawVerb else RollbackVerb,
        op.operationId, OfAction(body));
      ActionStored(s, Ref(op.scope, op.operationId), Action(body, op.approvalId, None), s'.approvals);
    }
  }

  lemma StoredPublication(r: Repository, ref: Ref)
    requires Inv(r) && ref in r.publications
    ensures PublicationOk(ref, r.publications[ref]) && SlotOf(r.publications[ref]).scope == ref.scope
  {
  }

  lemma PublishIntentOk(c: Candidate, ref: Ref, publicationId: Uuid, grant: Uuid)
    requires CandidateOk(ref, c) && c.state == ReviewRequired && c.reviewed
    ensures IntentOk(ToPublish(c, NewPublication(c, publicationId, grant)))
    ensures c.body.scope == ref.scope && c.body.candidateId == ref.id
  {
    hide Sound; hide Stamp;
  }

  lemma PreparePublishKeepsInv(s: State, op: Op)
    requires ServiceInv(s) && op.Publish?
    ensures ServiceInv(Step(s, op).0) && Evolves(s.repo, Step(s, op).0.repo)
  {
    hide Inv; hide IntentsOk; hide ApprovalsOk; hide CandidateOk; hide ActionOk; hide Evolves; hide Granted;
    hide IntentOk; hide ResumesOk; hide Grows; hide Stamp;
    var s' := Step(s, op).0;
    ApprovalsUnchanged(s);
    SameEvolves(s.repo);
    if Step(s, op).1.InFlight? {
      var ref := Ref(op.scope, op.candidateId);
      var c := s.repo.candidates[ref];
      ResumeGrants(s.approvals, op.resumeId, op.scope, c.approvalId.value, OfCandidate(c.body));
      PublishIntentOk(c, ref, op.publicationId, op.resumeId);
      IntentStarted(s, s'.approvals, ToPublish(c, NewPublication(c, op.publicationId, op.resumeId)));
    }
  }

  lemma PrepareWithdrawKeepsInv(s: State, op: Op)
    requires ServiceInv(s) && op.Withdrawing?
    ensures ServiceInv(Step(s, op).0) && Evolves(s.repo, Step(s, op).0.repo)
  {
    hide Inv; hide IntentsOk; hide ApprovalsOk; hide CandidateOk; hide Evolves; hide Granted;
    hide ResumesOk; hide Grows; hide ReleasedFrom; hide Request;
    var s' := Step(s, op).0;
    ApprovalsUnchanged(s);
    SameEvolves(s.repo);
    if Step(s, op).1.InFlight? {
      var ref := Ref(op.scope, op.operationId);
      var action := s.repo.actions[ref];
      assert ActionOk(s.repo.publications, ref, action);
      ResumeGrants(s.approvals, op.resumeId, op.scope, action.approvalId, OfAction(action.body));
      IntentStarted(s, s'.approvals, ToWithdraw(action, op.resumeId));
    }
  }

  lemma RollbackIntentOk(r: Repository, ref: Ref, action: Action, grant: Uuid)
    requires Inv(r) && ActionOk(r.publications, ref, action) && action.body.kind == Rollback
    ensures IntentOk(ToRollBack(action, grant,
      Restored(action, r.publications[Ref(ref.scope, action.body.target)], grant)))
  {
    hide Sound; hide HeadsOk; hide IndexOk; hide LinearOk; hide Stamp;
    var target := Ref(ref.scope, action.body.target);
    StoredPublication(r, target);
    StampKeys(r.publications[target].body.snapshots, Published);
  }

  lemma PrepareRollbackKeepsInv(s: State, op: Op)
    requires ServiceInv(s) && op.RollingBack?
    ensures ServiceInv(Step(s, op).0) && Evolves(s.repo, Step(s, op).0.repo)
  {
    hide Inv; hide IntentsOk; hide ApprovalsOk; hide CandidateOk; hide Evolves; hide Granted;
    hide ResumesOk; hide Grows; hide ReleasedFrom; hide Request; hide IntentOk; hide Stamp;
    var s' := Step(s, op).0;
    ApprovalsUnchanged(s);
    SameEvolves(s.repo);
    if Step(s, op).1.InFlight? {
      var ref := Ref(op.scope, op.operationId);
      var action := s.repo.actions[ref];
      assert ActionOk(s.repo.publications, ref, action);
      ResumeGrants(s.approvals, op.resumeId, op.scope, action.approvalId, OfAction(action.body));
      RollbackIntentOk(s.repo, ref, action, op.resumeId);
      IntentStarted(s, s'.approvals, ToRollBack(action, op.resumeId,
        Restored(action, s.repo.publications[Ref(ref.scope, action.body.target)], op.resumeId)));
    }
  }

  lemma EnvironmentKeepsInv(s: State, op: Op)
    requires ServiceInv(s) && (op.Approve? || op.FailNext?)
    ensures ServiceInv(Step(s, op).0) && Evolves(s.repo, Step(s, op).0.repo)
  {
    hide Inv; hide IntentsOk; hide CandidateOk; hide ActionOk; hide Evolves; hide Granted; hide Authorised;
    hide IntentAuthorised;
    hide Grows;
    var s' := Step(s, op).0;
    CheckpointsGrow(s.approvals, s'.approvals);
    UntouchedKeepsInv(s, s');
  }

  /** Every step keeps the invariant and extends the history at its end. */
  lemma StepKeepsInv(s: State, op: Op)
    requires ServiceInv(s) && FreshOp(s, op)
    ensures ServiceInv(Step(s, op).0) && Evolves(s.repo, Step(s, op).0.repo)
    ensures Step(s, op).1 != Refused(IndexDuplicate)
  {
    hide ServiceInv; hide Evolves; hide Finish; hide FreshRollback;
    hide Create; hide ValidateCandidate; hide RecordReview; hide RequestPublishApproval; hide PreparePublish;
    hide NewAction;
    hide PrepareWithdraw; hide PrepareRollback;
    if !op.Commit? {
      NoDuplicateReply(s, op);
    }
    match op {
      case CreateCandidate(_) => CandidateStepsKeepInv(s, op);
      case Validate(_, _, _) => CandidateStepsKeepInv(s, op);
      case Review(_, _) => CandidateStepsKeepInv(s, op);
      case RequestPublish(_, _, _) => RequestPublishKeepsInv(s, op);
      case Approve(_) => EnvironmentKeepsInv(s, op);
      case Publish(_, _, _, _) => PreparePublishKeepsInv(s, op);
      case RequestAction(_, _, _, _, _) => NewActionKeepsInv(s, op);
      case Withdrawing(_, _, _) => PrepareWithdrawKeepsInv(s, op);
      case RollingBack(_, _, _) => PrepareRollbackKeepsInv(s, op);
      case FailNext => EnvironmentKeepsInv(s, op);
      case Commit(intent) =>
        if intent in s.intents {
          FinishKeepsInv(s, intent);
        } else {
          SameEvolves(s.repo);
        }
    }
  }

  lemma SameEvolves(r: Repository)
    ensures Evolves(r, r)
  {
  }

  lemma NoDuplicateReply(s: State, op: Op)
    requires !op.Commit?
    ensures Step(s, op).1 != Refused(IndexDuplicate)
  {
  }
}
