/**
 The knowledge release repository of knowledge/release.py: publications with an optimistic
 head per scope and corpus, and an index that must show exactly the head's snapshots.
 */
module Release {
  import opened Common
  import opened KnowledgeIndex

  // ---------------------------------------------------------------------
  // Data
  // ---------------------------------------------------------------------

  /** The immutable content of a candidate; its canonical hash stands for this value. */
  datatype Body = Body(
    candidateId: Uuid, scope: Scope, corpusId: string, corpusVersion: string, indexVersion: string,
    embeddingVersion: string, base: Option<Uuid>, snapshots: seq<Snapshot>)

  datatype CandidateState = CandidateDraft | ReviewRequired | CandidatePublished | CandidateFailed

  datatype Candidate = Candidate(
    body: Body, state: CandidateState, reviewed: bool, approvalId: Option<Uuid>, publicationId: Option<Uuid>)

  datatype PublicationState = Current | Replaced | Recalled

  datatype Publication = Publication(
    id: Uuid, body: Body, state: PublicationState, snapshots: seq<Snapshot>,
    previous: Option<Uuid>, restoredFrom: Option<Uuid>, grant: Uuid)

  datatype ActionKind = Withdraw | Rollback

  /** The hashed identity of an action. */
  datatype ActionBody = ActionBody(
    id: Uuid, scope: Scope, kind: ActionKind, corpusId: string, target: Uuid, expectedCurrent: Uuid)

  datatype Action = Action(body: ActionBody, approvalId: Uuid, grant: Option<Uuid>) // completed when granted

  datatype Ref = Ref(scope: Scope, id: Uuid)
  datatype Slot = Slot(scope: Scope, corpusId: string)

  datatype Repository = Repository(
    candidates: map<Ref, Candidate>, publications: map<Ref, Publication>, actions: map<Ref, Action>,
    current: map<Slot, Uuid>, index: Index, failNextCommit: bool)

  const EMPTY := Repository(map[], map[], map[], map[], map[], false)

  datatype Code =
    | CandidateNotFound | CandidateConflict | PublicationConflict | PublicationNotFound | BaseStale | CurrentStale
    | CurrentMissing | RollbackTargetCurrent | ActionNotFound | ActionConflict | ActionKindMismatch
    | PublicationNotReady | ScopeDenied | BindingInvalid | ReviewMissing | ApprovalConflict
    | AtomicCommitFailed | IndexDuplicate
    | GrantReplayed | NotApproved | ResumeConflict

  function StatusOf(state: PublicationState): IndexStatus {
    match state case Current => Published case Replaced => Superseded case Recalled => Withdrawn
  }

  function Stamp(snapshots: seq<Snapshot>, status: IndexStatus): seq<Snapshot> {
    seq(|snapshots|, i requires 0 <= i < |snapshots| => snapshots[i].(status := status))
  }

  /** _publication_state. */
  function Retire(p: Publication, state: PublicationState): Publication {
    p.(state := state, snapshots := Stamp(p.snapshots, StatusOf(state)))
  }

  function SlotOf(p: Publication): Slot {
    Slot(p.body.scope, p.body.corpusId)
  }

  /** _snapshot_key: the document without its scope, unlike the key of the index. */
  datatype DocumentKey = DocumentKey(corpusId: string, corpusVersion: string, indexVersion: string, documentId: string)

  function DocumentKeyOf(s: Snapshot): DocumentKey {
    DocumentKey(s.corpusId, s.corpusVersion, s.indexVersion, s.documentId)
  }

  function DocumentKeys(batch: seq<Snapshot>): set<DocumentKey> {
    set i | 0 <= i < |batch| :: DocumentKeyOf(batch[i])
  }

  /** The batch of a commit: what goes out unless overwritten, then what comes in. */
  function Without(snapshots: seq<Snapshot>, keys: set<DocumentKey>): seq<Snapshot> {
    if snapshots == [] then []
    else Without(snapshots[..|snapshots| - 1], keys)
         + (if DocumentKeyOf(snapshots[|snapshots| - 1]) in keys then [] else [snapshots[|snapshots| - 1]])
  }

  function SwapBatch(outgoing: seq<Snapshot>, incoming: seq<Snapshot>): seq<Snapshot> {
    Without(outgoing, DocumentKeys(incoming)) + incoming
  }

  // ---------------------------------------------------------------------
  // Commits
  // ---------------------------------------------------------------------

  /** The head of a slot is `p`'s identifier. */
  function CurrentId(r: Repository, slot: Slot): Option<Uuid> {
    if slot in r.current then Some(r.current[slot]) else None
  }

  /** Installs `incoming` as the head of its slot over the retired head, if there is one. */
  function Install(r: Repository, slot: Slot, retired: Option<Publication>,
        incoming: Publication): Result<Repository, Code> {
    var outgoing := if retired.Some? then retired.value.snapshots else [];
    var batch := SwapBatch(outgoing, incoming.snapshots);
    if !DistinctKeys(batch) then Err(IndexDuplicate)
    else
      var kept := if retired.Some? then r.publications[Ref(slot.scope, retired.value.id) := retired.value]
        else r.publications;
      Ok(r.(publications := kept[Ref(slot.scope, incoming.id) := incoming],
            current := r.current[slot := incoming.id],
            index := PutAll(r.index, batch)))
  }

  function CommitPublication(r: Repository, candidate: Candidate, publication: Publication)
    : (Repository, Result<Publication, Code>)
  {
    var scope := candidate.body.scope;
    var slot, ref := Slot(scope, candidate.body.corpusId), Ref(scope, publication.id);
    if ref in r.publications then
      if r.publications[ref].body == candidate.body then (r, Ok(r.publications[ref])) else (r, Err(PublicationConflict))
    else if CurrentId(r, slot) != candidate.body.base then (r, Err(BaseStale))
    else if slot in r.current && Ref(scope, r.current[slot]) !in r.publications then (r, Err(PublicationNotFound))
    else if r.failNextCommit then (r.(failNextCommit := false), Err(AtomicCommitFailed))
    else
      var retired := if slot in r.current then Some(Retire(r.publications[Ref(scope, r.current[slot])], Replaced))
        else None;
      match Install(r, slot, retired, publication)
      case Err(code) => (r, Err(code))
      case Ok(r') =>
        (r'.(candidates := r'.candidates[Ref(scope, candidate.body.candidateId) :=
               candidate.(state := CandidatePublished, publicationId := Some(publication.id))]),
         Ok(publication))
  }

  function CommitWithdrawal(r: Repository, action: Action, grant: Uuid): (Repository, Result<Publication, Code>) {
    var b := action.body;
    var slot, actionRef, targetRef := Slot(b.scope, b.corpusId), Ref(b.scope, b.id), Ref(b.scope, b.target);
    if actionRef !in r.actions then (r, Err(ActionNotFound))
    else if r.actions[actionRef].grant.Some? then
      (r, if targetRef in r.publications then Ok(r.publications[targetRef]) else Err(PublicationNotFound))
    else if CurrentId(r, slot) != Some(b.expectedCurrent) then (r, Err(CurrentStale))
    else if r.failNextCommit then (r.(failNextCommit := false), Err(AtomicCommitFailed))
    else if targetRef !in r.publications then (r, Err(PublicationNotFound))
    else
      var withdrawn := Retire(r.publications[targetRef], Recalled);
      if !DistinctKeys(withdrawn.snapshots) then (r, Err(IndexDuplicate))
      else
        (r.(publications := r.publications[Ref(b.scope, withdrawn.id) := withdrawn],
            current := r.current - {slot},
            actions := r.actions[actionRef := action.(grant := Some(grant))],
            index := PutAll(r.index, withdrawn.snapshots)),
         Ok(withdrawn))
  }

  function CommitRollback(r: Repository, action: Action, grant: Uuid, restored: Publication)
    : (Repository, Result<Publication, Code>)
  {
    var b := action.body;
    var slot, actionRef := Slot(b.scope, b.corpusId), Ref(b.scope, b.id);
    var newRef, currentRef := Ref(b.scope, restored.id), Ref(b.scope, b.expectedCurrent);
    if actionRef !in r.actions then (r, Err(ActionNotFound))
    else if r.actions[actionRef].grant.Some? then
      (r, if newRef in r.publications then Ok(r.publications[newRef]) else Err(PublicationNotFound))
    else if CurrentId(r, slot) != Some(b.expectedCurrent) then (r, Err(CurrentStale))
    else if r.failNextCommit then (r.(failNextCommit := false), Err(AtomicCommitFailed))
    else if currentRef !in r.publications then (r, Err(PublicationNotFound))
    else
      match Install(r, slot, Some(Retire(r.publications[currentRef], Replaced)), restored)
      case Err(code) => (r, Err(code))
      case Ok(r') =>
        (r'.(actions := r'.actions[actionRef := action.(grant := Some(grant))]), Ok(restored))
  }

  // ---------------------------------------------------------------------
  // Invariant
  // ---------------------------------------------------------------------

  /** What `_validation_codes` establishes about a candidate's snapshots. */
  ghost predicate Sound(b: Body) {
    && (forall i :: 0 <= i < |b.snapshots| ==>
          && b.snapshots[i].scope == b.scope && b.snapshots[i].corpusId == b.corpusId
          && b.snapshots[i].corpusVersion == b.corpusVersion && b.snapshots[i].indexVersion == b.indexVersion)
    && (forall i, j :: 0 <= i < j < |b.snapshots| ==> b.snapshots[i].documentId != b.snapshots[j].documentId)
  }

  ghost predicate PublicationOk(ref: Ref, p: Publication) {
    && p.id == ref.id && p.body.scope == ref.scope
    && Sound(p.body)
    && p.snapshots == Stamp(p.body.snapshots, StatusOf(p.state))
  }

  ghost predicate PublicationsOk(r: Repository) {
    forall ref :: ref in r.publications ==> PublicationOk(ref, r.publications[ref])
  }

  /** The head of a slot, once known to exist. */
  ghost predicate HeadIs(r: Repository, slot: Slot, p: Publication) {
    && slot in r.current && Ref(slot.scope, r.current[slot]) in r.publications
    && r.publications[Ref(slot.scope, r.current[slot])] == p
  }

  /** The head is a PUBLISHED publication of its slot, and the only one. */
  ghost predicate HeadsOk(r: Repository) {
    && (forall slot :: slot in r.current ==>
          && Ref(slot.scope, r.current[slot]) in r.publications
          && SlotOf(r.publications[Ref(slot.scope, r.current[slot])]) == slot
          && r.publications[Ref(slot.scope, r.current[slot])].state == Current)
    && (forall ref :: ref in r.publications && r.publications[ref].state == Current ==>
          CurrentId(r, SlotOf(r.publications[ref])) == Some(ref.id))
  }

  /** The PUBLISHED entries of the index are exactly the snapshots of the heads. */
  ghost predicate IndexOk(r: Repository) {
    && (forall k :: k in r.index ==> KeyOf(r.index[k]) == k)
    && (forall k :: k in r.index && r.index[k].status == Published ==>
          exists p :: HeadIs(r, Slot(k.scope, k.corpusId), p) && r.index[k] in p.snapshots)
    && (forall slot, p :: HeadIs(r, slot, p) ==> Shown(r.index, p.snapshots))
  }

  ghost predicate Shown(index: Index, snapshots: seq<Snapshot>) {
    forall i :: 0 <= i < |snapshots| ==> KeyOf(snapshots[i]) in index && index[KeyOf(snapshots[i])] == snapshots[i]
  }

  /** The history is linear: a named predecessor exists, is no longer published, and is named
      by one publication only. */
  ghost predicate LinearOk(r: Repository) {
    && (forall ref :: ref in r.publications && r.publications[ref].previous.Some? ==>
          var before := Ref(ref.scope, r.publications[ref].previous.value);
          before in r.publications && r.publications[before].state != Current && before != ref)
    && (forall a, b ::
          (a in r.publications && b in r.publications && a.scope == b.scope
           && r.publications[a].previous.Some? && r.publications[a].previous == r.publications[b].previous) ==> a == b)
  }

  ghost predicate Inv(r: Repository) {
    PublicationsOk(r) && HeadsOk(r) && IndexOk(r) && LinearOk(r)
  }

  // ---------------------------------------------------------------------
  // Batches
  // ---------------------------------------------------------------------

  lemma StampKeys(snapshots: seq<Snapshot>, status: IndexStatus)
    ensures |Stamp(snapshots, status)| == |snapshots|
    ensures forall i :: 0 <= i < |snapshots| ==> KeyOf(Stamp(snapshots, status)[i]) == KeyOf(snapshots[i])
    ensures forall x :: x in Stamp(snapshots, status) ==> x.status == status
    ensures forall other :: Stamp(Stamp(snapshots, other), status) == Stamp(snapshots, status)
  {
  }

  /** The snapshots of a sound body have distinct keys, all of the body's own slot. */
  lemma SoundKeys(b: Body, status: IndexStatus)
    requires Sound(b)
    ensures DistinctKeys(Stamp(b.snapshots, status))
    ensures forall k :: k in Keys(Stamp(b.snapshots, status)) ==> k.scope == b.scope && k.corpusId == b.corpusId
  {
  }

  lemma {:induction false} WithoutFacts(snapshots: seq<Snapshot>, keys: set<DocumentKey>)
    requires DistinctKeys(snapshots)
    ensures DistinctKeys(Without(snapshots, keys))
    ensures forall x :: x in Without(snapshots, keys) <==> x in snapshots && DocumentKeyOf(x) !in keys
  {
    if snapshots != [] {
      var init, last := snapshots[..|snapshots| - 1], snapshots[|snapshots| - 1];
      assert snapshots == init + [last];
      WithoutFacts(init, keys);
      var w := Without(init, keys);
      forall i | 0 <= i < |w| ensures KeyOf(w[i]) != KeyOf(last) {
        assert w[i] in init;
        var j :| 0 <= j < |init| && init[j] == w[i];
        assert KeyOf(snapshots[j]) != KeyOf(snapshots[|snapshots| - 1]);
      }
    }
  }

  lemma InKeys(batch: seq<Snapshot>, k: Key)
    ensures k in Keys(batch) <==> exists x :: x in batch && KeyOf(x) == k
  {
    if k in Keys(batch) {
      var i :| 0 <= i < |batch| && KeyOf(batch[i]) == k;
      assert batch[i] in batch;
    }
  }

  /** A swap of two key-distinct snapshot lists is a legal batch. */
  lemma SwapDistinct(outgoing: seq<Snapshot>, incoming: seq<Snapshot>)
    requires DistinctKeys(outgoing) && DistinctKeys(incoming)
    ensures DistinctKeys(SwapBatch(outgoing, incoming))
  {
    WithoutFacts(outgoing, DocumentKeys(incoming));
    var kept := Without(outgoing, DocumentKeys(incoming));
    forall i, j | 0 <= i < |kept| && 0 <= j < |incoming| ensures KeyOf(kept[i]) != KeyOf(incoming[j]) {
      assert kept[i] in kept;
      assert DocumentKeyOf(incoming[j]) in DocumentKeys(incoming);
    }
  }

  /** Within one scope the key without scope is as good as the key of the index. */
  lemma SameScopeSameKeys(x: Snapshot, incoming: seq<Snapshot>)
    requires forall i :: 0 <= i < |incoming| ==> incoming[i].scope == x.scope
    ensures DocumentKeyOf(x) in DocumentKeys(incoming) <==> KeyOf(x) in Keys(incoming)
  {
    if DocumentKeyOf(x) in DocumentKeys(incoming) {
      var i :| 0 <= i < |incoming| && DocumentKeyOf(incoming[i]) == DocumentKeyOf(x);
      assert KeyOf(incoming[i]) == KeyOf(x);
    }
    if KeyOf(x) in Keys(incoming) {
      var i :| 0 <= i < |incoming| && KeyOf(incoming[i]) == KeyOf(x);
      assert DocumentKeyOf(incoming[i]) == DocumentKeyOf(x);
    }
  }

  lemma KeptInScope(outgoing: seq<Snapshot>, incoming: seq<Snapshot>, scope: Scope)
    requires DistinctKeys(outgoing) && InOneScope(outgoing, scope) && InOneScope(incoming, scope)
    ensures forall x :: x in Without(outgoing, DocumentKeys(incoming)) <==> x in outgoing && KeyOf(x) !in Keys(incoming)
  {
    hide KeyOf; hide Keys; hide DocumentKeyOf; hide DocumentKeys; hide Without; hide DistinctKeys;
    WithoutFacts(outgoing, DocumentKeys(incoming));
    forall x | x in outgoing ensures DocumentKeyOf(x) in DocumentKeys(incoming) <==> KeyOf(x) in Keys(incoming) {
      SameScopeSameKeys(x, incoming);
    }
  }

  ghost predicate InOneScope(snapshots: seq<Snapshot>, scope: Scope) {
    forall i :: 0 <= i < |snapshots| ==> snapshots[i].scope == scope
  }

  lemma KeysInScope(snapshots: seq<Snapshot>, scope: Scope)
    requires forall k :: k in Keys(snapshots) ==> k.scope == scope
    ensures InOneScope(snapshots, scope)
  {
    forall i | 0 <= i < |snapshots| ensures snapshots[i].scope == scope {
      assert KeyOf(snapshots[i]) in Keys(snapshots);
    }
  }

  /** After a swap: incoming keys show the incoming snapshots, the other outgoing keys the
      outgoing ones, every other key what it showed before. */
  ghost predicate Swapped(index: Index, outgoing: seq<Snapshot>, incoming: seq<Snapshot>, index': Index) {
    && Shown(index', incoming)
    && (forall k :: k in index' && k in Keys(incoming) ==> index'[k] in incoming)
    && (forall k :: k in Keys(outgoing) && k !in Keys(incoming) ==> k in index' && index'[k] in outgoing)
    && (forall k :: k !in Keys(outgoing) && k !in Keys(incoming) ==>
          (k in index' <==> k in index) && (k in index ==> index'[k] == index[k]))
    && (forall k :: k in index' && (k in Keys(incoming) || k in Keys(outgoing)) ==> KeyOf(index'[k]) == k)
  }

  lemma SwapShows(index: Index, outgoing: seq<Snapshot>, incoming: seq<Snapshot>, scope: Scope)
    requires DistinctKeys(outgoing) && DistinctKeys(incoming)
    requires InOneScope(outgoing, scope) && InOneScope(incoming, scope)
    ensures Swapped(index, outgoing, incoming, PutAll(index, SwapBatch(outgoing, incoming)))
  {
    hide KeyOf; hide PutAll; hide Without; hide Keys; hide DocumentKeys;
    var batch := SwapBatch(outgoing, incoming);
    var index' := PutAll(index, batch);
    SwapDistinct(outgoing, incoming);
    KeptInScope(outgoing, incoming, scope);
    PutAllLookup(index, batch);
    forall k ensures k in Keys(batch) <==> k in Keys(outgoing) || k in Keys(incoming) {
      InKeys(batch, k);
      InKeys(outgoing, k);
      InKeys(incoming, k);
    }
    forall x | x in batch ensures KeyOf(x) in index' && index'[KeyOf(x)] == x {
      var i :| 0 <= i < |batch| && batch[i] == x;
    }
    forall i | 0 <= i < |incoming| ensures KeyOf(incoming[i]) in index' && index'[KeyOf(incoming[i])] == incoming[i] {
      assert incoming[i] in batch;
    }
    forall k | k in Keys(incoming) ensures k in index' && index'[k] in incoming && KeyOf(index'[k]) == k {
      InKeys(incoming, k);
      var x :| x in incoming && KeyOf(x) == k;
      assert x in batch;
    }
    forall k | k in Keys(outgoing) && k !in Keys(incoming)
      ensures k in index' && index'[k] in outgoing && KeyOf(index'[k]) == k
    {
      InKeys(outgoing, k);
      var x :| x in outgoing && KeyOf(x) == k;
      assert x in batch;
    }
  }

  // ---------------------------------------------------------------------
  // Installing a new head
  // ---------------------------------------------------------------------

  /** `incoming` is a well-formed new publication to follow the present head of `slot`. */
  ghost predicate Follows(r: Repository, slot: Slot, incoming: Publication) {
    && PublicationOk(Ref(slot.scope, incoming.id), incoming)
    && incoming.state == Current && SlotOf(incoming) == slot
    && Ref(slot.scope, incoming.id) !in r.publications
    && incoming.previous == CurrentId(r, slot)
  }

  ghost function RetiredHead(r: Repository, slot: Slot): Option<Publication>
    requires HeadsOk(r)
  {
    if slot in r.current then Some(Retire(r.publications[Ref(slot.scope, r.current[slot])], Replaced)) else None
  }

  lemma StampSameKeys(snapshots: seq<Snapshot>, status: IndexStatus)
    ensures Keys(Stamp(snapshots, status)) == Keys(snapshots)
  {
    hide KeyOf;
    var stamped := Stamp(snapshots, status);
    StampKeys(snapshots, status);
    forall k ensures k in Keys(stamped) <==> k in Keys(snapshots) {
      if k in Keys(snapshots) {
        var i :| 0 <= i < |snapshots| && KeyOf(snapshots[i]) == k;
        assert KeyOf(stamped[i]) == k;
      }
      if k in Keys(stamped) {
        var i :| 0 <= i < |stamped| && KeyOf(stamped[i]) == k;
        assert KeyOf(snapshots[i]) == k;
      }
    }
  }

  lemma RetireOk(ref: Ref, p: Publication, state: PublicationState)
    requires PublicationOk(ref, p)
    ensures PublicationOk(ref, Retire(p, state))
    ensures DistinctKeys(p.snapshots) && DistinctKeys(Retire(p, state).snapshots)
    ensures Keys(Retire(p, state).snapshots) == Keys(p.snapshots)
    ensures forall k :: k in Keys(p.snapshots) ==> k.scope == p.body.scope && k.corpusId == p.body.corpusId
    ensures forall x :: x in Retire(p, state).snapshots ==> x.status == StatusOf(state)
  {
    hide Sound; hide DistinctKeys; hide Keys; hide KeyOf; hide Stamp;
    StampKeys(p.body.snapshots, StatusOf(state));
    SoundKeys(p.body, StatusOf(p.state));
    SoundKeys(p.body, StatusOf(state));
    StampSameKeys(p.body.snapshots, StatusOf(p.state));
    StampSameKeys(p.body.snapshots, StatusOf(state));
    StampKeys(p.body.snapshots, StatusOf(p.state));
  }

  /** Installing never meets a duplicate key. */
  lemma InstallSucceeds(r: Repository, slot: Slot, incoming: Publication)
    requires Inv(r) && PublicationOk(Ref(slot.scope, incoming.id), incoming)
    ensures Install(r, slot, RetiredHead(r, slot), incoming).Ok?
  {
    hide PublicationOk; hide SwapBatch; hide IndexOk; hide LinearOk; hide DistinctKeys; hide Keys;
    RetireOk(Ref(slot.scope, incoming.id), incoming, Current);
    if slot in r.current {
      var ref := Ref(slot.scope, r.current[slot]);
      RetireOk(ref, r.publications[ref], Replaced);
      SwapDistinct(Retire(r.publications[ref], Replaced).snapshots, incoming.snapshots);
    } else {
      NoSnapshots();
      SwapDistinct([], incoming.snapshots);
    }
  }

  lemma NoSnapshots()
    ensures DistinctKeys([]) && Keys([]) == {}
  {
  }

  /** What installing does to publications and heads: the old head is retired in place, the
      new publication is added, everything else stays. */
  ghost predicate Advanced(r: Repository, slot: Slot, incoming: Publication, r': Repository) {
    var newRef := Ref(slot.scope, incoming.id);
    && r'.current == r.current[slot := incoming.id]
    && newRef !in r.publications
    && r'.publications.Keys == r.publications.Keys + {newRef}
    && r'.publications[newRef] == incoming
    && (forall ref :: ref in r.publications ==>
          r'.publications[ref] ==
          if slot in r.current && ref == Ref(slot.scope, r.current[slot]) then Retire(r.publications[ref], Replaced)
          else r.publications[ref])
  }

  lemma InstallAdvances(r: Repository, slot: Slot, incoming: Publication)
    requires PublicationsOk(r) && HeadsOk(r) && Follows(r, slot, incoming)
    requires Install(r, slot, RetiredHead(r, slot), incoming).Ok?
    ensures Advanced(r, slot, incoming, Install(r, slot, RetiredHead(r, slot), incoming).value)
  {
    hide PublicationOk; hide SwapBatch; hide DistinctKeys; hide PutAll; hide Stamp;
    if slot in r.current {
      var ref := Ref(slot.scope, r.current[slot]);
      PublicationIds(ref, r.publications[ref]);
    }
  }

  lemma AdvanceKeepsPublications(r: Repository, slot: Slot, incoming: Publication, r': Repository)
    requires PublicationsOk(r) && Follows(r, slot, incoming) && Advanced(r, slot, incoming, r')
    ensures PublicationsOk(r')
  {
    hide PublicationOk; hide Retire;
    forall ref | ref in r'.publications ensures PublicationOk(ref, r'.publications[ref]) {
      if ref in r.publications {
        RetireOk(ref, r.publications[ref], Replaced);
      }
    }
  }

  lemma AdvanceKeepsHeads(r: Repository, slot: Slot, incoming: Publication, r': Repository)
    requires PublicationsOk(r) && HeadsOk(r) && Follows(r, slot, incoming) && Advanced(r, slot, incoming, r')
    ensures HeadsOk(r')
  {
    hide PublicationOk; hide Stamp;
    forall other | other in r'.current
      ensures Ref(other.scope, r'.current[other]) in r'.publications
      ensures SlotOf(r'.publications[Ref(other.scope, r'.current[other])]) == other
      ensures r'.publications[Ref(other.scope, r'.current[other])].state == Current
    {
      if other != slot {
        assert SlotOf(r.publications[Ref(other.scope, r.current[other])]) == other;
      }
    }
    forall ref | ref in r'.publications && r'.publications[ref].state == Current
      ensures CurrentId(r', SlotOf(r'.publications[ref])) == Some(ref.id)
    {
      if ref in r.publications {
        PublicationIds(ref, r.publications[ref]);
      }
    }
  }

  lemma AdvanceKeepsHistory(r: Repository, slot: Slot, incoming: Publication, r': Repository)
    requires HeadsOk(r) && LinearOk(r) && Follows(r, slot, incoming) && Advanced(r, slot, incoming, r')
    ensures LinearOk(r')
  {
    hide PublicationOk; hide Stamp; hide HeadsOk; hide SlotOf; hide CurrentId;
    var newRef := Ref(slot.scope, incoming.id);
    HeadUnnamed(r, slot);
    FollowsHead(r, slot, incoming);
    forall ref | ref in r.publications
      ensures r'.publications[ref].previous == r.publications[ref].previous
      ensures r.publications[ref].state != Current ==> r'.publications[ref].state != Current
    {
    }
    forall a, b | a in r'.publications && b in r'.publications && a.scope == b.scope
                  && r'.publications[a].previous.Some? && r'.publications[a].previous == r'.publications[b].previous
      ensures a == b
    {
    }
  }

  /** Nobody names the present head as predecessor. */
  lemma HeadUnnamed(r: Repository, slot: Slot)
    requires HeadsOk(r) && LinearOk(r)
    ensures slot in r.current ==>
              forall ref :: ref in r.publications && ref.scope == slot.scope ==>
                r.publications[ref].previous != Some(r.current[slot])
  {
  }

  lemma FollowsHead(r: Repository, slot: Slot, incoming: Publication)
    requires HeadsOk(r) && Follows(r, slot, incoming)
    ensures incoming.previous == if slot in r.current then Some(r.current[slot]) else None
    ensures slot in r.current ==> Ref(slot.scope, r.current[slot]) in r.publications
  {
  }

  lemma PublicationIds(ref: Ref, p: Publication)
    requires PublicationOk(ref, p)
    ensures p.id == ref.id && p.body.scope == ref.scope
  {
  }

  lemma InstallKeepsIndex(r: Repository, slot: Slot, incoming: Publication)
    requires Inv(r) && Follows(r, slot, incoming) && Install(r, slot, RetiredHead(r, slot), incoming).Ok?
    ensures IndexOk(Install(r, slot, RetiredHead(r, slot), incoming).value)
  {
    hide PublicationOk; hide LinearOk; hide SwapBatch; hide DistinctKeys; hide PutAll; hide Stamp; hide Keys;
    hide KeyOf;
    hide IndexOk; hide Swapped;
    var r' := Install(r, slot, RetiredHead(r, slot), incoming).value;
    var outgoing := if slot in r.current then RetiredHead(r, slot).value.snapshots else [];
    RetireOk(Ref(slot.scope, incoming.id), incoming, Current);
    NoSnapshots();
    if slot in r.current {
      var ref := Ref(slot.scope, r.current[slot]);
      RetireOk(ref, r.publications[ref], Replaced);
      PublicationIds(ref, r.publications[ref]);
    }
    HeadKeys(r);
    KeysInScope(outgoing, slot.scope);
    KeysInScope(incoming.snapshots, slot.scope);
    SwapShows(r.index, outgoing, incoming.snapshots, slot.scope);
    SwapKeepsIndex(r, r', slot, outgoing, Some(incoming));
  }

  /** Every head's snapshots have keys of its own slot. */
  lemma HeadKeys(r: Repository)
    requires PublicationsOk(r) && HeadsOk(r)
    ensures forall slot, p ::
      HeadIs(r, slot, p) ==> forall k :: k in Keys(p.snapshots) ==> Slot(k.scope, k.corpusId) == slot
  {
    hide PublicationOk; hide Keys; hide Stamp;
    forall slot, p | HeadIs(r, slot, p)
      ensures forall k :: k in Keys(p.snapshots) ==> Slot(k.scope, k.corpusId) == slot
    {
      RetireOk(Ref(slot.scope, r.current[slot]), p, Replaced);
    }
  }

  /** The head as an option. */
  ghost predicate NewHead(r: Repository, slot: Slot, head: Option<Publication>) {
    match head case None => slot !in r.current case Some(p) => HeadIs(r, slot, p)
  }

  /** Swapping the index of one slot from its old head's snapshots to its new head's keeps the
      index and all heads in agreement. */
  lemma SwapKeepsIndex(r: Repository, r': Repository, slot: Slot, outgoing: seq<Snapshot>, head: Option<Publication>)
    requires IndexOk(r) && NewHead(r', slot, head)
    requires forall other, p :: other != slot ==> (HeadIs(r', other, p) <==> HeadIs(r, other, p))
    requires var incoming := if head.Some? then head.value.snapshots else [];
             && Swapped(r.index, outgoing, incoming, r'.index)
             && (forall k :: k in Keys(incoming) || k in Keys(outgoing) ==> Slot(k.scope, k.corpusId) == slot)
    requires forall x :: x in outgoing ==> x.status != Published
    requires forall p :: HeadIs(r, slot, p) ==> Keys(p.snapshots) == Keys(outgoing)
    requires forall other, p ::
      HeadIs(r, other, p) ==> forall k :: k in Keys(p.snapshots) ==> Slot(k.scope, k.corpusId) == other
    ensures IndexOk(r')
  {
    hide KeyOf; hide Keys; hide HeadIs;
    var incoming := if head.Some? then head.value.snapshots else [];
    forall k | k in r'.index && r'.index[k].status == Published
      ensures exists p :: HeadIs(r', Slot(k.scope, k.corpusId), p) && r'.index[k] in p.snapshots
    {
      if k in Keys(incoming) {
        NonEmptyKeys(incoming, k);
        assert HeadIs(r', slot, head.value) && r'.index[k] in incoming;
      } else {
        assert k !in Keys(outgoing);
        var p :| HeadIs(r, Slot(k.scope, k.corpusId), p) && r.index[k] in p.snapshots;
        InKeys(p.snapshots, k);
        assert Slot(k.scope, k.corpusId) != slot;
        assert HeadIs(r', Slot(k.scope, k.corpusId), p);
      }
    }
    forall other, p | HeadIs(r', other, p) ensures Shown(r'.index, p.snapshots) {
      if other == slot {
        OneHead(r', slot, p, head);
      } else {
        assert HeadIs(r, other, p) && Shown(r.index, p.snapshots);
        forall i | 0 <= i < |p.snapshots|
          ensures KeyOf(p.snapshots[i]) in r'.index && r'.index[KeyOf(p.snapshots[i])] == p.snapshots[i]
        {
          InKeys(p.snapshots, KeyOf(p.snapshots[i]));
        }
      }
    }
  }

  lemma OneHead(r: Repository, slot: Slot, p: Publication, head: Option<Publication>)
    requires HeadIs(r, slot, p) && NewHead(r, slot, head)
    ensures head == Some(p)
  {
  }

  lemma NonEmptyKeys(batch: seq<Snapshot>, k: Key)
    requires k in Keys(batch)
    ensures batch != []
  {
  }

  /** Publishing or rolling back to a new head keeps the whole invariant. */
  lemma InstallKeepsInv(r: Repository, slot: Slot, incoming: Publication)
    requires Inv(r) && Follows(r, slot, incoming)
    ensures Install(r, slot, RetiredHead(r, slot), incoming).Ok?
    ensures Inv(Install(r, slot, RetiredHead(r, slot), incoming).value)
  {
    hide PublicationsOk; hide HeadsOk; hide IndexOk; hide LinearOk; hide Install; hide Follows; hide PublicationOk;
    InstallSucceeds(r, slot, incoming) by { FollowsOk(r, slot, incoming); }
    var r' := Install(r, slot, RetiredHead(r, slot), incoming).value;
    InstallAdvances(r, slot, incoming);
    AdvanceKeepsPublications(r, slot, incoming, r');
    AdvanceKeepsHeads(r, slot, incoming, r');
    AdvanceKeepsHistory(r, slot, incoming, r');
    InstallKeepsIndex(r, slot, incoming);
  }

  lemma FollowsOk(r: Repository, slot: Slot, incoming: Publication)
    requires Follows(r, slot, incoming)
    ensures PublicationOk(Ref(slot.scope, incoming.id), incoming)
  {
  }

  // ---------------------------------------------------------------------
  // Recalling the head
  // ---------------------------------------------------------------------

  /** What a withdrawal does: the head is recalled in place and its slot has no head. */
  ghost predicate Receded(r: Repository, slot: Slot, r': Repository)
    requires HeadsOk(r)
  {
    && slot in r.current
    && r'.current == r.current - {slot}
    && var ref := Ref(slot.scope, r.current[slot]);
       var recalled := Retire(r.publications[ref], Recalled);
       r'.publications == r.publications[ref := recalled] && r'.index == PutAll(r.index, recalled.snapshots)
  }

  lemma RecedeKeepsPublications(r: Repository, slot: Slot, r': Repository)
    requires PublicationsOk(r) && HeadsOk(r) && Receded(r, slot, r')
    ensures PublicationsOk(r')
  {
    hide PublicationOk; hide Retire; hide PutAll;
    var ref := Ref(slot.scope, r.current[slot]);
    RetireOk(ref, r.publications[ref], Recalled);
  }

  lemma RecedeKeepsHeads(r: Repository, slot: Slot, r': Repository)
    requires PublicationsOk(r) && HeadsOk(r) && Receded(r, slot, r')
    ensures HeadsOk(r')
  {
    hide PublicationOk; hide Stamp; hide PutAll; hide PublicationsOk;
    var head := Ref(slot.scope, r.current[slot]);
    forall other | other in r'.current
      ensures Ref(other.scope, r'.current[other]) in r'.publications
      ensures SlotOf(r'.publications[Ref(other.scope, r'.current[other])]) == other
      ensures r'.publications[Ref(other.scope, r'.current[other])].state == Current
    {
      assert SlotOf(r.publications[Ref(other.scope, r.current[other])]) == other;
    }
    forall ref | ref in r'.publications && r'.publications[ref].state == Current
      ensures CurrentId(r', SlotOf(r'.publications[ref])) == Some(ref.id)
    {
      assert ref != head && r'.publications[ref] == r.publications[ref];
      StoredScope(r, ref);
      assert SlotOf(r.publications[ref]) != slot;
    }
  }

  lemma StoredScope(r: Repository, ref: Ref)
    requires PublicationsOk(r) && ref in r.publications
    ensures SlotOf(r.publications[ref]).scope == ref.scope
  {
  }

  lemma RecedeKeepsHistory(r: Repository, slot: Slot, r': Repository)
    requires HeadsOk(r) && LinearOk(r) && Receded(r, slot, r')
    ensures LinearOk(r')
  {
    hide Stamp; hide SlotOf; hide CurrentId; hide PutAll;
    forall ref | ref in r.publications
      ensures r'.publications[ref].previous == r.publications[ref].previous
      ensures r.publications[ref].state != Current ==> r'.publications[ref].state != Current
    {
    }
  }

  lemma {:induction false} WithoutNothing(snapshots: seq<Snapshot>)
    ensures SwapBatch(snapshots, []) == snapshots
  {
    NoSnapshots();
    if snapshots != [] {
      WithoutNothing(snapshots[..|snapshots| - 1]);
      assert snapshots == snapshots[..|snapshots| - 1] + [snapshots[|snapshots| - 1]];
    }
  }

  lemma RecedeKeepsIndex(r: Repository, slot: Slot, r': Repository)
    requires PublicationsOk(r) && HeadsOk(r) && IndexOk(r) && Receded(r, slot, r')
    ensures IndexOk(r')
  {
    hide PublicationOk; hide SwapBatch; hide DistinctKeys; hide PutAll; hide Stamp; hide Keys; hide KeyOf;
    hide IndexOk; hide Swapped;
    var ref := Ref(slot.scope, r.current[slot]);
    var outgoing := Retire(r.publications[ref], Recalled).snapshots;
    RetireOk(ref, r.publications[ref], Recalled);
    HeadKeys(r);
    NoSnapshots();
    WithoutNothing(outgoing);
    KeysInScope(outgoing, slot.scope);
    SwapShows(r.index, outgoing, [], slot.scope);
    assert HeadIs(r, slot, r.publications[ref]);
    SwapKeepsIndex(r, r', slot, outgoing, None);
  }

  // ---------------------------------------------------------------------
  // The three commits
  // ---------------------------------------------------------------------

  /** What `publish` hands to the repository: a publication of exactly that candidate. */
  ghost predicate PublishReady(candidate: Candidate, publication: Publication) {
    && publication.body == candidate.body && publication.previous == candidate.body.base
    && publication.state == Current && PublicationOk(Ref(candidate.body.scope, publication.id), publication)
  }

  /** What `rollback` hands over: a new publication of the action's corpus, under the action's identifier. */
  ghost predicate RollbackReady(action: Action, restored: Publication) {
    && restored.id == action.body.id && restored.previous == Some(action.body.expectedCurrent)
    && restored.state == Current && SlotOf(restored) == Slot(action.body.scope, action.body.corpusId)
    && PublicationOk(Ref(action.body.scope, restored.id), restored)
  }

  /** `replace_many` refuses no batch of a commit, and no commit loses the head it points to. */
  predicate Unreachable(code: Code) {
    code == IndexDuplicate || code == PublicationNotFound
  }

  lemma PublicationKeepsInv(r: Repository, candidate: Candidate, publication: Publication)
    requires Inv(r) && PublishReady(candidate, publication)
    ensures var (r', result) := CommitPublication(r, candidate, publication);
            Inv(r') && (result.Err? ==> !Unreachable(result.error))
  {
    hide PublicationsOk; hide HeadsOk; hide IndexOk; hide LinearOk; hide Install; hide PublicationOk; hide Stamp;
    hide PutAll;
    var slot := Slot(candidate.body.scope, candidate.body.corpusId);
    var r0 := r.(failNextCommit := false);
    FlagIrrelevant(r, r0);
    if Ref(slot.scope, publication.id) !in r.publications && CurrentId(r, slot) == candidate.body.base {
      HeadStored(r, slot);
      InstallKeepsInv(r, slot, publication);
      if !r.failNextCommit {
        var installed := Install(r, slot, RetiredHead(r, slot), publication).value;
        FlagIrrelevant(installed, CommitPublication(r, candidate, publication).0);
      }
    }
  }

  /** Candidates, actions and the failure switch are no part of the invariant. */
  lemma FlagIrrelevant(r: Repository, r': Repository)
    requires Inv(r) && r'.publications == r.publications && r'.current == r.current && r'.index == r.index
    ensures Inv(r')
  {
    hide PublicationOk; hide Keys; hide KeyOf;
    forall slot, p ensures HeadIs(r, slot, p) <==> HeadIs(r', slot, p) {
    }
  }

  lemma HeadStored(r: Repository, slot: Slot)
    requires HeadsOk(r)
    ensures slot in r.current ==> Ref(slot.scope, r.current[slot]) in r.publications
  {
  }

  lemma WithdrawalKeepsInv(r: Repository, action: Action, grant: Uuid)
    requires Inv(r) && action.body.target == action.body.expectedCurrent
    ensures var (r', result) := CommitWithdrawal(r, action, grant);
            && Inv(r')
            && (result.Err? ==> result.error != IndexDuplicate)
            && (result == Err(PublicationNotFound) ==>
                  Ref(action.body.scope, action.body.id) in r.actions
                    && r.actions[Ref(action.body.scope, action.body.id)].grant.Some?)
  {
    hide PublicationsOk; hide IndexOk; hide LinearOk; hide HeadsOk; hide PublicationOk; hide Stamp; hide PutAll;
    hide DistinctKeys;
    var b := action.body;
    var slot := Slot(b.scope, b.corpusId);
    var r' := CommitWithdrawal(r, action, grant).0;
    FlagIrrelevant(r, r.(failNextCommit := false));
    HeadStored(r, slot);
    if CurrentId(r, slot) == Some(b.expectedCurrent) {
      HeadRetires(r, slot, Recalled);
      if slot !in r'.current {
        RecedeKeepsPublications(r, slot, r');
        RecedeKeepsHeads(r, slot, r');
        RecedeKeepsHistory(r, slot, r');
        RecedeKeepsIndex(r, slot, r');
      }
    }
  }

  lemma HeadRetires(r: Repository, slot: Slot, state: PublicationState)
    requires PublicationsOk(r) && HeadsOk(r) && slot in r.current
    ensures var head := r.publications[Ref(slot.scope, r.current[slot])];
            DistinctKeys(Retire(head, state).snapshots) && head.id == r.current[slot]
  {
    hide PublicationOk;
    var ref := Ref(slot.scope, r.current[slot]);
    RetireOk(ref, r.publications[ref], state);
    PublicationIds(ref, r.publications[ref]);
  }

  /** The operation identifier is new among the publications, unless the rollback is already done. */
  predicate FreshRollback(r: Repository, action: Action) {
    var ref := Ref(action.body.scope, action.body.id);
    (ref in r.actions && r.actions[ref].grant.None?) ==> ref !in r.publications
  }

  lemma RollbackKeepsInv(r: Repository, action: Action, grant: Uuid, restored: Publication)
    requires Inv(r) && RollbackReady(action, restored) && FreshRollback(r, action)
    ensures var (r', result) := CommitRollback(r, action, grant, restored);
            && Inv(r')
            && (result.Err? ==> result.error != IndexDuplicate)
            && (result == Err(PublicationNotFound) ==>
                  Ref(action.body.scope, action.body.id) in r.actions
                    && r.actions[Ref(action.body.scope, action.body.id)].grant.Some?)
  {
    hide PublicationsOk; hide HeadsOk; hide IndexOk; hide LinearOk; hide Install; hide PublicationOk; hide Stamp;
    hide PutAll;
    var slot := Slot(action.body.scope, action.body.corpusId);
    FlagIrrelevant(r, r.(failNextCommit := false));
    HeadStored(r, slot);
    if Ref(slot.scope, restored.id) !in r.publications && CurrentId(r, slot) == Some(action.body.expectedCurrent) {
      InstallKeepsInv(r, slot, restored);
      var installed := Install(r, slot, RetiredHead(r, slot), restored).value;
      var r' := CommitRollback(r, action, grant, restored).0;
      if r'.publications == installed.publications && r'.current == installed.current && r'.index == installed.index {
        FlagIrrelevant(installed, r');
      }
    }
  }

  /** Why the operation identifier must be new: a rollback that goes through leaves the stored
      predecessors as they were exactly when no publication had that identifier. */
  lemma RollbackKeepsPredecessorsIff(r: Repository, action: Action, grant: Uuid, restored: Publication)
    requires Inv(r) && RollbackReady(action, restored)
    requires Ref(action.body.scope, action.body.id) in r.actions
      && r.actions[Ref(action.body.scope, action.body.id)].grant.None?
    requires CommitRollback(r, action, grant, restored).1.Ok?
    ensures var r' := CommitRollback(r, action, grant, restored).0;
            (forall ref :: ref in r.publications ==>
               ref in r'.publications && r'.publications[ref].previous == r.publications[ref].previous)
            <==> Ref(action.body.scope, action.body.id) !in r.publications
  {
    hide IndexOk; hide PublicationOk; hide Stamp; hide PutAll; hide SwapBatch; hide DistinctKeys; hide SlotOf;
    var slot, newRef := Slot(action.body.scope, action.body.corpusId), Ref(action.body.scope, restored.id);
    var r' := CommitRollback(r, action, grant, restored).0;
    HeadUnnamed(r, slot);
    HeadRetires(r, slot, Replaced);
    assert r'.publications[newRef].previous == Some(r.current[slot]);
    assert newRef in r.publications ==> r.publications[newRef].previous != Some(r.current[slot]);
    forall ref | ref in r.publications && ref != newRef
      ensures r'.publications[ref].previous == r.publications[ref].previous
    {
    }
  }

  /** And the history stays linear after it exactly when the identifier is neither the head it
      leaves nor named by anybody as a predecessor, as no new identifier is. */
  lemma RollbackKeepsHistoryIff(r: Repository, action: Action, grant: Uuid, restored: Publication)
    requires Inv(r) && RollbackReady(action, restored)
    requires Ref(action.body.scope, action.body.id) in r.actions
      && r.actions[Ref(action.body.scope, action.body.id)].grant.None?
    requires CommitRollback(r, action, grant, restored).1.Ok?
    ensures LinearOk(CommitRollback(r, action, grant, restored).0) <==>
            && action.body.id != action.body.expectedCurrent
            && !Named(r, Ref(action.body.scope, action.body.id))
    ensures Ref(action.body.scope, action.body.id) !in r.publications ==>
            action.body.id != action.body.expectedCurrent && !Named(r, Ref(action.body.scope, action.body.id))
  {
    hide IndexOk; hide PublicationOk; hide Stamp; hide PutAll; hide SwapBatch; hide DistinctKeys; hide SlotOf;
    hide LinearOk;
    var slot, newRef := Slot(action.body.scope, action.body.corpusId), Ref(action.body.scope, restored.id);
    var head := Ref(slot.scope, r.current[slot]);
    var r' := CommitRollback(r, action, grant, restored).0;
    HeadUnnamed(r, slot);
    HeadRetires(r, slot, Replaced);
    NamedStored(r, newRef);
    assert r'.publications.Keys == r.publications.Keys + {newRef};
    assert r'.publications[newRef] == restored;
    forall ref | ref in r.publications && ref != newRef
      ensures r'.publications[ref].previous == r.publications[ref].previous
      ensures r'.publications[ref].state == if ref == head then Replaced else r.publications[ref].state
    {
    }
    OverwriteKeepsLinearIff(r, r', newRef, head);
  }

  /** Somebody of the same scope names this publication as predecessor. */
  ghost predicate Named(r: Repository, before: Ref) {
    exists ref :: ref in r.publications && ref.scope == before.scope && r.publications[ref].previous == Some(before.id)
  }

  lemma NamedStored(r: Repository, before: Ref)
    requires LinearOk(r)
    ensures Named(r, before) ==> before in r.publications
  {
  }

  /** Writing one publication over another, with the retired head as predecessor. */
  lemma OverwriteKeepsLinearIff(r: Repository, r': Repository, newRef: Ref, head: Ref)
    requires LinearOk(r) && head in r.publications && head.scope == newRef.scope && !Named(r, head)
    requires r'.publications.Keys == r.publications.Keys + {newRef}
    requires r'.publications[newRef].previous == Some(head.id) && r'.publications[newRef].state == Current
    requires forall ref :: ref in r.publications && ref != newRef ==>
               && r'.publications[ref].previous == r.publications[ref].previous
               && r'.publications[ref].state == if ref == head then Replaced else r.publications[ref].state
    ensures LinearOk(r') <==> newRef != head && !Named(r, newRef)
  {
    if newRef != head && !Named(r, newRef) {
      forall ref | ref in r'.publications && r'.publications[ref].previous.Some?
        ensures var before := Ref(ref.scope, r'.publications[ref].previous.value);
                before in r'.publications && r'.publications[before].state != Current && before != ref
      {
        if ref != newRef {
          var before := Ref(ref.scope, r.publications[ref].previous.value);
          assert before in r.publications && before != ref && r.publications[before].state != Current;
          assert before != newRef;
        }
      }
      forall a, b | a in r'.publications && b in r'.publications && a.scope == b.scope
                    && r'.publications[a].previous.Some? && r'.publications[a].previous == r'.publications[b].previous
        ensures a == b
      {
      }
    } else if newRef != head {
      var ref :| ref in r.publications && ref.scope == newRef.scope && r.publications[ref].previous == Some(newRef.id);
      assert ref != newRef;
      assert r'.publications[ref].previous == Some(newRef.id);
    }
  }
}
