/**
 The release repository object of knowledge/release.py: dictionaries and an index object that
 its commits change in place, each proved to do what the commit functions of `Release` say.
 */
module ReleaseRepository {
  import opened Common
  import opened KnowledgeIndex
  import opened Release

  /** The index batch of a commit: outgoing entries the new ones do not overwrite, then the new ones. */
  method IndexBatch(outgoing: seq<Snapshot>, incoming: seq<Snapshot>) returns (batch: seq<Snapshot>)
    ensures batch == SwapBatch(outgoing, incoming)
  {
    var newKeys := DocumentKeys(incoming);
    batch := [];
    var i := 0;
    while i < |outgoing|
      invariant 0 <= i <= |outgoing|
      invariant batch == Without(outgoing[..i], newKeys)
    {
      assert outgoing[..i + 1][..i] == outgoing[..i];
      if DocumentKeyOf(outgoing[i]) !in newKeys {
        batch := batch + [outgoing[i]];
      }
      i := i + 1;
    }
    assert outgoing[..i] == outgoing;
    batch := batch + incoming;
  }

  class InMemoryKnowledgeReleaseRepository {
    const index: InMemoryKnowledgeIndex
    var candidates: map<Ref, Candidate>
    var publications: map<Ref, Publication>
    var actions: map<Ref, Action>
    var current: map<Slot, Uuid>
    var failNextCommit: bool

    /** The stored dictionaries and the index, as one value. */
    ghost function Stored(): Repository
      reads this, index
    {
      Repository(candidates, publications, actions, current, index.snapshots, failNextCommit)
    }

    constructor (index: InMemoryKnowledgeIndex)
      ensures this.index == index
      ensures Stored() == EMPTY.(index := index.snapshots)
    {
      this.index := index;
      candidates, publications, actions, current := map[], map[], map[], map[];
      failNextCommit := false;
    }

    method CommitPublication(candidate: Candidate, publication: Publication) returns (result: Result<Publication, Code>)
      modifies this, index
      ensures (Stored(), result) == Release.CommitPublication(old(Stored()), candidate, publication)
    {
      var scope := candidate.body.scope;
      var slot, ref := Slot(scope, candidate.body.corpusId), Ref(scope, publication.id);
      if ref in publications {
        if publications[ref].body == candidate.body {
          return Ok(publications[ref]);
        }
        return Err(PublicationConflict);
      }
      var currentId := if slot in current then Some(current[slot]) else None;
      if currentId != candidate.body.base {
        return Err(BaseStale);
      }
      if slot in current && Ref(scope, current[slot]) !in publications {
        return Err(PublicationNotFound);
      }
      if failNextCommit {
        failNextCommit := false;
        return Err(AtomicCommitFailed);
      }
      var outgoing: seq<Snapshot> := [];
      var updated := publications;
      if slot in current {
        var retired := Retire(publications[Ref(scope, current[slot])], Replaced);
        outgoing := retired.snapshots;
        updated := updated[Ref(scope, retired.id) := retired];
      }
      var batch := IndexBatch(outgoing, publication.snapshots);
      var replaced := index.ReplaceMany(batch);
      if !replaced {
        return Err(IndexDuplicate);
      }
      publications := updated[ref := publication];
      current := current[slot := publication.id];
      candidates := candidates[Ref(scope, candidate.body.candidateId) :=
        candidate.(state := CandidatePublished, publicationId := Some(publication.id))];
      return Ok(publication);
    }

    method CommitWithdrawal(action: Action, grant: Uuid) returns (result: Result<Publication, Code>)
      modifies this, index
      ensures (Stored(), result) == Release.CommitWithdrawal(old(Stored()), action, grant)
    {
      var b := action.body;
      var slot, actionRef, targetRef := Slot(b.scope, b.corpusId), Ref(b.scope, b.id), Ref(b.scope, b.target);
      if actionRef !in actions {
        return Err(ActionNotFound);
      }
      if actions[actionRef].grant.Some? {
        if targetRef !in publications {
          return Err(PublicationNotFound);
        }
        return Ok(publications[targetRef]);
      }
      if slot !in current || current[slot] != b.expectedCurrent {
        return Err(CurrentStale);
      }
      if failNextCommit {
        failNextCommit := false;
        return Err(AtomicCommitFailed);
      }
      if targetRef !in publications {
        return Err(PublicationNotFound);
      }
      var withdrawn := Retire(publications[targetRef], Recalled);
      var replaced := index.ReplaceMany(withdrawn.snapshots);
      if !replaced {
        return Err(IndexDuplicate);
      }
      publications := publications[Ref(b.scope, withdrawn.id) := withdrawn];
      current := current - {slot};
      actions := actions[actionRef := action.(grant := Some(grant))];
      return Ok(withdrawn);
    }

    method CommitRollback(action: Action, grant: Uuid, restored: Publication)
      returns (result: Result<Publication, Code>)
      modifies this, index
      ensures (Stored(), result) == Release.CommitRollback(old(Stored()), action, grant, restored)
    {
      var b := action.body;
      var slot, actionRef := Slot(b.scope, b.corpusId), Ref(b.scope, b.id);
      var newRef, currentRef := Ref(b.scope, restored.id), Ref(b.scope, b.expectedCurrent);
      if actionRef !in actions {
        return Err(ActionNotFound);
      }
      if actions[actionRef].grant.Some? {
        if newRef !in publications {
          return Err(PublicationNotFound);
        }
        return Ok(publications[newRef]);
      }
      if slot !in current || current[slot] != b.expectedCurrent {
        return Err(CurrentStale);
      }
      if failNextCommit {
        failNextCommit := false;
        return Err(AtomicCommitFailed);
      }
      if currentRef !in publications {
        return Err(PublicationNotFound);
      }
      var superseded := Retire(publications[currentRef], Replaced);
      var batch := IndexBatch(superseded.snapshots, restored.snapshots);
      var replaced := index.ReplaceMany(batch);
      if !replaced {
        return Err(IndexDuplicate);
      }
      publications := publications[Ref(b.scope, superseded.id) := superseded][newRef := restored];
      current := current[slot := restored.id];
      actions := actions[actionRef := action.(grant := Some(grant))];
      return Ok(restored);
    }
  }
}
