/** The audit journal of observability/audit.py: one hash chain for each project. */
module AuditJournal {
  import opened Common
  import opened HashChain

  /** An audit record; the descriptive fields are one opaque text. */
  datatype AuditRecord = AuditRecord(eventId: Uuid, scope: Scope, kind: string, details: string)

  /** What is hashed: the record with the trace it was written under. */
  datatype Traced = Traced(record: AuditRecord, traceId: string, spanId: string)

  datatype Project = Project(tenant: Uuid, project: Uuid)

  datatype AuditError = IdempotencyConflict

  function PlaceOf(t: Traced): Project {
    Project(t.record.scope.tenant, t.record.scope.project)
  }

  function IdOf(t: Traced): Uuid {
    t.record.eventId
  }

  predicate Intact(t: Traced) {
    true
  }

  class InMemoryAuditRepository {
    const digest: Digest<Traced>
    var events: map<Project, seq<Link<Traced>>>
    var byId: map<Uuid, Link<Traced>>

    ghost function Contents(): Journal<Project, Traced>
      reads this
    {
      Journal(events, byId)
    }

    ghost predicate Valid()
      reads this
    {
      JournalOk(Contents(), digest, Intact, PlaceOf, IdOf)
    }

    constructor (digest: Digest<Traced>)
      ensures Valid() && this.digest == digest && Contents() == Journal(map[], map[])
    {
      this.digest := digest;
      events, byId := map[], map[];
    }

    /** A repeated identifier must repeat the request and then gets the stored event; a new one
        extends its project's chain. */
    method Append(traced: Traced) returns (result: Result<Link<Traced>, AuditError>)
      requires Valid()
      modifies this
      ensures Valid()
      ensures var id := traced.record.eventId;
              if id in old(byId) then
                && Contents() == old(Contents())
                && result == (if old(byId[id]).record == traced then Ok(old(byId[id])) else Err(IdempotencyConflict))
              else
                && Contents() == HashChain.Append(old(Contents()), digest, PlaceOf(traced), id, traced)
                && result.Ok? && byId[id] == result.value && result.value.record == traced
    {
      hide JournalOk;
      var id := traced.record.eventId;
      if id in byId {
        return if byId[id].record == traced then Ok(byId[id]) else Err(IdempotencyConflict);
      }
      AppendKeepsJournal(Contents(), digest, Intact, PlaceOf, IdOf, traced);
      var key := PlaceOf(traced);
      var chain := if key in events then events[key] else [];
      var previous := if chain == [] then ZERO else chain[|chain| - 1].hash;
      var event := Link(traced, |chain| + 1, previous, digest(traced, |chain| + 1, previous));
      events := events[key := chain + [event]];
      byId := byId[id := event];
      return Ok(event);
    }

    /** Whatever was appended verifies. */
    method VerifyProject(project: Project) returns (ok: bool)
      requires Valid()
      ensures ok
    {
      var chain := if project in events then events[project] else [];
      ok := HashChain.Verify(digest, Intact, chain);
    }
  }

  /** Two audit journals that agree on the last hash of a project hold the same events for it. */
  lemma SameEndSameHistory(digest: Digest<Traced>, j: Journal<Project, Traced>, j': Journal<Project, Traced>,
        p: Project)
    requires Injective(digest)
    requires JournalOk(j, digest, Intact, PlaceOf, IdOf) && JournalOk(j', digest, Intact, PlaceOf, IdOf)
    requires ChainAt(j, p) != [] && ChainAt(j', p) != [] && Last(ChainAt(j, p)) == Last(ChainAt(j', p))
    ensures ChainAt(j, p) == ChainAt(j', p)
  {
    hide Verifies; hide Injective;
    LastHashIdentifies(digest, Intact, ChainAt(j, p), ChainAt(j', p));
  }
}
