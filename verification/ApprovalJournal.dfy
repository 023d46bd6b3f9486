/** The approval journal of approval/service.py: one hash chain for each approval of a project. */
module ApprovalJournal {
  import opened Common
  import opened HashChain

  datatype Kind = Knowledge | Plan | Report | CriticalFinding | Instrument | Destructive | Release

  /** A checkpoint request; action, target, preview and version are one opaque text. */
  datatype Candidate = Candidate(
    approvalId: Uuid, scope: Scope, taskId: Uuid, kind: Kind, target: string, hash: Hash, policyVersion: string,
    createdAt: int, expiresAt: int)

  datatype Delegation = Delegation(
    id: Uuid, approvalId: Uuid, hash: Hash, grantor: Uuid, delegate: Uuid, role: string, createdAt: int, expiresAt: int)

  datatype Outcome = Approves | Rejects | RequestsChanges | Expires | Cancels

  datatype Decision = Decision(
    id: Uuid, approvalId: Uuid, hash: Hash, actor: Uuid, role: string, outcome: Outcome, reason: string, decidedAt: int)

  datatype Grant = Grant(resumeId: Uuid, approvalId: Uuid, scope: Scope, hash: Hash, resumedAt: int)

  datatype Payload =
    | CandidateEvent(candidate: Candidate)
    | DelegationEvent(delegation: Delegation)
    | DecisionEvent(decision: Decision)
    | ResumeEvent(grant: Grant)

  datatype Record = Record(
    eventId: Uuid, approvalId: Uuid, scope: Scope, payload: Payload, payloadSha256: Hash, createdAt: int)

  datatype Key = Key(tenant: Uuid, project: Uuid, approvalId: Uuid)

  /** The hash of payloads and the hash of chain events. */
  datatype Hashing = Hashing(payload: Payload -> Hash, event: Digest<Record>)

  type Approvals = Journal<Key, Record>

  function KeyOf(scope: Scope, approvalId: Uuid): Key {
    Key(scope.tenant, scope.project, approvalId)
  }

  function PlaceOf(r: Record): Key {
    KeyOf(r.scope, r.approvalId)
  }

  function IdOf(r: Record): Uuid {
    r.eventId
  }

  function IntactBy(payload: Payload -> Hash): Record -> bool {
    (r: Record) => r.payloadSha256 == payload(r.payload)
  }

  ghost predicate InOrder(j: Approvals, h: Hashing) {
    JournalOk(j, h.event, IntactBy(h.payload), PlaceOf, IdOf)
  }

  datatype JournalError = IdempotencyConflict

  predicate SameProject(a: Scope, b: Scope) {
    a.tenant == b.tenant && a.project == b.project
  }

  predicate SameType(a: Payload, b: Payload) {
    a.CandidateEvent? == b.CandidateEvent? && a.DelegationEvent? == b.DelegationEvent?
    && a.DecisionEvent? == b.DecisionEvent? && a.ResumeEvent? == b.ResumeEvent?
  }

  function NewRecord(h: Hashing, id: Uuid, approvalId: Uuid, scope: Scope, payload: Payload, now: int): Record {
    Record(id, approvalId, scope, payload, h.payload(payload), now)
  }

  /** What `append` does: a repeated identifier must repeat the content. */
  function Appended(j: Approvals, h: Hashing, r: Record): (Approvals, Result<Link<Record>, JournalError>) {
    if r.eventId in j.byId then
      var stored := j.byId[r.eventId].record;
      (j, if stored.approvalId == r.approvalId && SameProject(stored.scope, r.scope)
        && SameType(stored.payload, r.payload)
             && stored.payloadSha256 == r.payloadSha256
          then Ok(j.byId[r.eventId]) else Err(IdempotencyConflict))
    else
      (Append(j, h.event, PlaceOf(r), r.eventId, r), Ok(NextLink(h.event, ChainAt(j, PlaceOf(r)), r)))
  }

  lemma AppendedOk(j: Approvals, h: Hashing, r: Record)
    requires InOrder(j, h) && r.payloadSha256 == h.payload(r.payload)
    ensures InOrder(Appended(j, h, r).0, h)
  {
    hide JournalOk; hide Append;
    if r.eventId !in j.byId {
      AppendKeepsJournal(j, h.event, IntactBy(h.payload), PlaceOf, IdOf, r);
    }
  }

  class InMemoryApprovalRepository {
    const hashing: Hashing
    var events: map<Key, seq<Link<Record>>>
    var byId: map<Uuid, Link<Record>>

    ghost function Contents(): Approvals
      reads this
    {
      Journal(events, byId)
    }

    ghost predicate Valid()
      reads this
    {
      InOrder(Contents(), hashing)
    }

    constructor (hashing: Hashing)
      ensures Valid() && this.hashing == hashing && Contents() == Journal(map[], map[])
    {
      this.hashing := hashing;
      events, byId := map[], map[];
    }

    method Append(id: Uuid, approvalId: Uuid, scope: Scope, payload: Payload, now: int)
      returns (result: Result<Link<Record>, JournalError>)
      requires Valid()
      modifies this
      ensures Valid()
      ensures (Contents(), result) ==
        Appended(old(Contents()), hashing, NewRecord(hashing, id, approvalId, scope, payload, now))
    {
      hide InOrder;
      var payloadSha256 := hashing.payload(payload);
      var record := Record(id, approvalId, scope, payload, payloadSha256, now);
      AppendedOk(Contents(), hashing, record);
      if id in byId {
        var stored := byId[id].record;
        if stored.approvalId == approvalId && SameProject(stored.scope, scope) && SameType(stored.payload, payload)
           && stored.payloadSha256 == payloadSha256
        {
          return Ok(byId[id]);
        }
        return Err(IdempotencyConflict);
      }
      var key := KeyOf(scope, approvalId);
      var chain := if key in events then events[key] else [];
      var previous := if chain == [] then ZERO else chain[|chain| - 1].hash;
      var event := Link(record, |chain| + 1, previous, hashing.event(record, |chain| + 1, previous));
      events := events[key := chain + [event]];
      byId := byId[id := event];
      return Ok(event);
    }

    /** Reading a chain verifies it first; whatever was appended verifies. */
    method List(scope: Scope, approvalId: Uuid) returns (chain: seq<Link<Record>>, verified: bool)
      requires Valid()
      ensures chain == ChainAt(Contents(), KeyOf(scope, approvalId)) && verified
    {
      var key := KeyOf(scope, approvalId);
      chain := if key in events then events[key] else [];
      verified := Verify(hashing.event, IntactBy(hashing.payload), chain);
    }
  }

  /** Two approval journals that agree on the last hash of an approval hold the same events for it. */
  lemma SameEndSameHistory(h: Hashing, j: Approvals, j': Approvals, key: Key)
    requires Injective(h.event) && InOrder(j, h) && InOrder(j', h)
    requires ChainAt(j, key) != [] && ChainAt(j', key) != [] && Last(ChainAt(j, key)) == Last(ChainAt(j', key))
    ensures ChainAt(j, key) == ChainAt(j', key)
  {
    hide Verifies; hide Injective;
    LastHashIdentifies(h.event, IntactBy(h.payload), ChainAt(j, key), ChainAt(j', key));
  }
}
