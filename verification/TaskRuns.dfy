/**
 Whole runs of the task repository: what every sequence of operations keeps, and the
 exclusion that execution leases give.
 */
module TaskRuns {
  import opened Common
  import opened Timestamp
  import opened TaskLog
  import opened MemoryRepository

  datatype Op =
    | CreateOp(scope: Scope, ask: Ask, key: string, newTaskId: Uuid, newEventId: Uuid, at: Utc)
    | GetOp(scope: Scope, taskId: Uuid)
    | EventsOp(scope: Scope, taskId: Uuid, after: int)
    | AppendOp(scope: Scope, event: TaskEvent)
    | ClaimOp(scope: Scope, taskId: Uuid, owner: string, now: Utc, lease: Utc)

  datatype Reply =
    | TaskReply(task: Task)
    | BatchReply(batch: Batch)
    | ClaimReply(granted: bool)
    | Failure(code: Code)

  function OfTask(r: Result<Task, Code>): Reply {
    match r case Ok(t) => TaskReply(t) case Err(c) => Failure(c)
  }

  function OfBatch(r: Result<Batch, Code>): Reply {
    match r case Ok(b) => BatchReply(b) case Err(c) => Failure(c)
  }

  function OfClaim(r: Result<bool, Code>): Reply {
    match r case Ok(b) => ClaimReply(b) case Err(c) => Failure(c)
  }

  ghost function Step(m: Memory, op: Op): (Memory, Reply)
    requires Linked(m)
  {
    match op
    case CreateOp(scope, ask, key, taskId, eventId, at) =>
      var (m', r) := Create(m, scope, ask, key, taskId, eventId, at); (m', OfTask(r))
    case GetOp(scope, taskId) => (m, OfTask(RequireTask(m.tasks, scope, taskId)))
    case EventsOp(scope, taskId, after) => (m, OfBatch(Events(m, scope, taskId, after)))
    case AppendOp(scope, event) =>
      var (m', r) := Append(m, scope, event); (m', OfTask(r))
    case ClaimOp(scope, taskId, owner, now, lease) =>
      var (m', r) := Claim(m, scope, taskId, owner, now, lease); (m', OfClaim(r))
  }

  /** No stored event carries this identifier. */
  ghost predicate UnusedEventId(m: Memory, eventId: Uuid) {
    forall id, i :: id in m.events && 0 <= i < |m.events[id]| ==> m.events[id][i].eventId != eventId
  }

  /** An operation that inserts rows brings identifiers nobody used before. */
  ghost predicate Fresh(m: Memory, op: Op)
    requires Linked(m)
  {
    match op
    case CreateOp(scope, _, key, taskId, eventId, _) =>
      Identity(scope, key) !in m.idempotency ==> taskId !in m.tasks && UnusedEventId(m, eventId)
    case AppendOp(scope, event) => Append(m, scope, event).1.Ok? ==> UnusedEventId(m, event.eventId)
    case _ => true
  }

  lemma StepKeepsInv(m: Memory, op: Op)
    requires Inv(m) && Fresh(m, op)
    ensures Inv(Step(m, op).0)
  {
    hide Entry;
    match op
    case CreateOp(scope, ask, key, taskId, eventId, at) =>
      if Identity(scope, key) !in m.idempotency {
        CreateKeepsInv(m, scope, ask, key, taskId, eventId, at);
      }
    case AppendOp(scope, event) => AppendKeepsInv(m, scope, event);
    case ClaimOp(scope, taskId, owner, now, lease) => ClaimKeepsInv(m, scope, taskId, owner, now, lease);
    case _ =>
  }

  ghost predicate FreshRun(m: Memory, ops: seq<Op>)
    requires Inv(m)
    decreases |ops|
  {
    ops == [] || (Fresh(m, ops[0]) && (StepKeepsInv(m, ops[0]); FreshRun(Step(m, ops[0]).0, ops[1..])))
  }

  /** The dictionaries after a run. Whatever the operations, the invariant holds: every task
      is the fold of its log and is terminal exactly when its execution is completed. */
  ghost function RunFrom(m: Memory, ops: seq<Op>): (m': Memory)
    requires Inv(m) && FreshRun(m, ops)
    ensures Inv(m')
    decreases |ops|
  {
    if ops == [] then m else StepKeepsInv(m, ops[0]); RunFrom(Step(m, ops[0]).0, ops[1..])
  }

  // ---------------------------------------------------------------------
  // Logs only grow, and only before the end
  // ---------------------------------------------------------------------

  /** How one task may differ between two moments of a run. */
  ghost predicate Evolves(m: Memory, m': Memory, id: Uuid)
    requires Linked(m) && Linked(m') && id in m.tasks
  {
    && id in m'.tasks && m'.tasks[id].scope == m.tasks[id].scope
    && m.events[id] <= m'.events[id]
    && (m.tasks[id].state.Terminal() ==> m'.tasks[id] == m.tasks[id] && m'.events[id] == m.events[id])
    && (!m.tasks[id].state.Accepted? ==> !m'.tasks[id].state.Accepted?)
  }

  lemma StepEvolves(m: Memory, op: Op, id: Uuid)
    requires Inv(m) && Fresh(m, op) && id in m.tasks
    ensures Inv(Step(m, op).0) && Evolves(m, Step(m, op).0, id)
  {
    hide Entry; hide ValidatedAppend; hide Claimable; hide ValidClaim;
    StepKeepsInv(m, op);
    if op.AppendOp? && Append(m, op.scope, op.event).1.Ok? {
      AppendBasics(m.tasks[op.event.taskId], op.event, Append(m, op.scope, op.event).1.value);
    }
  }

  /** Over every run a log is only extended, a terminal task never changes again, and a task
      that left ACCEPTED never returns to it. */
  lemma {:induction false} RunEvolves(m: Memory, ops: seq<Op>, id: Uuid)
    requires Inv(m) && FreshRun(m, ops) && id in m.tasks
    ensures Evolves(m, RunFrom(m, ops), id)
    decreases |ops|
  {
    hide Entry; hide Step; hide Fresh;
    if ops != [] {
      StepEvolves(m, ops[0], id);
      RunEvolves(Step(m, ops[0]).0, ops[1..], id);
    }
  }

  // ---------------------------------------------------------------------
  // Leases
  // ---------------------------------------------------------------------

  /** A granted claim and its validity [from, until), in elapsed microseconds. */
  datatype Grant = Grant(owner: string, from: int, until: int)

  /** The claim on `id` granted by one operation, if any. */
  ghost function GrantedBy(m: Memory, op: Op, id: Uuid): seq<Grant>
    requires Linked(m)
  {
    if op.ClaimOp? && op.taskId == id && Step(m, op).1 == ClaimReply(true)
    then [Grant(op.owner, Micros(op.now), Micros(op.lease))] else []
  }

  /** All claims on `id` granted during a run, in order. */
  ghost function Grants(m: Memory, ops: seq<Op>, id: Uuid): seq<Grant>
    requires Inv(m) && FreshRun(m, ops)
    decreases |ops|
  {
    if ops == [] then []
    else
      StepKeepsInv(m, ops[0]);
      GrantedBy(m, ops[0], id) + Grants(Step(m, ops[0]).0, ops[1..], id)
  }

  /** `g` may be granted while the record is as in `m`. */
  ghost predicate MayFollow(m: Memory, id: Uuid, g: Grant)
    requires Linked(m)
  {
    id in m.tasks ==>
      && m.tasks[id].state.Accepted?
      && (m.executions[id].status.Claimed? ==>
            && m.executions[id].owner != Some(g.owner)
            && m.executions[id].lease.Some? && Micros(m.executions[id].lease.value) <= g.from)
  }

  lemma GrantRespectsLease(m: Memory, op: Op, id: Uuid)
    requires Inv(m) && GrantedBy(m, op, id) != []
    ensures var g := GrantedBy(m, op, id)[0];
            && id in m.tasks && MayFollow(m, id, g) && g.from < g.until
            && g.owner == op.owner && g.until == Micros(op.lease)
            && Step(m, op).0 == m.(executions := m.executions[id := Execution(Claimed, Some(op.owner), Some(op.lease))])
  {
    hide IsFold; hide Micros;
    assert id in m.tasks;
    assert Entry(id, m.tasks[id], m.events[id], m.executions[id]);
  }

  /** Between grants the lease stays as it is, or the task has left ACCEPTED. */
  lemma NoGrantKeepsLease(m: Memory, op: Op, id: Uuid)
    requires Inv(m) && Fresh(m, op) && id in m.tasks && GrantedBy(m, op, id) == []
    ensures var m' := Step(m, op).0;
            id in m'.tasks && id in m'.executions &&
            (!m'.tasks[id].state.Accepted? || m'.executions[id] == m.executions[id])
  {
    hide Entry; hide Claimable; hide ValidClaim; hide ValidatedAppend;
    if op.AppendOp? && Append(m, op.scope, op.event).1.Ok? {
      AppendBasics(m.tasks[op.event.taskId], op.event, Append(m, op.scope, op.event).1.value);
    }
  }

  /** Disjoint validity intervals in order, neighbours with different owners. */
  ghost predicate Exclusive(gs: seq<Grant>) {
    && (forall i :: 0 <= i < |gs| ==> gs[i].from < gs[i].until)
    && (forall i, j :: 0 <= i < j < |gs| ==> gs[i].until <= gs[j].from)
    && (forall i :: 0 < i < |gs| ==> gs[i].owner != gs[i - 1].owner)
  }

  lemma PrependExclusive(g: Grant, gs: seq<Grant>)
    requires Exclusive(gs) && g.from < g.until
    requires gs != [] ==> g.until <= gs[0].from && gs[0].owner != g.owner
    ensures Exclusive([g] + gs)
  {
    var all := [g] + gs;
    forall i, j | 0 <= i < j < |all| ensures all[i].until <= all[j].from {
      assert all[j] == gs[j - 1];
      if i == 0 {
        assert j == 1 || gs[0].until <= gs[j - 1].from;
      } else {
        assert all[i] == gs[i - 1];
      }
    }
    forall i | 0 < i < |all| ensures all[i].owner != all[i - 1].owner {
      assert all[i] == gs[i - 1];
      if i > 1 {
        assert all[i - 1] == gs[i - 2];
      }
    }
  }

  /** For any order of clock values, the claims granted on one task have pairwise disjoint
      validity intervals, neighbouring grants have different owners, the first one respects
      the lease already held, and a task that left ACCEPTED is never claimed. */
  lemma {:induction false} LeaseExclusion(m: Memory, ops: seq<Op>, id: Uuid)
    requires Inv(m) && FreshRun(m, ops)
    ensures Exclusive(Grants(m, ops, id))
    ensures Grants(m, ops, id) != [] ==> MayFollow(m, id, Grants(m, ops, id)[0])
    ensures id in m.tasks && !m.tasks[id].state.Accepted? ==> Grants(m, ops, id) == []
    decreases |ops|
  {
    hide Entry; hide Step; hide Fresh; hide Micros; hide GrantedBy; hide Exclusive;
    if ops == [] {
      assert Exclusive([]) by { NoGrants(); }
    } else {
      var op := ops[0];
      StepKeepsInv(m, op);
      var m' := Step(m, op).0;
      var rest := Grants(m', ops[1..], id);
      LeaseExclusion(m', ops[1..], id);
      if GrantedBy(m, op, id) == [] {
        assert Grants(m, ops, id) == rest;
        if id in m.tasks {
          NoGrantKeepsLease(m, op, id);
          StepEvolves(m, op, id);
        }
      } else {
        GrantIsSingle(m, op, id);
        var g := GrantedBy(m, op, id)[0];
        GrantRespectsLease(m, op, id);
        assert Grants(m, ops, id) == [g] + rest;
        PrependExclusive(g, rest);
      }
    }
  }

  lemma NoGrants()
    ensures Exclusive([])
  {
  }

  lemma GrantIsSingle(m: Memory, op: Op, id: Uuid)
    requires Inv(m)
    ensures |GrantedBy(m, op, id)| <= 1
  {
    hide Entry; hide Step;
  }
}
