/**
 The in-memory task repository of client/service.py: dictionaries for tasks, events,
 idempotency records and execution leases.
 */
module MemoryRepository {
  import opened Common
  import opened Timestamp
  import opened TaskLog
  import opened Listing

  datatype ExecutionStatus = Pending | Claimed | Completed

  datatype Execution = Execution(status: ExecutionStatus, owner: Option<string>, lease: Option<Utc>)

  datatype Identity = Identity(scope: Scope, key: string)

  datatype Registered = Registered(ask: Ask, taskId: Uuid)

  datatype Batch = Batch(taskId: Uuid, afterSequence: int, lastSequence: int, terminal: bool, events: seq<TaskEvent>)

  /** The four dictionaries. */
  datatype Memory = Memory(
    tasks: map<Uuid, Task>, events: map<Uuid, seq<TaskEvent>>,
    idempotency: map<Identity, Registered>, executions: map<Uuid, Execution>)

  const EMPTY := Memory(map[], map[], map[], map[])

  const UNCLAIMED := Execution(Pending, None, None)
  const DONE := Execution(Completed, None, None)

  /** The dictionaries have the same keys and idempotency records name existing tasks. */
  ghost predicate Linked(m: Memory) {
    && m.events.Keys == m.tasks.Keys && m.executions.Keys == m.tasks.Keys
    && (forall i :: i in m.idempotency ==> m.idempotency[i].taskId in m.tasks)
  }

  // ---------------------------------------------------------------------
  // Operations on the dictionaries
  // ---------------------------------------------------------------------

  function RequireTask(tasks: map<Uuid, Task>, scope: Scope, taskId: Uuid): Result<Task, Code> {
    if taskId !in tasks || tasks[taskId].scope != scope then Err(TaskNotFound) else Ok(tasks[taskId])
  }

  ghost function Create(m: Memory, scope: Scope, ask: Ask, key: string, taskId: Uuid, eventId: Uuid, now: Utc)
    : (Memory, Result<Task, Code>)
    requires Linked(m)
  {
    var identity := Identity(scope, key);
    if identity in m.idempotency then
      var existing := m.idempotency[identity];
      if existing.ask != ask then (m, Err(IdempotencyConflict))
      else (m, Ok(m.tasks[existing.taskId]))
    else
      var task := InitialTask(scope, ask, taskId, now);
      (Memory(m.tasks[taskId := task],
              m.events[taskId := [InitialEvent(scope, taskId, eventId, now)]],
              m.idempotency[identity := Registered(ask, taskId)],
              m.executions[taskId := UNCLAIMED]),
       Ok(task))
  }

  /** The events of a log after a cursor. */
  function After(log: seq<TaskEvent>, cursor: int): seq<TaskEvent> {
    if log == [] then []
    else After(log[..|log| - 1], cursor) + (if log[|log| - 1].sequence > cursor then [log[|log| - 1]] else [])
  }

  ghost function Events(m: Memory, scope: Scope, taskId: Uuid, after: int): Result<Batch, Code>
    requires Linked(m)
  {
    match RequireTask(m.tasks, scope, taskId)
    case Err(code) => Err(code)
    case Ok(task) =>
      if after < 0 || after > task.lastSequence then Err(CursorInvalid)
      else Ok(Batch(taskId, after, task.lastSequence, task.state.Terminal(), After(m.events[taskId], after)))
  }

  ghost function Append(m: Memory, scope: Scope, event: TaskEvent): (Memory, Result<Task, Code>)
    requires Linked(m)
  {
    var id := event.taskId;
    match RequireTask(m.tasks, scope, id)
    case Err(code) => (m, Err(code))
    case Ok(task) =>
      match ValidatedAppend(task, scope, event)
      case Err(code) => (m, Err(code))
      case Ok(updated) =>
        (Memory(m.tasks[id := updated],
                m.events[id := m.events[id] + [event]],
                m.idempotency,
                if updated.state.Terminal() then m.executions[id := DONE] else m.executions),
         Ok(updated))
  }

  predicate ValidOwner(owner: string) {
    0 < |owner| <= 128 && '\0' !in owner && '\r' !in owner && '\n' !in owner
  }

  /** _validate_execution_query. */
  predicate ValidQuery(owner: string, limit: int) {
    ValidOwner(owner) && 1 <= limit <= 256
  }

  /** _validate_execution_arguments. */
  predicate ValidClaim(owner: string, now: Utc, lease: Utc) {
    ValidOwner(owner) && Micros(now) < Micros(lease)
  }

  predicate ExpiredForeign(e: Execution, owner: string, now: Utc) {
    e.status.Claimed? && e.owner != Some(owner) && e.lease.Some? && Micros(e.lease.value) <= Micros(now)
  }

  predicate Claimable(e: Execution, owner: string, now: Utc) {
    e.status.Pending? || ExpiredForeign(e, owner, now)
  }

  ghost function Claim(m: Memory, scope: Scope, taskId: Uuid, owner: string, now: Utc, lease: Utc)
    : (Memory, Result<bool, Code>)
    requires Linked(m)
  {
    if !ValidClaim(owner, now, lease) then (m, Err(ArgumentInvalid))
    else
      match RequireTask(m.tasks, scope, taskId)
      case Err(code) => (m, Err(code))
      case Ok(task) =>
        if !task.state.Accepted? || !Claimable(m.executions[taskId], owner, now) then (m, Ok(false))
        else (m.(executions := m.executions[taskId := Execution(Claimed, Some(owner), Some(lease))]), Ok(true))
  }

  /** The tasks `pending_executions` selects before ordering and cutting off. */
  function SelectPending(tasks: map<Uuid, Task>, executions: map<Uuid, Execution>, owner: string, now: Utc): set<Task>
    requires executions.Keys == tasks.Keys
  {
    set id | id in tasks && tasks[id].state.Accepted? && Claimable(executions[id], owner, now) :: tasks[id]
  }

  predicate IsOrphan(task: Task, e: Execution, owner: string, now: Utc) {
    !task.state.Terminal() && !task.state.Accepted? && ExpiredForeign(e, owner, now)
  }

  /** The tasks `orphaned_executions` selects before ordering and cutting off. */
  function SelectOrphaned(tasks: map<Uuid, Task>, executions: map<Uuid, Execution>, owner: string, now: Utc): set<Task>
    requires executions.Keys == tasks.Keys
  {
    set id | id in tasks && IsOrphan(tasks[id], executions[id], owner, now) :: tasks[id]
  }

  ghost function PendingTasks(m: Memory, owner: string, now: Utc): set<Task>
    requires Linked(m)
  {
    SelectPending(m.tasks, m.executions, owner, now)
  }

  ghost function OrphanedTasks(m: Memory, owner: string, now: Utc): set<Task>
    requires Linked(m)
  {
    SelectOrphaned(m.tasks, m.executions, owner, now)
  }

  predicate CreatedBefore(a: Task, b: Task) {
    Micros(a.createdAt) < Micros(b.createdAt) || (a.createdAt == b.createdAt && a.taskId < b.taskId)
  }

  predicate UpdatedBefore(a: Task, b: Task) {
    Micros(a.updatedAt) < Micros(b.updatedAt) || (a.updatedAt == b.updatedAt && a.taskId < b.taskId)
  }

  // ---------------------------------------------------------------------
  // The invariant
  // ---------------------------------------------------------------------

  /** Owner and lease are set exactly while claimed. */
  predicate WellFormedExecution(e: Execution) {
    (e.status.Claimed? <==> e.owner.Some?) && (e.status.Claimed? <==> e.lease.Some?)
  }

  /** What the three entries of one task satisfy. */
  ghost predicate Entry(id: Uuid, task: Task, log: seq<TaskEvent>, e: Execution) {
    && task.taskId == id
    && IsFold(task, log)
    && WellFormedExecution(e)
    && (e.status.Completed? <==> task.state.Terminal())
  }

  /** Every task is the fold of its log, its execution record is completed exactly when it
      is terminal, and every idempotency record names a task of its own scope. */
  ghost predicate Inv(m: Memory) {
    && Linked(m)
    && (forall id :: id in m.tasks ==> Entry(id, m.tasks[id], m.events[id], m.executions[id]))
    && (forall i :: i in m.idempotency ==> m.tasks[m.idempotency[i].taskId].scope == i.scope)
  }

  /** Adding a task nobody knows together with its idempotency record. */
  lemma NewKeepsInv(m: Memory, id: Uuid, task: Task, log: seq<TaskEvent>, identity: Identity, ask: Ask)
    requires Inv(m) && id !in m.tasks && task.scope == identity.scope && Entry(id, task, log, UNCLAIMED)
    ensures Inv(Memory(m.tasks[id := task], m.events[id := log],
                       m.idempotency[identity := Registered(ask, id)], m.executions[id := UNCLAIMED]))
  {
    hide Entry;
  }

  lemma CreateKeepsInv(m: Memory, scope: Scope, ask: Ask, key: string, taskId: Uuid, eventId: Uuid, now: Utc)
    requires Inv(m) && (taskId !in m.tasks || Identity(scope, key) in m.idempotency)
    ensures Inv(Create(m, scope, ask, key, taskId, eventId, now).0)
  {
    hide IsFold; hide InitialEvent;
    FoldInitial(scope, ask, taskId, eventId, now);
    if taskId !in m.tasks {
      NewKeepsInv(m, taskId, InitialTask(scope, ask, taskId, now), [InitialEvent(scope, taskId, eventId, now)],
                  Identity(scope, key), ask);
    }
  }

  /** Replacing one task's entries by others that satisfy the invariant. */
  lemma StoreKeepsInv(m: Memory, id: Uuid, task: Task, log: seq<TaskEvent>, e: Execution)
    requires Inv(m) && id in m.tasks && task.scope == m.tasks[id].scope && Entry(id, task, log, e)
    ensures Inv(Memory(m.tasks[id := task], m.events[id := log], m.idempotency, m.executions[id := e]))
  {
    hide Entry;
  }

  lemma AppendKeepsInv(m: Memory, scope: Scope, event: TaskEvent)
    requires Inv(m)
    ensures Inv(Append(m, scope, event).0)
  {
    hide IsFold; hide ValidatedAppend;
    var (m', r) := Append(m, scope, event);
    if r.Ok? {
      var id := event.taskId;
      assert Entry(id, m.tasks[id], m.events[id], m.executions[id]);
      AppendBasics(m.tasks[id], event, r.value);
      FoldAppend(m.tasks[id], m.events[id], event, r.value);
      StoreKeepsInv(m, id, r.value, m.events[id] + [event], m'.executions[id]);
      assert m'.executions == m.executions[id := m'.executions[id]];
    }
  }

  lemma ClaimKeepsInv(m: Memory, scope: Scope, taskId: Uuid, owner: string, now: Utc, lease: Utc)
    requires Inv(m)
    ensures Inv(Claim(m, scope, taskId, owner, now, lease).0)
  {
    hide IsFold; hide Micros;
    var (m', r) := Claim(m, scope, taskId, owner, now, lease);
    if r == Ok(true) {
      assert Entry(taskId, m.tasks[taskId], m.events[taskId], m.executions[taskId]);
      StoreKeepsInv(m, taskId, m.tasks[taskId], m.events[taskId], m'.executions[taskId]);
      assert m.tasks == m.tasks[taskId := m.tasks[taskId]] && m.events == m.events[taskId := m.events[taskId]];
    }
  }

  /** Different tasks of a selection have different identifiers. */
  ghost predicate DistinctIds(S: set<Task>) {
    forall a, b :: a in S && b in S && a != b ==> a.taskId != b.taskId
  }

  lemma CreationOrder(S: set<Task>)
    requires DistinctIds(S)
    ensures Orders(CreatedBefore, S)
  {
    hide Micros;
    forall a: Task, b: Task ensures a.createdAt == b.createdAt <==> Micros(a.createdAt) == Micros(b.createdAt) {
      FieldOrderIsTimeOrder(a.createdAt, b.createdAt);
    }
  }

  lemma UpdateOrder(S: set<Task>)
    requires DistinctIds(S)
    ensures Orders(UpdatedBefore, S)
  {
    hide Micros;
    forall a: Task, b: Task ensures a.updatedAt == b.updatedAt <==> Micros(a.updatedAt) == Micros(b.updatedAt) {
      FieldOrderIsTimeOrder(a.updatedAt, b.updatedAt);
    }
  }

  lemma SelectionsHaveDistinctIds(m: Memory, owner: string, now: Utc)
    requires Inv(m)
    ensures DistinctIds(PendingTasks(m, owner, now)) && DistinctIds(OrphanedTasks(m, owner, now))
  {
    hide IsFold; hide ExpiredForeign;
  }

  // ---------------------------------------------------------------------
  // The repository object
  // ---------------------------------------------------------------------

  class InMemoryTaskRepository {
    var tasks: map<Uuid, Task>
    var events: map<Uuid, seq<TaskEvent>>
    var idempotency: map<Identity, Registered>
    var executions: map<Uuid, Execution>

    ghost function State(): Memory
      reads this
    {
      Memory(tasks, events, idempotency, executions)
    }

    ghost predicate Valid()
      reads this
    {
      Inv(State())
    }

    constructor ()
      ensures Valid() && State() == EMPTY
    {
      tasks, events, idempotency, executions := map[], map[], map[], map[];
    }

    method CreateTask(scope: Scope, ask: Ask, key: string, taskId: Uuid, eventId: Uuid, now: Utc)
      returns (r: Result<Task, Code>)
      requires Valid()
      modifies this
      ensures old(taskId !in tasks || Identity(scope, key) in idempotency) ==> Valid()
      ensures (State(), r) == Create(old(State()), scope, ask, key, taskId, eventId, now)
    {
      hide Entry; hide InitialEvent; hide InitialTask;
      if taskId !in tasks || Identity(scope, key) in idempotency {
        CreateKeepsInv(State(), scope, ask, key, taskId, eventId, now);
      }
      var identity := Identity(scope, key);
      if identity in idempotency {
        var existing := idempotency[identity];
        if existing.ask != ask {
          return Err(IdempotencyConflict);
        }
        return Ok(tasks[existing.taskId]);
      }
      var task := InitialTask(scope, ask, taskId, now);
      var event := InitialEvent(scope, taskId, eventId, now);
      tasks := tasks[taskId := task];
      events := events[taskId := [event]];
      idempotency := idempotency[identity := Registered(ask, taskId)];
      executions := executions[taskId := UNCLAIMED];
      r := Ok(task);
    }

    method AppendEvent(scope: Scope, event: TaskEvent) returns (r: Result<Task, Code>)
      requires Valid()
      modifies this
      ensures Valid()
      ensures (State(), r) == Append(old(State()), scope, event)
    {
      hide ValidatedAppend; hide Entry;
      AppendKeepsInv(State(), scope, event);
      var found := RequireTask(tasks, scope, event.taskId);
      if found.Err? {
        return Err(found.error);
      }
      var updated := ValidatedAppend(found.value, scope, event);
      if updated.Err? {
        return Err(updated.error);
      }
      tasks := tasks[event.taskId := updated.value];
      events := events[event.taskId := events[event.taskId] + [event]];
      if updated.value.state.Terminal() {
        executions := executions[event.taskId := DONE];
      }
      r := Ok(updated.value);
    }

    method ClaimExecution(scope: Scope, taskId: Uuid, owner: string, now: Utc, lease: Utc)
      returns (r: Result<bool, Code>)
      requires Valid()
      modifies this
      ensures Valid()
      ensures (State(), r) == Claim(old(State()), scope, taskId, owner, now, lease)
    {
      hide IsFold; hide Micros;
      ClaimKeepsInv(State(), scope, taskId, owner, now, lease);
      if !ValidClaim(owner, now, lease) {
        return Err(ArgumentInvalid);
      }
      var found := RequireTask(tasks, scope, taskId);
      if found.Err? {
        return Err(found.error);
      }
      var execution := executions[taskId];
      if !found.value.state.Accepted? || !Claimable(execution, owner, now) {
        return Ok(false);
      }
      executions := executions[taskId := Execution(Claimed, Some(owner), Some(lease))];
      r := Ok(true);
    }

    /** Pending tasks in creation order, cut off at the limit. */
    method PendingExecutions(owner: string, now: Utc, limit: int) returns (r: Result<seq<Task>, Code>)
      requires Valid()
      ensures !ValidQuery(owner, limit) ==> r == Err(ArgumentInvalid)
      ensures ValidQuery(owner, limit) ==> r.Ok? && exists all ::
                IsListing(all, PendingTasks(State(), owner, now), CreatedBefore) && r.value == Take(all, limit)
    {
      if !ValidQuery(owner, limit) {
        return Err(ArgumentInvalid);
      }
      hide SelectPending; hide SelectOrphaned; hide CreatedBefore;
      var selected := SelectPending(tasks, executions, owner, now);
      SelectionsHaveDistinctIds(State(), owner, now);
      CreationOrder(selected);
      var all := List(selected, CreatedBefore);
      r := Ok(Take(all, limit));
    }

    /** Orphaned tasks in order of their last update, cut off at the limit. */
    method OrphanedExecutions(owner: string, now: Utc, limit: int) returns (r: Result<seq<Task>, Code>)
      requires Valid()
      ensures !ValidQuery(owner, limit) ==> r == Err(ArgumentInvalid)
      ensures ValidQuery(owner, limit) ==> r.Ok? && exists all ::
                IsListing(all, OrphanedTasks(State(), owner, now), UpdatedBefore) && r.value == Take(all, limit)
    {
      if !ValidQuery(owner, limit) {
        return Err(ArgumentInvalid);
      }
      hide SelectPending; hide SelectOrphaned; hide UpdatedBefore;
      var selected := SelectOrphaned(tasks, executions, owner, now);
      SelectionsHaveDistinctIds(State(), owner, now);
      UpdateOrder(selected);
      var all := List(selected, UpdatedBefore);
      r := Ok(Take(all, limit));
    }
  }
}
