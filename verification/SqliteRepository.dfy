/**
 The SQLite task repository of client/sqlite_repository.py: four tables, every operation
 one atomic transaction that either commits all its row changes or none.
 */
module SqliteRepository {
  import opened Common
  import opened Timestamp
  import opened TaskLog
  import opened Listing
  import opened MemoryRepository

  // ---------------------------------------------------------------------
  // Rows
  // ---------------------------------------------------------------------

  /** A JSON column: the serialisation of a value, or text that does not parse. */
  datatype Json<+T> = Json(value: T) | Damaged

  datatype ScopeColumns = ScopeColumns(
    tenant: Uuid, project: Uuid, user: Uuid, roleCodes: Json<seq<string>>, permissionVersion: string)

  datatype TaskRow = TaskRow(scope: ScopeColumns, state: TaskState, lastSequence: int, json: Json<Task>)

  datatype EventRow = EventRow(taskId: Uuid, scope: ScopeColumns, sequence: int, json: Json<TaskEvent>)

  datatype IdempotencyKey = IdempotencyKey(scope: ScopeColumns, key: string)

  datatype ExecutionRow = ExecutionRow(status: ExecutionStatus, owner: Option<string>, lease: Option<string>)

  datatype Tables = Tables(
    task: map<Uuid, TaskRow>, event: map<Uuid, EventRow>,
    idempotency: map<IdempotencyKey, Registered>, execution: map<Uuid, ExecutionRow>)

  const NO_ROWS := Tables(map[], map[], map[], map[])

  /** _scope_values. */
  function ScopeValues(s: Scope): ScopeColumns {
    ScopeColumns(s.tenant, s.project, s.user, Json(s.roles), s.permissionVersion)
  }

  function TaskRowOf(task: Task): TaskRow {
    TaskRow(ScopeValues(task.scope), task.state, task.lastSequence, Json(task))
  }

  function EventRowOf(event: TaskEvent): EventRow {
    EventRow(event.taskId, ScopeValues(event.scope), event.sequence, Json(event))
  }

  const PENDING_ROW := ExecutionRow(Pending, None, None)
  const COMPLETED_ROW := ExecutionRow(Completed, None, None)

  // ---------------------------------------------------------------------
  // Transactions
  // ---------------------------------------------------------------------

  /** _load_task: the row must agree with the JSON it carries. */
  function LoadTask(table: map<Uuid, TaskRow>, scope: Scope, taskId: Uuid): Result<Task, Code> {
    if taskId !in table || table[taskId].scope != ScopeValues(scope) then Err(TaskNotFound)
    else
      var row := table[taskId];
      if row.json.Damaged? then Err(PersistenceCorrupt)
      else if row.json.value.taskId != taskId || row.json.value.scope != scope
              || row.json.value.state != row.state || row.json.value.lastSequence != row.lastSequence
      then Err(PersistenceCorrupt)
      else Ok(row.json.value)
  }

  /** The primary key and UNIQUE (task_id, sequence) constraints of the event table. */
  predicate EventConflict(table: map<Uuid, EventRow>, event: TaskEvent) {
    || event.eventId in table
    || (exists e :: e in table && table[e].taskId == event.taskId && table[e].sequence == event.sequence)
  }

  function SqlCreate(t: Tables, scope: Scope, ask: Ask, key: string, taskId: Uuid, eventId: Uuid, now: Utc)
    : (Tables, Result<Task, Code>)
  {
    var identity := IdempotencyKey(ScopeValues(scope), key);
    if identity in t.idempotency then
      if t.idempotency[identity].ask != ask then (t, Err(IdempotencyConflict))
      else (t, LoadTask(t.task, scope, t.idempotency[identity].taskId))
    else
      var task := InitialTask(scope, ask, taskId, now);
      var accepted := InitialEvent(scope, taskId, eventId, now);
      if taskId in t.task || EventConflict(t.event, accepted) || taskId in t.execution
        then (t, Err(PersistenceConflict))
      else
        (Tables(t.task[taskId := TaskRowOf(task)],
                t.event[eventId := EventRowOf(accepted)],
                t.idempotency[identity := Registered(ask, taskId)],
                t.execution[taskId := PENDING_ROW]),
         Ok(task))
  }

  /** The event identifiers `events` selects. */
  function SelectEvents(table: map<Uuid, EventRow>, scope: Scope, taskId: Uuid, after: int): set<Uuid> {
    set e | e in table && table[e].taskId == taskId && table[e].scope == ScopeValues(scope) && table[e].sequence > after
  }

  /** ORDER BY sequence. */
  function BySequence(table: map<Uuid, EventRow>): (Uuid, Uuid) -> bool {
    (a, b) => a in table && b in table && table[a].sequence < table[b].sequence
  }

  /** The rows of a selection in the order the statement returns them. */
  ghost function Ordered(S: set<Uuid>, less: (Uuid, Uuid) -> bool): seq<Uuid> {
    if exists s :: IsListing(s, S, less) then var s :| IsListing(s, S, less); s else []
  }

  /** The check on the fetched rows: they parse, belong to the task, and their sequences are
      exactly after + 1 .. last. */
  predicate RowsSound(table: map<Uuid, EventRow>, rows: seq<Uuid>, scope: Scope, taskId: Uuid, after: int, last: int)
    requires forall e :: e in rows ==> e in table
  {
    && |rows| == (if last > after then last - after else 0)
    && (forall i :: 0 <= i < |rows| ==>
          && table[rows[i]].json.Json?
          && table[rows[i]].sequence == after + 1 + i
          && table[rows[i]].json.value.sequence == after + 1 + i
          && table[rows[i]].json.value.taskId == taskId
          && table[rows[i]].json.value.scope == scope)
  }

  function Parsed(table: map<Uuid, EventRow>, rows: seq<Uuid>): seq<TaskEvent>
    requires forall i :: 0 <= i < |rows| ==> rows[i] in table && table[rows[i]].json.Json?
  {
    seq(|rows|, i requires 0 <= i < |rows| => table[rows[i]].json.value)
  }

  /** The reply of `events` once the rows are fetched. */
  function EventsReply(t: Tables, rows: seq<Uuid>, task: Task, scope: Scope, taskId: Uuid,
        after: int): Result<Batch, Code>
    requires forall e :: e in rows ==> e in t.event
  {
    if !RowsSound(t.event, rows, scope, taskId, after, task.lastSequence) then Err(PersistenceCorrupt)
    else Ok(Batch(taskId, after, task.lastSequence, task.state.Terminal(), Parsed(t.event, rows)))
  }

  ghost function SqlEvents(t: Tables, scope: Scope, taskId: Uuid, after: int): Result<Batch, Code> {
    match LoadTask(t.task, scope, taskId)
    case Err(code) => Err(code)
    case Ok(task) =>
      if after < 0 || after > task.lastSequence then Err(CursorInvalid)
      else
        var rows := Ordered(SelectEvents(t.event, scope, taskId, after), BySequence(t.event));
        EventsReply(t, rows, task, scope, taskId, after)
  }

  function SqlAppend(t: Tables, scope: Scope, event: TaskEvent): (Tables, Result<Task, Code>) {
    var id := event.taskId;
    match LoadTask(t.task, scope, id)
    case Err(code) => (t, Err(code))
    case Ok(task) =>
      match ValidatedAppend(task, scope, event)
      case Err(code) => (t, Err(code))
      case Ok(updated) =>
        if EventConflict(t.event, event) then (t, Err(PersistenceConflict))
        else if t.task[id].lastSequence != task.lastSequence then (t, Err(SequenceInvalid))
        else if updated.state.Terminal() && (id !in t.execution || t.execution[id].status.Completed?) then
          (t, Err(PersistenceCorrupt))
        else
          (Tables(t.task[id := TaskRowOf(updated)],
                  t.event[event.eventId := EventRowOf(event)],
                  t.idempotency,
                  if updated.state.Terminal() then t.execution[id := COMPLETED_ROW] else t.execution),
           Ok(updated))
  }

  /** The parsed comparison of `claim_execution`; None when the stored lease does not parse. */
  function ParsedExpiredForeign(row: ExecutionRow, owner: string, now: Utc): Option<bool> {
    if !row.status.Claimed? || row.owner == Some(owner) || row.lease.None? then Some(false)
    else
      match Parse(row.lease.value)
      case None => None
      case Some(lease) => Some(Micros(lease) <= Micros(now))
  }

  function SqlClaim(t: Tables, scope: Scope, taskId: Uuid, owner: string, now: Utc, lease: Utc)
    : (Tables, Result<bool, Code>)
  {
    if !ValidClaim(owner, now, lease) then (t, Err(ArgumentInvalid))
    else
      match LoadTask(t.task, scope, taskId)
      case Err(code) => (t, Err(code))
      case Ok(task) =>
        if taskId !in t.execution then (t, Err(PersistenceCorrupt))
        else
          match ParsedExpiredForeign(t.execution[taskId], owner, now)
          case None => (t, Err(PersistenceCorrupt))
          case Some(expired) =>
            if !task.state.Accepted? || !(t.execution[taskId].status.Pending? || expired) then (t, Ok(false))
            else (t.(execution := t.execution[taskId := ExecutionRow(Claimed, Some(owner), Some(Text(lease)))]),
              Ok(true))
  }

  /** The lease condition as the SQL statements write it: a text comparison. */
  predicate TextExpiredForeign(row: ExecutionRow, owner: string, now: Utc) {
    && row.status.Claimed? && row.owner.Some? && row.owner != Some(owner)
    && row.lease.Some? && !TextLess(Text(now), row.lease.value)
  }

  function SqlSelectPending(t: Tables, owner: string, now: Utc): set<Uuid> {
    set id | id in t.task && id in t.execution && t.task[id].state.Accepted?
             && (t.execution[id].status.Pending? || TextExpiredForeign(t.execution[id], owner, now))
  }

  function SqlSelectOrphaned(t: Tables, owner: string, now: Utc): set<Uuid> {
    set id | id in t.task && id in t.execution && !t.task[id].state.Accepted? && !t.task[id].state.Terminal()
             && TextExpiredForeign(t.execution[id], owner, now)
  }

  /** _parse_scanned_task over the fetched rows. */
  function Scanned(table: map<Uuid, TaskRow>, ids: seq<Uuid>): Result<seq<Task>, Code>
    requires forall i :: 0 <= i < |ids| ==> ids[i] in table
  {
    if exists i :: 0 <= i < |ids| && !RowSound(table[ids[i]]) then Err(PersistenceCorrupt)
    else Ok(seq(|ids|, i requires 0 <= i < |ids| => table[ids[i]].json.value))
  }

  predicate RowSound(row: TaskRow) {
    row.json.Json? && row.json.value.state == row.state && row.json.value.lastSequence == row.lastSequence
  }

  /** Leases another owner holds beyond `now`, as stored texts. */
  function ForeignLeases(execution: map<Uuid, ExecutionRow>, owner: string, now: Utc): set<string> {
    set id | id in execution && execution[id].status.Claimed? && execution[id].owner.Some?
             && execution[id].owner != Some(owner) && execution[id].lease.Some?
             && TextLess(Text(now), execution[id].lease.value) :: execution[id].lease.value
  }

  // ---------------------------------------------------------------------
  // Migration of schema version 1
  // ---------------------------------------------------------------------

  const UNKNOWN_OWNER := "schema-v1-unknown-owner"
  const EPOCH_TEXT := "1970-01-01T00:00:00+00:00"

  function MigratedExecution(state: TaskState): ExecutionRow {
    if state.Accepted? then PENDING_ROW
    else if state.Terminal() then COMPLETED_ROW
    else ExecutionRow(Claimed, Some(UNKNOWN_OWNER), Some(EPOCH_TEXT))
  }

  /** The version 1 tables with the execution table filled in. */
  function Migrate(t: Tables): Tables {
    t.(execution := map id | id in t.task :: MigratedExecution(t.task[id].state))
  }

  // ---------------------------------------------------------------------
  // The repository object
  // ---------------------------------------------------------------------

  class SqliteTaskRepository {
    var task: map<Uuid, TaskRow>
    var event: map<Uuid, EventRow>
    var idempotency: map<IdempotencyKey, Registered>
    var execution: map<Uuid, ExecutionRow>

    ghost function State(): Tables
      reads this
    {
      Tables(task, event, idempotency, execution)
    }

    constructor ()
      ensures State() == NO_ROWS
    {
      task, event, idempotency, execution := map[], map[], map[], map[];
    }

    method CreateTask(scope: Scope, ask: Ask, key: string, taskId: Uuid, eventId: Uuid, now: Utc)
      returns (r: Result<Task, Code>)
      modifies this
      ensures (State(), r) == SqlCreate(old(State()), scope, ask, key, taskId, eventId, now)
    {
      hide EventConflict; hide LoadTask; hide InitialTask; hide InitialEvent;
      var identity := IdempotencyKey(ScopeValues(scope), key);
      if identity in idempotency {
        var existing := idempotency[identity];
        if existing.ask != ask {
          return Err(IdempotencyConflict);
        }
        r := LoadTask(task, scope, existing.taskId);
        return;
      }
      var created := InitialTask(scope, ask, taskId, now);
      var accepted := InitialEvent(scope, taskId, eventId, now);
      if taskId in task || EventConflict(event, accepted) || taskId in execution {
        return Err(PersistenceConflict);
      }
      task := task[taskId := TaskRowOf(created)];
      event := event[eventId := EventRowOf(accepted)];
      idempotency := idempotency[identity := Registered(ask, taskId)];
      execution := execution[taskId := PENDING_ROW];
      r := Ok(created);
    }

    method AppendEvent(scope: Scope, added: TaskEvent) returns (r: Result<Task, Code>)
      modifies this
      ensures (State(), r) == SqlAppend(old(State()), scope, added)
    {
      hide EventConflict; hide ValidatedAppend;
      var loaded := LoadTask(task, scope, added.taskId);
      if loaded.Err? {
        return Err(loaded.error);
      }
      var updated := ValidatedAppend(loaded.value, scope, added);
      if updated.Err? {
        return Err(updated.error);
      }
      if EventConflict(event, added) {
        return Err(PersistenceConflict);
      }
      var rowExists := task[added.taskId].lastSequence == loaded.value.lastSequence;
      if !rowExists {
        return Err(SequenceInvalid);
      }
      var terminal := updated.value.state.Terminal();
      if terminal && (added.taskId !in execution || execution[added.taskId].status.Completed?) {
        return Err(PersistenceCorrupt);
      }
      event := event[added.eventId := EventRowOf(added)];
      task := task[added.taskId := TaskRowOf(updated.value)];
      if terminal {
        execution := execution[added.taskId := COMPLETED_ROW];
      }
      r := Ok(updated.value);
    }

    method ClaimExecution(scope: Scope, taskId: Uuid, owner: string, now: Utc, lease: Utc)
      returns (r: Result<bool, Code>)
      modifies this
      ensures (State(), r) == SqlClaim(old(State()), scope, taskId, owner, now, lease)
    {
      hide ParsedExpiredForeign; hide ValidClaim; hide LoadTask; hide Text;
      if !ValidClaim(owner, now, lease) {
        return Err(ArgumentInvalid);
      }
      var loaded := LoadTask(task, scope, taskId);
      if loaded.Err? {
        return Err(loaded.error);
      }
      if taskId !in execution {
        return Err(PersistenceCorrupt);
      }
      var expired := ParsedExpiredForeign(execution[taskId], owner, now);
      if expired.None? {
        return Err(PersistenceCorrupt);
      }
      if !loaded.value.state.Accepted? || !(execution[taskId].status.Pending? || expired.value) {
        return Ok(false);
      }
      execution := execution[taskId := ExecutionRow(Claimed, Some(owner), Some(Text(lease)))];
      r := Ok(true);
    }
  }
}
