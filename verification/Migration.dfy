/**
 The schema version 1 to 2 migration of client/sqlite_repository.py, which gives every task
 of an old database an execution row.
 */
module Migration {
  import opened Common
  import opened Timestamp
  import opened TaskLog
  import opened MemoryRepository
  import opened SqliteRepository
  import opened TaskRuns
  import opened Refinement
  import opened Recovery

  /** The dictionary form of a migrated execution row. */
  function MigratedRecord(state: TaskState): Execution {
    if state.Accepted? then UNCLAIMED
    else if state.Terminal() then DONE
    else Execution(Claimed, Some(UNKNOWN_OWNER), Some(EPOCH))
  }

  /** Version 1 content: tasks that are the folds of their logs, no execution records. */
  ghost predicate VersionOne(m: Memory) {
    && m.events.Keys == m.tasks.Keys
    && (forall i :: i in m.idempotency ==>
          m.idempotency[i].taskId in m.tasks && m.tasks[m.idempotency[i].taskId].scope == i.scope)
    && (forall id :: id in m.tasks ==> m.tasks[id].taskId == id && IsFold(m.tasks[id], m.events[id]))
  }

  /** The same content with the execution records the migration creates. */
  ghost function Migrated(m: Memory): Memory {
    m.(executions := map id | id in m.tasks :: MigratedRecord(m.tasks[id].state))
  }

  /** The version 1 tables hold `m`. */
  ghost predicate Holds(t: Tables, m: Memory) {
    TasksMatch(m.tasks, t.task) && EventsMatch(m.events, t.event) && KeysMatch(m.idempotency, t.idempotency)
  }

  /** Work begun but not finished. */
  predicate InFlight(state: TaskState) {
    !state.Accepted? && !state.Terminal()
  }

  lemma MigratedEntry(id: Uuid, task: Task, log: seq<TaskEvent>)
    requires task.taskId == id && IsFold(task, log)
    ensures Entry(id, task, log, MigratedRecord(task.state))
  {
    hide IsFold;
  }

  lemma MigratedRow(state: TaskState)
    ensures MigratedExecution(state) == ExecutionRowOf(MigratedRecord(state))
  {
    hide Text;
    EpochText();
  }

  /** The migrated tables are those of a well-formed repository, so everything proved about
      runs and about the refinement applies to what follows. */
  lemma MigrationEstablishesInvariant(m: Memory, t: Tables)
    requires VersionOne(m) && Holds(t, m)
    ensures Inv(Migrated(m)) && Related(Migrated(m), Migrate(t))
  {
    hide IsFold; hide Entry; hide EventsMatch; hide KeysMatch; hide MigratedExecution; hide MigratedRecord;
    hide ExecutionRowOf; hide TaskRowOf;
    forall id | id in m.tasks
      ensures Entry(id, m.tasks[id], m.events[id], MigratedRecord(m.tasks[id].state))
      ensures t.task[id].state == m.tasks[id].state
      ensures MigratedExecution(m.tasks[id].state) == ExecutionRowOf(MigratedRecord(m.tasks[id].state))
    {
      MigratedEntry(id, m.tasks[id], m.events[id]);
      MigratedRow(m.tasks[id].state);
      RowState(m.tasks[id]);
    }
  }

  lemma RowState(task: Task)
    ensures TaskRowOf(task).state == task.state
  {
  }

  /** For any real coordinator after 1970, the orphans of a migrated database are exactly its
      in-flight tasks. */
  lemma MigratedOrphans(m: Memory, owner: string, now: Utc)
    requires VersionOne(m) && owner != UNKNOWN_OWNER && Micros(EPOCH) <= Micros(now)
    ensures Inv(Migrated(m))
    ensures OrphanIds(Migrated(m), owner, now) == set id | id in m.tasks && InFlight(m.tasks[id].state)
  {
    hide IsFold; hide Micros;
    forall id | id in m.tasks ensures Entry(id, m.tasks[id], m.events[id], MigratedRecord(m.tasks[id].state)) {
      MigratedEntry(id, m.tasks[id], m.events[id]);
    }
  }

  /** Whatever happens after the migration, an in-flight task is never claimed again. */
  lemma MigratedNeverReexecuted(m: Memory, id: Uuid, ops: seq<Op>)
    requires VersionOne(m) && id in m.tasks && InFlight(m.tasks[id].state)
    requires Inv(Migrated(m)) && FreshRun(Migrated(m), ops)
    ensures Grants(Migrated(m), ops, id) == []
  {
    hide IsFold; hide Entry; hide Linked; hide FreshRun; hide Grants;
    LeaseExclusion(Migrated(m), ops, id);
  }

  /** Reconciling a migrated repository blocks every in-flight task and nothing else, when the
      policy's budget covers them. */
  method RecoverMigrated(repo: InMemoryTaskRepository, ghost m: Memory, owner: string, now: Utc, batch: nat,
        sweeps: nat, eventIds: Uuid -> Uuid)
    returns (r: Result<bool, RecoveryError>, blocked: set<Uuid>)
    requires VersionOne(m) && repo.Valid() && repo.State() == Migrated(m)
    requires owner != UNKNOWN_OWNER && Micros(EPOCH) <= Micros(now)
    requires ValidQuery(owner, batch) && 1 <= sweeps <= 256
    modifies repo
    ensures repo.Valid()
    ensures BlockedFrom(Migrated(m), repo.State(), blocked, Stamps(eventIds, Always(now)))
    ensures r.Ok? <==> |set id | id in m.tasks && InFlight(m.tasks[id].state)| <= batch * sweeps
    ensures r.Ok? ==> blocked == set id | id in m.tasks && InFlight(m.tasks[id].state)
  {
    hide IsFold; hide Entry; hide BlockedFrom; hide OrphanIds; hide Micros; hide VersionOne; hide InFlight; hide Linked;
    MigratedOrphans(m, owner, now);
    r, blocked := Reconcile(repo, owner, now, batch, sweeps, eventIds);
  }
}
