/**
 Crash recovery of the workbench coordinator (client/service.py): the bounded sweeps that
 block tasks whose execution lease expired under another owner.
 */
module Recovery {
  import opened Common
  import opened Timestamp
  import opened TaskLog
  import opened Listing
  import opened MemoryRepository

  const RECOVERY_CODE := "CLIENT_EXECUTION_RECOVERY_REQUIRED"
  const RECOVERY_MESSAGE := "The prior process stopped after task execution had begun."
  const RECOVERY_ACTION := "Review preserved events and create a new task only after human review."

  datatype RecoveryError = RecoveryLimitReached | QueryRefused | AppendRefused(code: Code)

  /** The event `_append_execution_failure` appends to an orphaned task. */
  function BlockingEvent(task: Task, eventId: Uuid, now: Utc): TaskEvent {
    TaskEvent(eventId, task.taskId, task.scope, task.lastSequence + 1, Issue, Blocked,
              RECOVERY_MESSAGE, Some(RECOVERY_CODE), Some(RECOVERY_ACTION), now)
  }

  function BlockedTask(task: Task, now: Utc): Task {
    task.(state := Blocked, lastSequence := task.lastSequence + 1, approvalRequired := false, updatedAt := now)
  }

  ghost function OrphanIds(m: Memory, owner: string, now: Utc): set<Uuid>
    requires Linked(m)
  {
    set id | id in m.tasks && IsOrphan(m.tasks[id], m.executions[id], owner, now)
  }

  /** The three entries of one task. */
  datatype TaskEntries = TaskEntries(task: Task, log: seq<TaskEvent>, execution: Execution)

  ghost function EntriesOf(m: Memory, id: Uuid): TaskEntries
    requires Linked(m) && id in m.tasks
  {
    TaskEntries(m.tasks[id], m.events[id], m.executions[id])
  }

  /** The identifier and the clock value each blocking event is given. */
  datatype Stamps = Stamps(eventId: Uuid -> Uuid, at: Uuid -> Utc)

  /** One clock value for all of them. */
  function Always(now: Utc): Uuid -> Utc {
    (id: Uuid) => now
  }

  /** A blocked task has one more event, its state and nothing else of it changed. */
  function BlockEntries(e: TaskEntries, eventId: Uuid, now: Utc): TaskEntries {
    TaskEntries(BlockedTask(e.task, now), e.log + [BlockingEvent(e.task, eventId, now)], DONE)
  }

  /** `m` is `m0` with exactly the tasks of `S` blocked and nothing else changed anywhere. */
  ghost predicate BlockedFrom(m0: Memory, m: Memory, S: set<Uuid>, stamps: Stamps)
    requires Linked(m0) && Linked(m)
  {
    && m.tasks.Keys == m0.tasks.Keys && m.idempotency == m0.idempotency
    && (forall id :: id in m0.tasks ==>
          EntriesOf(m, id) ==
          if id in S then BlockEntries(EntriesOf(m0, id), stamps.eventId(id), stamps.at(id)) else EntriesOf(m0, id))
  }

  /** Blocking an orphan is always accepted. */
  lemma BlockingAccepted(m: Memory, id: Uuid, owner: string, now: Utc, eventId: Uuid, at: Utc)
    requires Inv(m) && id in OrphanIds(m, owner, now)
    ensures var event := BlockingEvent(m.tasks[id], eventId, at);
            var (m', r) := Append(m, m.tasks[id].scope, event);
            && r == Ok(BlockedTask(m.tasks[id], at))
            && m' == Memory(m.tasks[id := BlockedTask(m.tasks[id], at)], m.events[id := m.events[id] + [event]],
                            m.idempotency, m.executions[id := DONE])
  {
    hide IsFold; hide ExpiredForeign;
    assert Entry(id, m.tasks[id], m.events[id], m.executions[id]);
  }

  /** Blocking one more orphan extends the blocked set by it. */
  lemma BlockOne(m0: Memory, m: Memory, S: set<Uuid>, id: Uuid, owner: string, now: Utc, stamps: Stamps)
    requires Linked(m0) && Inv(m) && BlockedFrom(m0, m, S, stamps)
    requires id !in S && id in OrphanIds(m, owner, now)
    ensures var m' := Append(m, m.tasks[id].scope, BlockingEvent(m.tasks[id], stamps.eventId(id), stamps.at(id))).0;
            Inv(m') && BlockedFrom(m0, m', S + {id}, stamps)
  {
    hide Entry; hide ExpiredForeign; hide Append; hide BlockedFrom;
    var event := BlockingEvent(m.tasks[id], stamps.eventId(id), stamps.at(id));
    var m' := Append(m, m.tasks[id].scope, event).0;
    AppendKeepsInv(m, m.tasks[id].scope, event);
    BlockingAccepted(m, id, owner, now, stamps.eventId(id), stamps.at(id));
    assert BlockedFrom(m, m', {id}, stamps) by { BlockedAlone(m, m', id, stamps); }
    BlockedTwice(m0, m, m', S, {id}, stamps);
  }

  /** Whatever the clock says, the orphans left are those there were without the blocked ones. */
  lemma OrphansLeft(m0: Memory, m: Memory, S: set<Uuid>, owner: string, now: Utc, stamps: Stamps)
    requires Linked(m0) && Linked(m) && BlockedFrom(m0, m, S, stamps)
    ensures OrphanIds(m, owner, now) == OrphanIds(m0, owner, now) - S
    ensures OrphanIds(m, owner, now) <= m.tasks.Keys
  {
    hide ExpiredForeign; hide BlockingEvent;
    forall id ensures id in OrphanIds(m, owner, now) <==> id in OrphanIds(m0, owner, now) - S {
      if id in m0.tasks {
        assert EntriesOf(m, id) ==
               if id in S then BlockEntries(EntriesOf(m0, id), stamps.eventId(id), stamps.at(id))
                 else EntriesOf(m0, id);
      }
    }
  }

  lemma BlockedAlone(m: Memory, m': Memory, id: Uuid, stamps: Stamps)
    requires Linked(m) && Linked(m') && id in m.tasks
    requires var event := BlockingEvent(m.tasks[id], stamps.eventId(id), stamps.at(id));
             m' == Memory(m.tasks[id := BlockedTask(m.tasks[id], stamps.at(id))],
               m.events[id := m.events[id] + [event]], m.idempotency, m.executions[id := DONE])
    ensures BlockedFrom(m, m', {id}, stamps)
  {
    hide BlockedTask; hide BlockingEvent;
  }

  /** The identifiers of a list of tasks. */
  function Ids(tasks: seq<Task>): set<Uuid> {
    set i | 0 <= i < |tasks| :: tasks[i].taskId
  }

  /** A full listing names exactly the orphans; its first `limit` entries that many of them. */
  lemma ListedOrphans(m: Memory, owner: string, now: Utc, all: seq<Task>, limit: nat)
    requires Inv(m) && IsListing(all, OrphanedTasks(m, owner, now), UpdatedBefore)
    ensures var batch := Take(all, limit);
            && Ids(batch) <= OrphanIds(m, owner, now)
            && (forall i :: 0 <= i < |batch| ==> batch[i].taskId in m.tasks && m.tasks[batch[i].taskId] == batch[i])
            && (forall i, j :: 0 <= i < j < |batch| ==> batch[i].taskId != batch[j].taskId)
            && |batch| == |Ids(batch)|
            && |OrphanIds(m, owner, now)| == |all|
            && (|batch| < limit ==> Ids(batch) == OrphanIds(m, owner, now))
  {
    hide UpdatedBefore; hide IsOrphan; hide IsFold;
    var orphans := OrphanIds(m, owner, now);
    forall i | 0 <= i < |all|
      ensures all[i].taskId in orphans && m.tasks[all[i].taskId] == all[i]
    {
      assert all[i] in OrphanedTasks(m, owner, now);
      var id :| id in m.tasks && IsOrphan(m.tasks[id], m.executions[id], owner, now) && m.tasks[id] == all[i];
      assert Entry(id, m.tasks[id], m.events[id], m.executions[id]);
    }
    forall id | id in orphans ensures id in Ids(all) {
      assert m.tasks[id] in OrphanedTasks(m, owner, now);
      assert m.tasks[id] in all;
      var i :| 0 <= i < |all| && all[i] == m.tasks[id];
      assert Entry(id, m.tasks[id], m.events[id], m.executions[id]);
    }
    assert Ids(all) == orphans;
    forall i, j | 0 <= i < j < |all| ensures all[i] != all[j] {
      SelectionsHaveDistinctIds(m, owner, now);
      UpdateOrder(OrphanedTasks(m, owner, now));
      assert UpdatedBefore(all[i], all[j]) && all[i] in OrphanedTasks(m, owner, now);
    }
    IdsSize(all);
    IdsSize(Take(all, limit));
  }

  lemma {:induction false} IdsSize(tasks: seq<Task>)
    requires forall i, j :: 0 <= i < j < |tasks| ==> tasks[i].taskId != tasks[j].taskId
    ensures |Ids(tasks)| == |tasks|
  {
    if tasks == [] {
      assert Ids(tasks) == {};
    } else {
      var init, last := tasks[..|tasks| - 1], tasks[|tasks| - 1];
      IdsSize(init);
      assert last.taskId !in Ids(init);
      forall x ensures x in Ids(tasks) <==> x in Ids(init) + {last.taskId} {
        if x in Ids(init) {
          var i :| 0 <= i < |init| && init[i].taskId == x;
          assert tasks[i].taskId == x;
        }
        if x == last.taskId {
          assert tasks[|tasks| - 1].taskId == x;
        }
        if x in Ids(tasks) {
          var i :| 0 <= i < |tasks| && tasks[i].taskId == x;
          assert i < |init| ==> init[i].taskId == x;
        }
      }
      assert Ids(tasks) == Ids(init) + {last.taskId};
    }
  }

  /** The loop of one sweep: blocks every listed orphan. */
  method BlockListed(repo: InMemoryTaskRepository, tasks: seq<Task>, owner: string, now: Utc, stamps: Stamps)
    returns (blocked: set<Uuid>)
    requires repo.Valid()
    requires Ids(tasks) <= OrphanIds(repo.State(), owner, now)
    requires forall i :: 0 <= i < |tasks| ==> tasks[i].taskId in repo.tasks && repo.tasks[tasks[i].taskId] == tasks[i]
    requires forall i, j :: 0 <= i < j < |tasks| ==> tasks[i].taskId != tasks[j].taskId
    modifies repo
    ensures repo.Valid() && blocked == Ids(tasks)
    ensures BlockedFrom(old(repo.State()), repo.State(), blocked, stamps)
  {
    hide BlockedFrom; hide OrphanIds; hide Entry; hide Append; hide Ids; hide BlockingEvent; hide BlockedTask;
    ghost var m0 := repo.State();
    NothingBlocked(m0, stamps);
    blocked := {};
    NoIds(tasks);
    var i := 0;
    while i < |tasks|
      invariant 0 <= i <= |tasks|
      invariant repo.Valid()
      invariant blocked == Ids(tasks[..i])
      invariant BlockedFrom(m0, repo.State(), blocked, stamps)
    {
      var id := tasks[i].taskId;
      IdsStep(tasks, i);
      ghost var m := repo.State();
      OrphansLeft(m0, m, blocked, owner, now, stamps);
      BlockOne(m0, m, blocked, id, owner, now, stamps);
      // _append_execution_failure: read the task again, then append
      var current := repo.tasks[id];
      var appended := repo.AppendEvent(current.scope, BlockingEvent(current, stamps.eventId(id), stamps.at(id)));
      blocked := blocked + {id};
      i := i + 1;
    }
    assert tasks[..i] == tasks;
  }

  lemma NoIds(tasks: seq<Task>)
    ensures Ids(tasks[..0]) == {}
  {
  }

  /** One sweep: lists at most `batch` orphans of its clock value and blocks every one of them. */
  method Sweep(repo: InMemoryTaskRepository, owner: string, now: Utc, batch: nat, stamps: Stamps)
    returns (blocked: set<Uuid>, count: nat)
    requires repo.Valid() && ValidQuery(owner, batch)
    modifies repo
    ensures repo.Valid()
    ensures BlockedFrom(old(repo.State()), repo.State(), blocked, stamps)
    ensures blocked <= old(OrphanIds(repo.State(), owner, now))
    ensures count == |blocked| <= batch
    ensures count < batch ==> OrphanIds(repo.State(), owner, now) == {}
  {
    hide BlockedFrom; hide OrphanIds; hide Entry; hide OrphanedTasks; hide UpdatedBefore; hide Ids;
    ghost var m0 := repo.State();
    var listed := repo.OrphanedExecutions(owner, now, batch);
    var tasks := listed.value;
    ghost var all :| IsListing(all, OrphanedTasks(m0, owner, now), UpdatedBefore) && tasks == Take(all, batch);
    ListedOrphans(m0, owner, now, all, batch);
    blocked := BlockListed(repo, tasks, owner, now, stamps);
    OrphansLeft(m0, repo.State(), blocked, owner, now, stamps);
    count := |tasks|;
  }

  lemma NothingBlocked(m: Memory, stamps: Stamps)
    requires Linked(m)
    ensures BlockedFrom(m, m, {}, stamps)
  {
  }

  lemma IdsStep(tasks: seq<Task>, i: nat)
    requires i < |tasks| && forall j, k :: 0 <= j < k < |tasks| ==> tasks[j].taskId != tasks[k].taskId
    ensures Ids(tasks[..i + 1]) == Ids(tasks[..i]) + {tasks[i].taskId} && tasks[i].taskId !in Ids(tasks[..i])
    ensures tasks[i].taskId in Ids(tasks)
  {
    var a, b := tasks[..i + 1], tasks[..i];
    assert forall j :: 0 <= j < i ==> a[j] == tasks[j] == b[j];
    forall x ensures x in Ids(a) <==> x in Ids(b) + {tasks[i].taskId} {
      if x in Ids(b) {
        var j :| 0 <= j < |b| && b[j].taskId == x;
        assert a[j].taskId == x;
      }
      if x == tasks[i].taskId {
        assert a[i].taskId == x;
      }
      if x in Ids(a) {
        var j :| 0 <= j < |a| && a[j].taskId == x;
        assert j < i ==> b[j].taskId == x;
      }
    }
  }

  lemma BlockedTwice(m0: Memory, m1: Memory, m2: Memory, S: set<Uuid>, T: set<Uuid>, stamps: Stamps)
    requires Linked(m0) && Linked(m1) && Linked(m2) && S !! T
    requires BlockedFrom(m0, m1, S, stamps) && BlockedFrom(m1, m2, T, stamps)
    ensures BlockedFrom(m0, m2, S + T, stamps)
  {
    hide EntriesOf; hide BlockEntries;
    forall id | id in m0.tasks
      ensures EntriesOf(m2, id) ==
              if id in S + T then BlockEntries(EntriesOf(m0, id), stamps.eventId(id), stamps.at(id))
                else EntriesOf(m0, id)
    {
      assert id in m1.tasks;
    }
  }

  /** An orphan of `m0` at one of the first `n` clock values. */
  ghost predicate OrphanedAt(m0: Memory, owner: string, clock: nat -> Utc, n: nat, id: Uuid)
    requires Linked(m0)
  {
    exists k: nat :: k < n && id in OrphanIds(m0, owner, clock(k))
  }

  /** Reconciliation with a clock read at every sweep, `clock(k)` at the k-th and
      `clock(sweeps)` by the last look, and again for every event. Whatever it reads: only
      tasks are blocked that were orphans at a sweep's clock value, each with one event, and
      nothing else changes. It returns normally exactly when at its last reading no orphan was
      left, and otherwise has blocked batch * sweeps tasks. */
  method ReconcileMoving(repo: InMemoryTaskRepository, owner: string, clock: nat -> Utc, batch: nat, sweeps: nat,
        stamps: Stamps)
    returns (r: Result<bool, RecoveryError>, blocked: set<Uuid>, reading: nat)
    requires repo.Valid() && ValidQuery(owner, batch)
    requires 1 <= sweeps <= 256 // WorkbenchAsyncPolicy
    modifies repo
    ensures repo.Valid()
    ensures BlockedFrom(old(repo.State()), repo.State(), blocked, stamps)
    ensures forall id :: id in blocked ==> OrphanedAt(old(repo.State()), owner, clock, sweeps, id)
    ensures reading <= sweeps && (r.Ok? <==> OrphanIds(repo.State(), owner, clock(reading)) == {})
    ensures |blocked| <= batch * sweeps
    ensures r.Err? ==> r.error == RecoveryLimitReached && reading == sweeps && |blocked| == batch * sweeps
  {
    hide BlockedFrom; hide OrphanIds; hide Entry; hide OrphanedTasks; hide UpdatedBefore; hide Linked; hide OrphanedAt;
    hide IsListing;
    ghost var m0 := repo.State();
    NothingBlocked(m0, stamps);
    blocked := {};
    reading := 0;
    while reading < sweeps
      invariant 0 <= reading <= sweeps
      invariant repo.Valid() && BlockedFrom(m0, repo.State(), blocked, stamps)
      invariant forall id :: id in blocked ==> OrphanedAt(m0, owner, clock, sweeps, id)
      invariant |blocked| == batch * reading
    {
      ghost var m := repo.State();
      var found, count := Sweep(repo, owner, clock(reading), batch, stamps);
      OrphansLeft(m0, m, blocked, owner, clock(reading), stamps);
      BlockedTwice(m0, m, repo.State(), blocked, found, stamps);
      FoundAt(m0, owner, clock, reading, sweeps, found);
      SweepCount(blocked, found, batch, reading, sweeps);
      blocked := blocked + found;
      if count < batch {
        return Ok(true), blocked, reading;
      }
      reading := reading + 1;
    }
    var left := repo.OrphanedExecutions(owner, clock(sweeps), 1);
    ghost var all :| IsListing(all, OrphanedTasks(repo.State(), owner, clock(sweeps)), UpdatedBefore)
      && left.value == Take(all, 1);
    NoneLeft(repo.State(), owner, clock(sweeps), all);
    r := if left.value != [] then Err(RecoveryLimitReached) else Ok(true);
  }

  lemma FoundAt(m0: Memory, owner: string, clock: nat -> Utc, k: nat, n: nat, found: set<Uuid>)
    requires Linked(m0) && k < n && found <= OrphanIds(m0, owner, clock(k))
    ensures forall id :: id in found ==> OrphanedAt(m0, owner, clock, n, id)
  {
    hide OrphanIds;
  }

  /** Bookkeeping of one more sweep. */
  lemma SweepCount(blocked: set<Uuid>, found: set<Uuid>, batch: nat, sweep: nat, sweeps: nat)
    requires blocked !! found && |blocked| == batch * sweep && |found| <= batch && sweep < sweeps
    ensures |blocked + found| == batch * sweep + |found| <= batch * sweeps
    ensures |found| == batch ==> |blocked + found| == batch * (sweep + 1)
  {
    assert batch * (sweep + 1) == batch * sweep + batch;
    ProductGrows(batch, sweep + 1, sweeps);
  }

  /** Reconciliation at a fixed clock. With n orphans it returns normally exactly when
      n <= batch * sweeps, having blocked every orphan; otherwise it reports the limit,
      having blocked batch * sweeps of them. Each blocked task got exactly one BLOCKED event,
      and nothing else changed. */
  method Reconcile(repo: InMemoryTaskRepository, owner: string, now: Utc, batch: nat, sweeps: nat,
        eventIds: Uuid -> Uuid)
    returns (r: Result<bool, RecoveryError>, blocked: set<Uuid>)
    requires repo.Valid() && ValidQuery(owner, batch)
    requires 1 <= sweeps <= 256 // WorkbenchAsyncPolicy
    modifies repo
    ensures repo.Valid()
    ensures BlockedFrom(old(repo.State()), repo.State(), blocked, Stamps(eventIds, Always(now)))
    ensures blocked <= old(OrphanIds(repo.State(), owner, now))
    ensures r.Ok? <==> |old(OrphanIds(repo.State(), owner, now))| <= batch * sweeps
    ensures r.Ok? ==> blocked == old(OrphanIds(repo.State(), owner, now)) && OrphanIds(repo.State(), owner, now) == {}
    ensures r.Err? ==> r.error == RecoveryLimitReached && |blocked| == batch * sweeps
  {
    hide BlockedFrom; hide OrphanIds; hide Entry; hide Linked; hide Always;
    ghost var m0 := repo.State();
    ghost var orphans := OrphanIds(m0, owner, now);
    var stamps, clock := Stamps(eventIds, Always(now)), (k: nat) => now;
    var reading;
    r, blocked, reading := ReconcileMoving(repo, owner, clock, batch, sweeps, stamps);
    OrphansLeft(m0, repo.State(), blocked, owner, now, stamps);
    forall id | id in blocked ensures id in orphans {
      assert OrphanedAt(m0, owner, clock, sweeps, id);
    }
    SizeOfRest(orphans, blocked);
  }

  lemma NoneLeft(m: Memory, owner: string, now: Utc, all: seq<Task>)
    requires Inv(m) && IsListing(all, OrphanedTasks(m, owner, now), UpdatedBefore)
    ensures Take(all, 1) == [] <==> OrphanIds(m, owner, now) == {}
  {
    hide OrphanIds; hide Entry; hide OrphanedTasks; hide UpdatedBefore;
    ListedOrphans(m, owner, now, all, 1);
  }

  lemma ProductGrows(a: nat, b: nat, c: nat)
    requires b <= c
    ensures a * b <= a * c
  {
  }

  lemma SizeOfRest(all: set<Uuid>, part: set<Uuid>)
    requires part <= all
    ensures |all| == |part| + |all - part|
    ensures |all| <= |part| <==> all - part == {}
    ensures all - part == {} ==> part == all
  {
    assert all == part + (all - part);
    if all - part == {} {
      assert part == all;
    }
  }
}
