/**
 The SQLite repository refines the in-memory one: along every run the tables stay related
 to the dictionaries and both repositories give the same replies.
 */
module Refinement {
  import opened Common
  import opened Timestamp
  import opened TaskLog
  import opened Listing
  import opened MemoryRepository
  import opened SqliteRepository
  import opened TaskRuns

  // ---------------------------------------------------------------------
  // The relation
  // ---------------------------------------------------------------------

  function LeaseText(lease: Option<Utc>): Option<string> {
    match lease case None => None case Some(l) => Some(Text(l))
  }

  function ExecutionRowOf(e: Execution): ExecutionRow {
    ExecutionRow(e.status, e.owner, LeaseText(e.lease))
  }

  function KeyOf(i: Identity): IdempotencyKey {
    IdempotencyKey(ScopeValues(i.scope), i.key)
  }

  ghost predicate TasksMatch(tasks: map<Uuid, Task>, table: map<Uuid, TaskRow>) {
    table.Keys == tasks.Keys && forall id :: id in tasks ==> table[id] == TaskRowOf(tasks[id])
  }

  /** Every logged event has its row. */
  ghost predicate EventsStored(events: map<Uuid, seq<TaskEvent>>, table: map<Uuid, EventRow>) {
    forall id, i :: id in events && 0 <= i < |events[id]| ==>
      events[id][i].eventId in table && table[events[id][i].eventId] == EventRowOf(events[id][i])
  }

  /** The event a row stands for, found by its task and sequence columns. */
  ghost predicate RowLogged(events: map<Uuid, seq<TaskEvent>>, e: Uuid, row: EventRow) {
    row.taskId in events && 1 <= row.sequence <= |events[row.taskId]|
      && events[row.taskId][row.sequence - 1].eventId == e
  }

  ghost predicate EventsMatch(events: map<Uuid, seq<TaskEvent>>, table: map<Uuid, EventRow>) {
    && EventsStored(events, table)
    && (forall e :: e in table ==> RowLogged(events, e, table[e]))
  }

  ghost predicate KeysMatch(idempotency: map<Identity, Registered>, table: map<IdempotencyKey, Registered>) {
    forall i :: (i in idempotency <==> KeyOf(i) in table) && (i in idempotency ==> table[KeyOf(i)] == idempotency[i])
  }

  ghost predicate ExecutionsMatch(executions: map<Uuid, Execution>, table: map<Uuid, ExecutionRow>) {
    table.Keys == executions.Keys && forall id :: id in executions ==> table[id] == ExecutionRowOf(executions[id])
  }

  ghost predicate Related(m: Memory, t: Tables) {
    && TasksMatch(m.tasks, t.task)
    && EventsMatch(m.events, t.event)
    && KeysMatch(m.idempotency, t.idempotency)
    && ExecutionsMatch(m.executions, t.execution)
  }

  ghost function SqlStep(t: Tables, op: Op): (Tables, Reply) {
    match op
    case CreateOp(scope, ask, key, taskId, eventId, at) =>
      var (t', r) := SqlCreate(t, scope, ask, key, taskId, eventId, at); (t', OfTask(r))
    case GetOp(scope, taskId) => (t, OfTask(LoadTask(t.task, scope, taskId)))
    case EventsOp(scope, taskId, after) => (t, OfBatch(SqlEvents(t, scope, taskId, after)))
    case AppendOp(scope, event) =>
      var (t', r) := SqlAppend(t, scope, event); (t', OfTask(r))
    case ClaimOp(scope, taskId, owner, now, lease) =>
      var (t', r) := SqlClaim(t, scope, taskId, owner, now, lease); (t', OfClaim(r))
  }

  // ---------------------------------------------------------------------
  // Loading
  // ---------------------------------------------------------------------

  lemma ScopeValuesInjective(a: Scope, b: Scope)
    ensures ScopeValues(a) == ScopeValues(b) <==> a == b
  {
  }

  /** Loading a task row finds what the dictionary holds; the row is never corrupt. */
  lemma LoadMatches(m: Memory, t: Tables, scope: Scope, taskId: Uuid)
    requires Inv(m) && TasksMatch(m.tasks, t.task)
    ensures LoadTask(t.task, scope, taskId) == RequireTask(m.tasks, scope, taskId)
  {
    hide IsFold;
    if taskId in m.tasks {
      ScopeValuesInjective(scope, m.tasks[taskId].scope);
      assert Entry(taskId, m.tasks[taskId], m.events[taskId], m.executions[taskId]);
    }
  }

  // ---------------------------------------------------------------------
  // Events
  // ---------------------------------------------------------------------

  /** The events after a cursor are a suffix of the log. */
  lemma {:induction false} AfterIsSuffix(log: seq<TaskEvent>, cursor: int)
    requires forall i :: 0 <= i < |log| ==> log[i].sequence == i + 1
    requires 0 <= cursor
    ensures After(log, cursor) == if cursor <= |log| then log[cursor..] else []
  {
    if log != [] {
      var init := log[..|log| - 1];
      AfterIsSuffix(init, cursor);
      hide After;
      assert log == init + [log[|log| - 1]];
      if cursor < |log| {
        assert log[cursor..] == init[cursor..] + [log[|log| - 1]];
      }
    }
  }

  function EventIds(log: seq<TaskEvent>): seq<Uuid> {
    seq(|log|, i requires 0 <= i < |log| => log[i].eventId)
  }

  /** What a log satisfies as far as its rows are concerned. */
  ghost predicate Numbered(log: seq<TaskEvent>, scope: Scope, taskId: Uuid) {
    forall i :: 0 <= i < |log| ==> log[i].sequence == i + 1 && log[i].scope == scope && log[i].taskId == taskId
  }

  /** The rows of one task after a cursor, in order, are those of the log's suffix. */
  lemma SelectedRows(events: map<Uuid, seq<TaskEvent>>, table: map<Uuid, EventRow>, scope: Scope, taskId: Uuid,
        after: int)
    requires EventsMatch(events, table) && taskId in events && Numbered(events[taskId], scope, taskId)
    requires 0 <= after <= |events[taskId]|
    ensures IsListing(EventIds(events[taskId][after..]), SelectEvents(table, scope, taskId, after), BySequence(table))
  {
    var log := events[taskId];
    var ids := EventIds(log[after..]);
    var S := SelectEvents(table, scope, taskId, after);
    forall i | 0 <= i < |ids|
      ensures ids[i] in S && table[ids[i]].sequence == after + i + 1
    {
      assert ids[i] == log[after + i].eventId;
    }
    forall e | e in S ensures e in ids {
      var n := table[e].sequence;
      assert ids[n - 1 - after] == e;
    }
  }

  lemma SequenceOrders(events: map<Uuid, seq<TaskEvent>>, table: map<Uuid, EventRow>, scope: Scope, taskId: Uuid,
        after: int)
    requires EventsMatch(events, table)
    ensures Orders(BySequence(table), SelectEvents(table, scope, taskId, after))
  {
    hide EventsStored; hide ScopeValues;
    var S := SelectEvents(table, scope, taskId, after);
    forall a, b | a in S && b in S && table[a].sequence == table[b].sequence ensures a == b {
      assert RowLogged(events, a, table[a]) && RowLogged(events, b, table[b]);
    }
  }

  /** The fetched rows pass the corruption check and parse to the log's suffix. */
  lemma FetchedRows(events: map<Uuid, seq<TaskEvent>>, t: Tables, task: Task, scope: Scope, taskId: Uuid, after: int)
    requires EventsMatch(events, t.event) && taskId in events && Numbered(events[taskId], scope, taskId)
    requires task.lastSequence == |events[taskId]| && 0 <= after <= task.lastSequence
    ensures var rows := Ordered(SelectEvents(t.event, scope, taskId, after), BySequence(t.event));
            && (forall e :: e in rows ==> e in t.event)
            && EventsReply(t, rows, task, scope, taskId, after) ==
               Ok(Batch(taskId, after, task.lastSequence, task.state.Terminal(), After(events[taskId], after)))
  {
    hide Ordered; hide Orders; hide SelectEvents; hide BySequence; hide After;
    var log := events[taskId];
    var S, less := SelectEvents(t.event, scope, taskId, after), BySequence(t.event);
    var ids := EventIds(log[after..]);
    SelectedRows(events, t.event, scope, taskId, after);
    SequenceOrders(events, t.event, scope, taskId, after);
    OrderedIsListing(ids, S, less);
    AfterIsSuffix(log, after);
    forall i | 0 <= i < |ids|
      ensures ids[i] in t.event && t.event[ids[i]] == EventRowOf(log[after + i])
    {
      assert ids[i] == log[after + i].eventId;
    }
    assert RowsSound(t.event, ids, scope, taskId, after, task.lastSequence);
    assert Parsed(t.event, ids) == log[after..];
  }

  lemma OrderedIsListing(s: seq<Uuid>, S: set<Uuid>, less: (Uuid, Uuid) -> bool)
    requires Orders(less, S) && IsListing(s, S, less)
    ensures Ordered(S, less) == s
  {
    ListingUnique(Ordered(S, less), s, S, less);
  }

  /** What an existing task of the right scope brings along. */
  lemma RequiredTask(m: Memory, scope: Scope, taskId: Uuid)
    requires Inv(m) && RequireTask(m.tasks, scope, taskId).Ok?
    ensures taskId in m.tasks && m.tasks[taskId] == RequireTask(m.tasks, scope, taskId).value
    ensures m.tasks[taskId].scope == scope && m.tasks[taskId].lastSequence == |m.events[taskId]|
    ensures Numbered(m.events[taskId], scope, taskId)
    ensures WellFormedExecution(m.executions[taskId])
    ensures m.executions[taskId].status.Completed? <==> m.tasks[taskId].state.Terminal()
  {
    assert Entry(taskId, m.tasks[taskId], m.events[taskId], m.executions[taskId]);
    FoldFacts(m.tasks[taskId], m.events[taskId]);
  }

  lemma EventsSimulate(m: Memory, t: Tables, scope: Scope, taskId: Uuid, after: int)
    requires Inv(m) && Related(m, t)
    ensures SqlEvents(t, scope, taskId, after) == Events(m, scope, taskId, after)
  {
    hide Entry; hide RequireTask; hide LoadTask; hide SelectEvents; hide After; hide EventsReply; hide EventsMatch;
    hide KeysMatch; hide ExecutionsMatch; hide Numbered; hide Ordered; hide BySequence; hide WellFormedExecution;
    LoadMatches(m, t, scope, taskId);
    var r := RequireTask(m.tasks, scope, taskId);
    if r.Ok? && 0 <= after <= r.value.lastSequence {
      RequiredTask(m, scope, taskId);
      FetchedRows(m.events, t, r.value, scope, taskId, after);
    }
  }

  // ---------------------------------------------------------------------
  // Writes
  // ---------------------------------------------------------------------

  lemma StoreLoggedEvent(events: map<Uuid, seq<TaskEvent>>, table: map<Uuid, EventRow>, log: seq<TaskEvent>,
        event: TaskEvent)
    requires EventsStored(events, table) && event.eventId !in table
    requires log == if event.taskId in events then events[event.taskId] else []
    ensures EventsStored(events[event.taskId := log + [event]], table[event.eventId := EventRowOf(event)])
  {
    hide EventRowOf;
  }

  /** A new event at the end of a log is a new row. */
  lemma InsertEvent(events: map<Uuid, seq<TaskEvent>>, table: map<Uuid, EventRow>, log: seq<TaskEvent>,
        event: TaskEvent)
    requires EventsMatch(events, table) && event.eventId !in table
    requires log == if event.taskId in events then events[event.taskId] else []
    requires event.sequence == |log| + 1
    ensures !EventConflict(table, event)
    ensures EventsMatch(events[event.taskId := log + [event]], table[event.eventId := EventRowOf(event)])
  {
    hide EventsStored;
    StoreLoggedEvent(events, table, log, event);
    var events': map<Uuid, seq<TaskEvent>> := events[event.taskId := log + [event]];
    var table' := table[event.eventId := EventRowOf(event)];
    forall e | e in table ensures RowLogged(events', e, table[e]) && table'[e] == table[e] {
      assert RowLogged(events, e, table[e]);
    }
    assert RowLogged(events', event.eventId, EventRowOf(event));
  }

  /** An identifier no logged event carries is not in the event table, and the other way round. */
  lemma UnusedIsNoKey(m: Memory, t: Tables, eventId: Uuid)
    requires EventsMatch(m.events, t.event)
    ensures UnusedEventId(m, eventId) <==> eventId !in t.event
  {
  }

  lemma InsertKey(m: map<Identity, Registered>, table: map<IdempotencyKey, Registered>, i: Identity, r: Registered)
    requires KeysMatch(m, table)
    ensures KeysMatch(m[i := r], table[KeyOf(i) := r])
  {
    forall j ensures KeyOf(j) == KeyOf(i) <==> j == i {
      ScopeValuesInjective(i.scope, j.scope);
    }
  }

  lemma StoreTask(tasks: map<Uuid, Task>, table: map<Uuid, TaskRow>, id: Uuid, task: Task)
    requires TasksMatch(tasks, table)
    ensures TasksMatch(tasks[id := task], table[id := TaskRowOf(task)])
  {
    hide TaskRowOf;
  }

  lemma StoreExecution(executions: map<Uuid, Execution>, table: map<Uuid, ExecutionRow>, id: Uuid, e: Execution)
    requires ExecutionsMatch(executions, table)
    ensures ExecutionsMatch(executions[id := e], table[id := ExecutionRowOf(e)])
  {
    hide ExecutionRowOf;
  }

  lemma KeyMatches(m: map<Identity, Registered>, table: map<IdempotencyKey, Registered>, i: Identity)
    requires KeysMatch(m, table)
    ensures (i in m <==> KeyOf(i) in table) && (i in m ==> table[KeyOf(i)] == m[i])
  {
  }

  /** The rows of one task. */
  lemma RowFacts(m: Memory, t: Tables, id: Uuid)
    requires Linked(m) && Related(m, t)
    ensures id in t.task <==> id in m.tasks
    ensures id in t.execution <==> id in m.tasks
    ensures id in m.tasks ==>
      t.task[id] == TaskRowOf(m.tasks[id]) && t.execution[id] == ExecutionRowOf(m.executions[id])
  {
    hide TaskRowOf; hide ExecutionRowOf; hide EventsMatch; hide KeysMatch;
  }

  /** A create that meets its idempotency record writes nothing in either repository. */
  lemma ReplayedCreateSimulates(m: Memory, t: Tables, scope: Scope, ask: Ask, key: string, taskId: Uuid, eventId: Uuid,
        now: Utc)
    requires Inv(m) && Related(m, t) && Identity(scope, key) in m.idempotency
    ensures SqlCreate(t, scope, ask, key, taskId, eventId, now).0 == t
    ensures Create(m, scope, ask, key, taskId, eventId, now).0 == m
    ensures SqlCreate(t, scope, ask, key, taskId, eventId, now).1 == Create(m, scope, ask, key, taskId, eventId, now).1
  {
    hide Entry; hide EventsMatch; hide ExecutionsMatch; hide EventConflict; hide LoadTask;
    KeyMatches(m.idempotency, t.idempotency, Identity(scope, key));
    LoadMatches(m, t, scope, m.idempotency[Identity(scope, key)].taskId);
  }

  lemma NewCreateSimulates(m: Memory, t: Tables, scope: Scope, ask: Ask, key: string, taskId: Uuid, eventId: Uuid,
        now: Utc)
    requires Inv(m) && Related(m, t) && Identity(scope, key) !in m.idempotency
    requires taskId !in m.tasks && UnusedEventId(m, eventId)
    ensures Related(Create(m, scope, ask, key, taskId, eventId, now).0,
      SqlCreate(t, scope, ask, key, taskId, eventId, now).0)
    ensures SqlCreate(t, scope, ask, key, taskId, eventId, now).1 == Create(m, scope, ask, key, taskId, eventId, now).1
  {
    hide Entry; hide EventsMatch; hide KeysMatch; hide TasksMatch; hide ExecutionsMatch; hide UnusedEventId;
    hide EventConflict; hide LoadTask; hide TaskRowOf; hide EventRowOf; hide InitialTask; hide ScopeValues;
    var identity, event := Identity(scope, key), InitialEvent(scope, taskId, eventId, now);
    KeyMatches(m.idempotency, t.idempotency, identity);
    RowFacts(m, t, taskId);
    UnusedIsNoKey(m, t, eventId);
    InsertEvent(m.events, t.event, [], event);
    assert [] + [event] == [event];
    InsertKey(m.idempotency, t.idempotency, identity, Registered(ask, taskId));
    StoreTask(m.tasks, t.task, taskId, InitialTask(scope, ask, taskId, now));
    StoreExecution(m.executions, t.execution, taskId, UNCLAIMED);
  }

  lemma AppendSimulates(m: Memory, t: Tables, scope: Scope, event: TaskEvent)
    requires Inv(m) && Related(m, t)
    requires Append(m, scope, event).1.Ok? ==> UnusedEventId(m, event.eventId)
    ensures SqlAppend(t, scope, event).1 == Append(m, scope, event).1
    ensures Related(Append(m, scope, event).0, SqlAppend(t, scope, event).0)
  {
    hide Entry; hide EventsMatch; hide KeysMatch; hide TasksMatch; hide ExecutionsMatch; hide UnusedEventId;
    hide EventConflict; hide LoadTask; hide EventRowOf; hide ScopeValues;
    hide ValidatedAppend; hide RequireTask; hide Numbered; hide WellFormedExecution;
    var id := event.taskId;
    RelatedTasks(m, t);
    LoadMatches(m, t, scope, id);
    var (m', r) := Append(m, scope, event);
    if r.Ok? {
      RequiredTask(m, scope, id);
      RowFacts(m, t, id);
      AppendBasics(m.tasks[id], event, r.value);
      UnusedIsNoKey(m, t, event.eventId);
      InsertEvent(m.events, t.event, m.events[id], event);
      StoreTask(m.tasks, t.task, id, r.value);
      StoreExecution(m.executions, t.execution, id, DONE);
    }
  }

  /** The parsed, the text and the dictionary form of the lease condition agree. */
  lemma LeaseFormsAgree(e: Execution, owner: string, now: Utc)
    requires WellFormedExecution(e)
    ensures ParsedExpiredForeign(ExecutionRowOf(e), owner, now) == Some(ExpiredForeign(e, owner, now))
    ensures TextExpiredForeign(ExecutionRowOf(e), owner, now) == ExpiredForeign(e, owner, now)
  {
    hide Micros; hide Text; hide TextLess; hide Parse;
    if e.lease.Some? {
      ParseText(e.lease.value);
      TextOrderIsTimeOrder(now, e.lease.value);
    }
  }

  lemma ClaimSimulates(m: Memory, t: Tables, scope: Scope, taskId: Uuid, owner: string, now: Utc, lease: Utc)
    requires Inv(m) && Related(m, t)
    ensures SqlClaim(t, scope, taskId, owner, now, lease).1 == Claim(m, scope, taskId, owner, now, lease).1
    ensures Related(Claim(m, scope, taskId, owner, now, lease).0, SqlClaim(t, scope, taskId, owner, now, lease).0)
  {
    hide Entry; hide EventsMatch; hide KeysMatch; hide TasksMatch; hide ExecutionsMatch; hide LoadTask;
    hide ValidClaim; hide ExpiredForeign; hide ParsedExpiredForeign; hide Text; hide RequireTask; hide Numbered;
    RelatedTasks(m, t);
    LoadMatches(m, t, scope, taskId);
    if RequireTask(m.tasks, scope, taskId).Ok? {
      RequiredTask(m, scope, taskId);
      RowFacts(m, t, taskId);
      LeaseFormsAgree(m.executions[taskId], owner, now);
      StoreExecution(m.executions, t.execution, taskId, Execution(Claimed, Some(owner), Some(lease)));
    }
  }

  // ---------------------------------------------------------------------
  // Simulation
  // ---------------------------------------------------------------------

  /** Related repositories give the same reply to any operation and stay related. */
  lemma StepSimulates(m: Memory, t: Tables, op: Op)
    requires Inv(m) && Related(m, t) && Fresh(m, op)
    ensures SqlStep(t, op).1 == Step(m, op).1
    ensures Related(Step(m, op).0, SqlStep(t, op).0)
  {
    hide Entry; hide Related; hide UnusedEventId; hide Linked;
    hide Create; hide SqlCreate; hide Append; hide SqlAppend; hide Claim; hide SqlClaim; hide Events; hide SqlEvents;
    match op
    case CreateOp(scope, ask, key, taskId, eventId, at) =>
      if Identity(scope, key) in m.idempotency {
        ReplayedCreateSimulates(m, t, scope, ask, key, taskId, eventId, at);
      } else {
        NewCreateSimulates(m, t, scope, ask, key, taskId, eventId, at);
      }
    case GetOp(scope, taskId) => RelatedTasks(m, t); LoadMatches(m, t, scope, taskId);
    case EventsOp(scope, taskId, after) => EventsSimulate(m, t, scope, taskId, after);
    case AppendOp(scope, event) => AppendSimulates(m, t, scope, event);
    case ClaimOp(scope, taskId, owner, now, lease) => ClaimSimulates(m, t, scope, taskId, owner, now, lease);
  }

  lemma RelatedTasks(m: Memory, t: Tables)
    requires Related(m, t)
    ensures TasksMatch(m.tasks, t.task)
  {
  }

  ghost function Replies(m: Memory, ops: seq<Op>): seq<Reply>
    requires Inv(m) && FreshRun(m, ops)
    decreases |ops|
  {
    if ops == [] then []
    else StepKeepsInv(m, ops[0]); [Step(m, ops[0]).1] + Replies(Step(m, ops[0]).0, ops[1..])
  }

  ghost function SqlReplies(t: Tables, ops: seq<Op>): seq<Reply>
    decreases |ops|
  {
    if ops == [] then [] else [SqlStep(t, ops[0]).1] + SqlReplies(SqlStep(t, ops[0]).0, ops[1..])
  }

  ghost function SqlRunFrom(t: Tables, ops: seq<Op>): Tables
    decreases |ops|
  {
    if ops == [] then t else SqlRunFrom(SqlStep(t, ops[0]).0, ops[1..])
  }

  /** For every run with fresh identifiers both repositories give the same replies, one by
      one, and end in related states. */
  lemma {:induction false} RunSimulates(m: Memory, t: Tables, ops: seq<Op>)
    requires Inv(m) && Related(m, t) && FreshRun(m, ops)
    ensures SqlReplies(t, ops) == Replies(m, ops)
    ensures Related(RunFrom(m, ops), SqlRunFrom(t, ops))
    decreases |ops|
  {
    hide Entry; hide Linked; hide Related; hide Step; hide SqlStep; hide Fresh;
    if ops != [] {
      StepKeepsInv(m, ops[0]);
      StepSimulates(m, t, ops[0]);
      RunSimulates(Step(m, ops[0]).0, SqlStep(t, ops[0]).0, ops[1..]);
    }
  }

  /** The repositories start related. */
  lemma EmptyRelated()
    ensures Inv(EMPTY) && Related(EMPTY, NO_ROWS)
  {
  }

  /** The dictionaries never report damage or a write conflict. */
  lemma MemoryNeverCorrupt(m: Memory, op: Op)
    requires Inv(m)
    ensures Step(m, op).1 != Failure(PersistenceCorrupt) && Step(m, op).1 != Failure(PersistenceConflict)
    ensures Step(m, op).1 != Failure(ExecutionCorrupt)
  {
    hide Entry; hide Claimable; hide ValidClaim; hide After;
  }

  /** Hence, from any related pair, no corruption branch and no constraint violation of the
      SQLite repository is ever reached. */
  lemma {:induction false} SqliteNeverCorrupt(m: Memory, t: Tables, ops: seq<Op>)
    requires Inv(m) && Related(m, t) && FreshRun(m, ops)
    ensures Failure(PersistenceCorrupt) !in SqlReplies(t, ops)
    ensures Failure(PersistenceConflict) !in SqlReplies(t, ops)
    decreases |ops|
  {
    hide Entry; hide Linked; hide Related; hide Step; hide SqlStep; hide Fresh;
    if ops != [] {
      StepKeepsInv(m, ops[0]);
      StepSimulates(m, t, ops[0]);
      MemoryNeverCorrupt(m, ops[0]);
      SqliteNeverCorrupt(Step(m, ops[0]).0, SqlStep(t, ops[0]).0, ops[1..]);
    }
  }

  /** From an empty database, over every run with new identifiers, both repositories give the
      same replies, none of them a corruption or a constraint violation. */
  lemma EmptyDatabaseAgrees(ops: seq<Op>)
    requires Inv(EMPTY) && FreshRun(EMPTY, ops)
    ensures SqlReplies(NO_ROWS, ops) == Replies(EMPTY, ops)
    ensures Failure(PersistenceCorrupt) !in SqlReplies(NO_ROWS, ops)
    ensures Failure(PersistenceConflict) !in SqlReplies(NO_ROWS, ops)
  {
    hide Entry; hide Related; hide FreshRun;
    EmptyRelated();
    RunSimulates(EMPTY, NO_ROWS, ops);
    SqliteNeverCorrupt(EMPTY, NO_ROWS, ops);
  }

  /** Fresh identifiers are exactly what agreement needs: with a reused identifier the
      dictionaries overwrite or accept while SQLite refuses and keeps its tables. */
  lemma AgreementNeedsFreshIds(m: Memory, t: Tables, op: Op)
    requires Inv(m) && Related(m, t)
    ensures SqlStep(t, op).1 == Step(m, op).1 <==> Fresh(m, op)
    ensures !Fresh(m, op) ==> SqlStep(t, op) == (t, Failure(PersistenceConflict)) && Step(m, op).1.TaskReply?
  {
    hide Entry; hide Related; hide UnusedEventId; hide Linked; hide TaskRowOf; hide ExecutionRowOf; hide InitialTask;
    hide LoadTask; hide RequireTask; hide ValidatedAppend; hide EventsMatch; hide ScopeValues;
    if Fresh(m, op) {
      StepSimulates(m, t, op);
    } else {
      match op
      case CreateOp(scope, ask, key, taskId, eventId, at) =>
        RelatedParts(m, t);
        KeyMatches(m.idempotency, t.idempotency, Identity(scope, key));
        RowFacts(m, t, taskId);
        UnusedIsNoKey(m, t, eventId);
      case AppendOp(scope, event) =>
        RelatedParts(m, t);
        LoadMatches(m, t, scope, event.taskId);
        UnusedIsNoKey(m, t, event.eventId);
    }
  }

  lemma RelatedParts(m: Memory, t: Tables)
    requires Related(m, t)
    ensures TasksMatch(m.tasks, t.task) && EventsMatch(m.events, t.event)
    ensures KeysMatch(m.idempotency, t.idempotency) && ExecutionsMatch(m.executions, t.execution)
  {
  }

  // ---------------------------------------------------------------------
  // Selections
  // ---------------------------------------------------------------------

  /** Both repositories select the same tasks, although one compares instants and the other
      timestamp texts. */
  lemma SelectionsAgree(m: Memory, t: Tables, owner: string, now: Utc, id: Uuid)
    requires Inv(m) && Related(m, t)
    ensures id in SqlSelectPending(t, owner, now) <==> id in m.tasks && m.tasks[id] in PendingTasks(m, owner, now)
    ensures id in SqlSelectOrphaned(t, owner, now) <==> id in m.tasks && m.tasks[id] in OrphanedTasks(m, owner, now)
  {
    hide Entry; hide ExpiredForeign; hide TextExpiredForeign; hide Related; hide PendingTasks; hide OrphanedTasks;
    hide Text; hide Linked;
    RowFacts(m, t, id);
    SelectedHere(m, owner, now, id);
    if id in m.tasks {
      LeaseFormsAgree(m.executions[id], owner, now);
    }
  }

  /** A stored task is selected for its own sake only: identifiers are unique. */
  lemma SelectedHere(m: Memory, owner: string, now: Utc, id: Uuid)
    requires Inv(m)
    ensures id in m.tasks ==>
      && id in m.executions && WellFormedExecution(m.executions[id])
      && (m.tasks[id] in PendingTasks(m, owner, now) <==>
          m.tasks[id].state.Accepted? && Claimable(m.executions[id], owner, now))
      && (m.tasks[id] in OrphanedTasks(m, owner, now) <==> IsOrphan(m.tasks[id], m.executions[id], owner, now))
  {
    hide IsFold; hide Claimable; hide IsOrphan;
    if id in m.tasks {
      assert Entry(id, m.tasks[id], m.events[id], m.executions[id]);
      forall j | j in m.tasks && m.tasks[j] == m.tasks[id] ensures j == id {
        assert Entry(j, m.tasks[j], m.events[j], m.executions[j]);
      }
    }
  }

  predicate IdLess(a: Uuid, b: Uuid) {
    a < b
  }

  /** The tasks of a list of identifiers. */
  ghost function TasksAt(m: Memory, ids: seq<Uuid>): seq<Task>
    requires forall i :: 0 <= i < |ids| ==> ids[i] in m.tasks
  {
    seq(|ids|, i requires 0 <= i < |ids| => m.tasks[ids[i]])
  }

  lemma ScannedMatches(m: Memory, t: Tables, ids: seq<Uuid>)
    requires TasksMatch(m.tasks, t.task) && forall i :: 0 <= i < |ids| ==> ids[i] in m.tasks
    ensures Scanned(t.task, ids) == Ok(TasksAt(m, ids))
  {
    assert forall i :: 0 <= i < |ids| ==> RowSound(t.task[ids[i]]) && t.task[ids[i]].json.value == m.tasks[ids[i]];
    assert Scanned(t.task, ids).value == TasksAt(m, ids);
  }

  /** `S` names the tasks of `T`. */
  ghost predicate Names(m: Memory, S: set<Uuid>, T: set<Task>) {
    && (forall id :: id in S ==> id in m.tasks && m.tasks[id] in T)
    && (forall task :: task in T ==> task.taskId in S && m.tasks[task.taskId] == task)
    && (forall id :: id in S ==> m.tasks[id].taskId == id)
  }

  lemma ListedTasks(m: Memory, ids: seq<Uuid>, S: set<Uuid>, T: set<Task>, task: Task)
    requires Names(m, S, T) && IsListing(ids, S, IdLess)
    ensures forall i :: 0 <= i < |ids| ==> ids[i] in m.tasks
    ensures task in TasksAt(m, ids) <==> task in T
  {
    assert forall i :: 0 <= i < |ids| ==> ids[i] in S;
    var tasks := TasksAt(m, ids);
    if task in T {
      assert task.taskId in ids;
      var i :| 0 <= i < |ids| && ids[i] == task.taskId;
      assert tasks[i] == task;
    }
    if task in tasks {
      var i :| 0 <= i < |tasks| && tasks[i] == task;
      assert ids[i] in S;
    }
  }

  /** Listing a set of tasks by identifier and by any other order: same length, and the same
      tasks unless the limit cuts the list off. */
  lemma ListingsAgree(m: Memory, ids: seq<Uuid>, all: seq<Task>, S: set<Uuid>, T: set<Task>, less: (Task, Task) -> bool,
        limit: nat)
    requires Names(m, S, T)
    requires IsListing(ids, S, IdLess) && Orders(less, T) && IsListing(all, T, less)
    ensures forall i :: 0 <= i < |ids| ==> ids[i] in m.tasks
    ensures |Take(ids, limit)| == |Take(all, limit)|
    ensures |all| <= limit ==> forall task :: task in TasksAt(m, Take(ids, limit)) <==> task in Take(all, limit)
  {
    hide TasksAt;
    assert forall i :: 0 <= i < |ids| ==> ids[i] in S;
    ListingSize(ids, S, IdLess);
    ListingSize(all, T, less);
    NamesSize(m, S, T);
    if |all| <= limit {
      forall task ensures task in TasksAt(m, ids) <==> task in all {
        ListedTasks(m, ids, S, T, task);
      }
    }
  }

  lemma NamesSize(m: Memory, S: set<Uuid>, T: set<Task>)
    requires Names(m, S, T)
    ensures |S| == |T|
  {
    forall id | id in S ensures id in set task | task in T :: task.taskId {
      assert m.tasks[id] in T;
    }
    assert S == set task | task in T :: task.taskId;
    SameSize(T, S);
  }

  lemma {:induction false} SameSize(T: set<Task>, S: set<Uuid>)
    requires S == set task | task in T :: task.taskId
    requires forall a, b :: a in T && b in T && a.taskId == b.taskId ==> a == b
    ensures |S| == |T|
    decreases T
  {
    if T != {} {
      var x :| x in T;
      assert x.taskId in S;
      SameSize(T - {x}, S - {x.taskId});
    }
  }

  /** Pending and orphaned listings of the two repositories have the same length and, when
      the limit is not reached, the same tasks; the SQLite rows always scan. */
  lemma ListedSelectionsAgree(m: Memory, t: Tables, owner: string, now: Utc, limit: nat,
                              pending: seq<Task>, pendingIds: seq<Uuid>, orphaned: seq<Task>, orphanedIds: seq<Uuid>)
    requires Inv(m) && Related(m, t)
    requires IsListing(pending, PendingTasks(m, owner, now), CreatedBefore)
    requires IsListing(pendingIds, SqlSelectPending(t, owner, now), IdLess)
    requires IsListing(orphaned, OrphanedTasks(m, owner, now), UpdatedBefore)
    requires IsListing(orphanedIds, SqlSelectOrphaned(t, owner, now), IdLess)
    ensures SameSelection(m, t, Take(pending, limit), Take(pendingIds, limit), |pending| <= limit)
    ensures SameSelection(m, t, Take(orphaned, limit), Take(orphanedIds, limit), |orphaned| <= limit)
  {
    hide Entry; hide CreatedBefore; hide UpdatedBefore; hide PendingTasks; hide OrphanedTasks; hide IsListing;
    hide SqlSelectPending; hide SqlSelectOrphaned; hide Related; hide Names; hide Scanned; hide Orders;
    hide DistinctIds;
    var P, O := PendingTasks(m, owner, now), OrphanedTasks(m, owner, now);
    var P', O' := SqlSelectPending(t, owner, now), SqlSelectOrphaned(t, owner, now);
    SelectionsNamed(m, t, owner, now);
    SelectionsHaveDistinctIds(m, owner, now);
    CreationOrder(P);
    UpdateOrder(O);
    RelatedTasks(m, t);
    ListingsAgree(m, pendingIds, pending, P', P, CreatedBefore, limit);
    ScannedMatches(m, t, Take(pendingIds, limit));
    ListingsAgree(m, orphanedIds, orphaned, O', O, UpdatedBefore, limit);
    ScannedMatches(m, t, Take(orphanedIds, limit));
  }

  lemma SelectionsNamed(m: Memory, t: Tables, owner: string, now: Utc)
    requires Inv(m) && Related(m, t)
    ensures Names(m, SqlSelectPending(t, owner, now), PendingTasks(m, owner, now))
    ensures Names(m, SqlSelectOrphaned(t, owner, now), OrphanedTasks(m, owner, now))
  {
    hide IsFold; hide PendingTasks; hide OrphanedTasks; hide SqlSelectPending; hide SqlSelectOrphaned; hide Related;
    forall id
      ensures id in SqlSelectPending(t, owner, now) <==> id in m.tasks && m.tasks[id] in PendingTasks(m, owner, now)
      ensures id in SqlSelectOrphaned(t, owner, now) <==> id in m.tasks && m.tasks[id] in OrphanedTasks(m, owner, now)
    {
      SelectionsAgree(m, t, owner, now, id);
    }
    forall id | id in m.tasks ensures m.tasks[id].taskId == id {
      assert Entry(id, m.tasks[id], m.events[id], m.executions[id]);
    }
    SelectedAreStored(m, owner, now);
  }

  ghost predicate SameSelection(m: Memory, t: Tables, tasks: seq<Task>, ids: seq<Uuid>, complete: bool) {
    && (forall i :: 0 <= i < |ids| ==> ids[i] in t.task)
    && Scanned(t.task, ids).Ok?
    && |Scanned(t.task, ids).value| == |tasks|
    && (complete ==> forall task :: task in Scanned(t.task, ids).value <==> task in tasks)
  }

  lemma SelectedAreStored(m: Memory, owner: string, now: Utc)
    requires Inv(m)
    ensures forall task :: task in PendingTasks(m, owner, now) + OrphanedTasks(m, owner, now) ==>
              task.taskId in m.tasks && m.tasks[task.taskId] == task
  {
    hide IsFold; hide Claimable; hide IsOrphan;
    forall id | id in m.tasks ensures m.tasks[id].taskId == id {
      assert Entry(id, m.tasks[id], m.events[id], m.executions[id]);
    }
  }

  /** A foreign lease running beyond `now`. */
  predicate HeldBeyond(e: Execution, owner: string, now: Utc) {
    e.status.Claimed? && e.owner != Some(owner) && e.lease.Some? && Micros(e.lease.value) > Micros(now)
  }

  /** MIN over the stored lease texts, parsed, is the earliest foreign lease of the
      dictionaries: a lease is the least text exactly when it is the earliest. */
  lemma NextExpiryAgrees(m: Memory, t: Tables, owner: string, now: Utc, id: Uuid)
    requires Inv(m) && Related(m, t) && id in m.tasks && HeldBeyond(m.executions[id], owner, now)
    ensures var lease := m.executions[id].lease.value;
            && Text(lease) in ForeignLeases(t.execution, owner, now)
            && Parse(Text(lease)) == Some(lease)
            && ((forall x :: x in ForeignLeases(t.execution, owner, now) ==> !TextLess(x, Text(lease))) <==>
                (forall j :: j in m.tasks && HeldBeyond(m.executions[j], owner, now) ==>
                   Micros(lease) <= Micros(m.executions[j].lease.value)))
  {
    hide IsFold; hide ForeignLeases; hide Text; hide TextLess; hide Parse; hide Micros; hide EventsMatch;
    hide KeysMatch; hide TasksMatch;
    var lease := m.executions[id].lease.value;
    ParseText(lease);
    HeldLeaseStored(m, t, owner, now, id);
    var L := ForeignLeases(t.execution, owner, now);
    forall j | j in m.tasks && m.executions[j].lease.Some?
      ensures TextLess(Text(m.executions[j].lease.value), Text(lease)) <==>
              Micros(m.executions[j].lease.value) < Micros(lease)
    {
      TextOrderIsTimeOrder(m.executions[j].lease.value, lease);
    }
    forall j | j in m.tasks && HeldBeyond(m.executions[j], owner, now)
      ensures Text(m.executions[j].lease.value) in L
    {
      HeldLeaseStored(m, t, owner, now, j);
    }
    forall x | x in L
      ensures exists j ::
        j in m.tasks && HeldBeyond(m.executions[j], owner, now) && x == Text(m.executions[j].lease.value)
    {
      var j := StoredLeaseHeld(m, t, owner, now, x);
    }
  }

  /** The lease text of every record held beyond `now` is among those the statement compares. */
  lemma HeldLeaseStored(m: Memory, t: Tables, owner: string, now: Utc, id: Uuid)
    requires Inv(m) && Related(m, t) && id in m.tasks && HeldBeyond(m.executions[id], owner, now)
    ensures Text(m.executions[id].lease.value) in ForeignLeases(t.execution, owner, now)
  {
    hide IsFold; hide Text; hide TextLess; hide Micros; hide EventsMatch; hide KeysMatch; hide TasksMatch;
    assert Entry(id, m.tasks[id], m.events[id], m.executions[id]);
    assert t.execution[id] == ExecutionRowOf(m.executions[id]);
    TextOrderIsTimeOrder(now, m.executions[id].lease.value);
    assert t.execution[id].lease.value in ForeignLeases(t.execution, owner, now);
  }

  /** And every text among them is the lease of such a record. */
  lemma StoredLeaseHeld(m: Memory, t: Tables, owner: string, now: Utc, x: string) returns (id: Uuid)
    requires Inv(m) && Related(m, t) && x in ForeignLeases(t.execution, owner, now)
    ensures id in m.tasks && HeldBeyond(m.executions[id], owner, now) && x == Text(m.executions[id].lease.value)
  {
    hide IsFold; hide Text; hide TextLess; hide Micros; hide EventsMatch; hide KeysMatch; hide TasksMatch;
    id :| id in t.execution && t.execution[id].status.Claimed? && t.execution[id].owner.Some?
          && t.execution[id].owner != Some(owner) && t.execution[id].lease.Some?
          && TextLess(Text(now), t.execution[id].lease.value) && t.execution[id].lease.value == x;
    assert Entry(id, m.tasks[id], m.events[id], m.executions[id]);
    assert t.execution[id] == ExecutionRowOf(m.executions[id]);
    TextOrderIsTimeOrder(now, m.executions[id].lease.value);
  }

  /** Both repositories find no foreign lease beyond `now` for the same content. */
  lemma NoExpiryAgrees(m: Memory, t: Tables, owner: string, now: Utc)
    requires Inv(m) && Related(m, t)
    ensures ForeignLeases(t.execution, owner, now) == {} <==>
            forall id :: id in m.tasks ==> !HeldBeyond(m.executions[id], owner, now)
  {
    hide Entry; hide ForeignLeases; hide HeldBeyond; hide Related; hide Text;
    forall id | id in m.tasks && HeldBeyond(m.executions[id], owner, now)
      ensures ForeignLeases(t.execution, owner, now) != {}
    {
      HeldLeaseStored(m, t, owner, now, id);
    }
    if ForeignLeases(t.execution, owner, now) != {} {
      var x :| x in ForeignLeases(t.execution, owner, now);
      var id := StoredLeaseHeld(m, t, owner, now, x);
    }
  }
}
