/**
 Workbench tasks and their event log (client/models.py and the pure part of
 client/service.py): the append rule, and what replaying a log with it guarantees.
 */
module TaskLog {
  import opened Common
  import opened Timestamp

  datatype TaskState =
    | Accepted | Running | ReviewRequired | HumanRequired
    | Succeeded | Partial | Blocked | Failed | Cancelled
  {
    predicate Terminal() {
      Succeeded? || Partial? || Blocked? || Failed? || Cancelled?
    }
  }

  datatype EventKind = Status | Progress | Review | Approval | ResultEvent | Issue

  datatype TaskClass = G0 | P1 | P2 | P3 | K1

  datatype TaskEvent = TaskEvent(
    eventId: Uuid, taskId: Uuid, scope: Scope, sequence: int, kind: EventKind, state: TaskState,
    message: string, errorCode: Option<string>, nextAction: Option<string>, createdAt: Utc)

  datatype Task = Task(
    taskId: Uuid, scope: Scope, taskClass: TaskClass, goal: string, successCriteria: seq<string>,
    state: TaskState, lastSequence: int, reviewRequired: bool, reviewCompleted: bool,
    approvalRequired: bool, createdAt: Utc, updatedAt: Utc)

  /** What a create request is about; its canonical hash stands for this value. */
  datatype Ask = Ask(taskClass: TaskClass, goal: string, successCriteria: seq<string>)

  datatype Code =
    | TaskTerminal | SequenceInvalid | TransitionInvalid | ReviewMissing
    | TaskNotFound | CursorInvalid | IdempotencyConflict | ExecutionCorrupt
    | PersistenceConflict | PersistenceCorrupt | ArgumentInvalid

  /** _ALLOWED_STATE_TRANSITIONS. */
  predicate Allowed(a: TaskState, b: TaskState) {
    match a
    case Accepted => b.Running? || b.Blocked? || b.Failed? || b.Cancelled?
    case Running => b.ReviewRequired? || b.HumanRequired? || b.Terminal()
    case ReviewRequired => b.Running? || b.HumanRequired? || (b.Terminal() && !b.Cancelled?)
    case HumanRequired => b.Running? || b.Terminal()
    case _ => false
  }

  /** _validated_appended_task. */
  function ValidatedAppend(task: Task, scope: Scope, event: TaskEvent): Result<Task, Code> {
    if task.state.Terminal() then Err(TaskTerminal)
    else if event.scope != scope || event.sequence != task.lastSequence + 1 then Err(SequenceInvalid)
    else if !Allowed(task.state, event.state) then Err(TransitionInvalid)
    else
      var reviewCompleted :=
        task.reviewCompleted || (task.state.ReviewRequired? && event.kind.Review? && event.state.Running?);
      if event.state.Succeeded? && !reviewCompleted then Err(ReviewMissing)
      else Ok(task.(state := event.state, lastSequence := event.sequence, reviewCompleted := reviewCompleted,
                    approvalRequired := event.state.HumanRequired?, updatedAt := event.createdAt))
  }

  /** _initial_task_records. */
  function InitialTask(scope: Scope, ask: Ask, taskId: Uuid, now: Utc): Task {
    Task(taskId, scope, ask.taskClass, ask.goal, ask.successCriteria, Accepted, 1,
         ask.taskClass != G0, ask.taskClass == G0, false, now, now)
  }

  function InitialEvent(scope: Scope, taskId: Uuid, eventId: Uuid, now: Utc): TaskEvent {
    TaskEvent(eventId, taskId, scope, 1, Status, Accepted, "Task accepted for Main Agent routing.", None, None, now)
  }

  // ---------------------------------------------------------------------
  // The task is the fold of its log
  // ---------------------------------------------------------------------

  /** The task at its creation, recovered from any later version of it. */
  function AtCreation(task: Task): Task {
    task.(state := Accepted, lastSequence := 1, reviewCompleted := !task.reviewRequired,
          approvalRequired := false, updatedAt := task.createdAt)
  }

  /** Appends the events of `es` one after the other. */
  function Replay(task: Task, es: seq<TaskEvent>): Result<Task, Code> {
    if es == [] then Ok(task)
    else
      match Replay(task, es[..|es| - 1])
      case Err(code) => Err(code)
      case Ok(t) => ValidatedAppend(t, t.scope, es[|es| - 1])
  }

  /** `task` is what its log replays to, from the accepting event on. */
  ghost predicate IsFold(task: Task, log: seq<TaskEvent>) {
    && |log| >= 1
    && log[0] == InitialEvent(task.scope, task.taskId, log[0].eventId, task.createdAt)
    && (forall i :: 0 <= i < |log| ==> log[i].taskId == task.taskId)
    && Replay(AtCreation(task), log[1..]) == Ok(task)
  }

  /** A completed review in the log: REVIEW_REQUIRED followed at once by a REVIEW event
      that resumes the task. */
  ghost predicate ReviewedAt(log: seq<TaskEvent>, i: int) {
    && 0 <= i < |log| - 1
    && log[i].state.ReviewRequired? && log[i + 1].kind.Review? && log[i + 1].state.Running?
  }

  ghost predicate Reviewed(log: seq<TaskEvent>) {
    exists i :: ReviewedAt(log, i)
  }

  /** Everything a reader of the log may rely on. */
  ghost predicate LogFacts(task: Task, log: seq<TaskEvent>) {
    && |log| >= 1 && log[0].state == Accepted
    && (forall i :: 0 <= i < |log| ==> log[i].sequence == i + 1 && log[i].scope == task.scope)
    && (forall i :: 0 <= i < |log| - 1 ==> Allowed(log[i].state, log[i + 1].state))
    && (forall i :: 0 <= i < |log| - 1 ==> !log[i].state.Terminal())
    && task.lastSequence == |log|
    && task.state == log[|log| - 1].state
    && task.updatedAt == log[|log| - 1].createdAt
    && task.approvalRequired == task.state.HumanRequired?
    && (task.reviewCompleted <==> !task.reviewRequired || Reviewed(log))
    && (task.state.Succeeded? ==> task.reviewCompleted)
    && (task.state.Accepted? ==> |log| == 1)
  }

  /** One accepted append keeps the log facts. */
  lemma AppendKeepsFacts(task: Task, log: seq<TaskEvent>, event: TaskEvent, task': Task)
    requires LogFacts(task, log) && ValidatedAppend(task, task.scope, event) == Ok(task')
    ensures LogFacts(task', log + [event])
  {
    ReviewedLater(log, event);
    hide Reviewed;
  }

  /** A log is reviewed after an event if it was before, or if the event answers a pending review. */
  lemma ReviewedLater(log: seq<TaskEvent>, event: TaskEvent)
    requires log != []
    ensures Reviewed(log + [event]) <==>
      Reviewed(log) || (log[|log| - 1].state.ReviewRequired? && event.kind.Review? && event.state.Running?)
  {
    var log' := log + [event];
    assert forall i :: 0 <= i < |log| ==> log'[i] == log[i];
    if i :| ReviewedAt(log, i) {
      assert ReviewedAt(log', i);
    }
    if i :| ReviewedAt(log', i) && i < |log| - 1 {
      assert ReviewedAt(log, i);
    }
    assert ReviewedAt(log', |log| - 1) <==>
      log[|log| - 1].state.ReviewRequired? && event.kind.Review? && event.state.Running?;
  }

  lemma ReplayIdentity(task: Task, es: seq<TaskEvent>, task': Task)
    requires Replay(task, es) == Ok(task')
    ensures task'.scope == task.scope && task'.taskId == task.taskId && task'.createdAt == task.createdAt
    ensures task'.reviewRequired == task.reviewRequired && AtCreation(task') == AtCreation(task)
  {
    if es != [] {
      ReplayIdentity(task, es[..|es| - 1], Replay(task, es[..|es| - 1]).value);
    }
  }

  lemma {:induction false} ReplayFacts(task: Task, first: TaskEvent, es: seq<TaskEvent>, task': Task)
    requires task == AtCreation(task) && first.state == Accepted && first.sequence == 1
    requires first.scope == task.scope && first.createdAt == task.createdAt
    requires Replay(task, es) == Ok(task')
    ensures LogFacts(task', [first] + es)
  {
    if es == [] {
      assert [first] + es == [first];
      assert !Reviewed([first]);
    } else {
      var init, last := es[..|es| - 1], es[|es| - 1];
      var t := Replay(task, init).value;
      ReplayFacts(task, first, init, t);
      AppendKeepsFacts(t, [first] + init, last, task');
      assert [first] + es == ([first] + init) + [last];
    }
  }

  /** Sequences are 1..n, nothing follows a terminal event, the task's state is that of
      its last event, and success of a review-required task was preceded by a completed
      review. */
  lemma FoldFacts(task: Task, log: seq<TaskEvent>)
    requires IsFold(task, log)
    ensures LogFacts(task, log)
  {
    ReplayFacts(AtCreation(task), log[0], log[1..], task);
    assert log == [log[0]] + log[1..];
  }

  /** A SUCCEEDED task that needs review shows the review in its log. */
  lemma SuccessWasReviewed(task: Task, log: seq<TaskEvent>)
    requires IsFold(task, log) && task.state.Succeeded? && task.reviewRequired
    ensures exists i :: ReviewedAt(log, i)
  {
    FoldFacts(task, log);
  }

  /** The parts of an accepted append other proofs need. */
  lemma AppendBasics(task: Task, event: TaskEvent, task': Task)
    requires ValidatedAppend(task, task.scope, event) == Ok(task')
    ensures task'.taskId == task.taskId && task'.scope == task.scope && task'.createdAt == task.createdAt
    ensures task'.state == event.state && task'.lastSequence == event.sequence == task.lastSequence + 1
    ensures !task.state.Terminal() && !task'.state.Accepted? && event.scope == task.scope
  {
  }

  /** The fold goes on with every accepted append. */
  lemma FoldAppend(task: Task, log: seq<TaskEvent>, event: TaskEvent, task': Task)
    requires IsFold(task, log) && event.taskId == task.taskId
    requires ValidatedAppend(task, task.scope, event) == Ok(task')
    ensures IsFold(task', log + [event])
  {
    var log' := log + [event];
    ReplayIdentity(AtCreation(task), log[1..], task);
    assert log'[1..][..|log'[1..]| - 1] == log[1..];
    assert log'[1..][|log'[1..]| - 1] == event;
  }

  lemma FoldInitial(scope: Scope, ask: Ask, taskId: Uuid, eventId: Uuid, now: Utc)
    ensures IsFold(InitialTask(scope, ask, taskId, now), [InitialEvent(scope, taskId, eventId, now)])
  {
  }
}
