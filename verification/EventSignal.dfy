/**
 The commit notification between the task repository and streaming readers
 (client/service.py: _TaskEventSignal, _NotifyingTaskRepository, stream_events), as a state
 machine whose steps are the sections between two suspension or lock points. The state is
 that of one task: versions and waiters are kept per task and never mixed.
 */
module EventSignal {
  import opened Common

  datatype Event = Event(payload: int, terminal: bool)

  type StreamId = nat
  type WriterId = nat
  type Waiter = nat // one registered (loop, asyncio.Event) pair

  /** Where a reader of `stream_events` is. */
  datatype Position =
    | AtGeneration                   // about to read the generation
    | AtEvents(generation: nat)      // generation read, events not yet
    | AtWait(generation: nat)        // batch yielded, about to call wait
    | Asleep(generation: nat, waiter: Waiter)
    | Leaving(waiter: Waiter, changed: bool)
    | Finished(terminal: bool)

  datatype Stream = Stream(start: nat, cursor: nat, yielded: seq<seq<Event>>, position: Position)

  /** Where a writer of `append` is: after the repository committed event number `index`,
      before or during `publish`. */
  datatype Writer =
    | Committed(index: nat)
    | Notifying(index: nat, targets: set<Waiter>)

  /** `echoes` are the publishes without an event, after a replayed create, with the waiters
      they still have to wake. `bumpedAt` and `published` record history: the version each
      event's publish set, and the events whose publish returned. */
  datatype System = System(
    log: seq<Event>, version: nat, waiters: set<Waiter>, woken: set<Waiter>, nextWaiter: nat,
    writers: map<WriterId, Writer>, echoes: map<WriterId, set<Waiter>>, streams: map<StreamId, Stream>,
    bumpedAt: map<nat, nat>, published: set<nat>)

  const INITIAL := System([], 0, {}, {}, 0, map[], map[], map[], map[], {})

  datatype Step =
    | Commit(w: WriterId, event: Event)
    | Bump(w: WriterId)                     // publish: the locked section
    | Notify(w: WriterId, x: Waiter)        // publish: schedule one event.set
    | Return(w: WriterId)
    | Echo(w: WriterId)                     // publish after a replayed create: the locked section
    | EchoNotify(w: WriterId, x: Waiter)
    | EchoReturn(w: WriterId)
    | Open(s: StreamId, start: nat)
    | ReadGeneration(s: StreamId)
    | ReadEvents(s: StreamId)
    | Wait(s: StreamId)                     // wait: the locked section
    | Wake(s: StreamId)
    | Expire(s: StreamId)                   // timeout of the wait
    | Leave(s: StreamId)                    // wait: the finally section
    | Stop(s: StreamId)                     // deadline, batch bound or no executor

  predicate Closed(log: seq<Event>) {
    log != [] && log[|log| - 1].terminal
  }

  /** A reader sleeping on a waiter nobody has woken. */
  predicate SoundAsleep(sys: System, s: StreamId) {
    s in sys.streams && sys.streams[s].position.Asleep? && sys.streams[s].position.waiter !in sys.woken
  }

  function Move(sys: System, s: StreamId, position: Position): System
    requires s in sys.streams
  {
    sys.(streams := sys.streams[s := sys.streams[s].(position := position)])
  }

  /** One step; None when it is not enabled. */
  function Apply(sys: System, step: Step): Option<System> {
    match step
    case Commit(w, event) =>
      if w in sys.writers || Closed(sys.log) then None
      else Some(sys.(log := sys.log + [event], writers := sys.writers[w := Committed(|sys.log|)]))
    case Bump(w) =>
      if w !in sys.writers || !sys.writers[w].Committed? then None
      else
        var index := sys.writers[w].index;
        Some(sys.(version := sys.version + 1, bumpedAt := sys.bumpedAt[index := sys.version + 1],
                  writers := sys.writers[w := Notifying(index, sys.waiters)]))
    case Notify(w, x) =>
      if w !in sys.writers || !sys.writers[w].Notifying? || x !in sys.writers[w].targets then None
      else
        var writer := sys.writers[w];
        Some(sys.(woken := sys.woken + {x}, writers := sys.writers[w := writer.(targets := writer.targets - {x})]))
    case Return(w) =>
      if w !in sys.writers || !sys.writers[w].Notifying? || sys.writers[w].targets != {} then None
      else Some(sys.(writers := sys.writers - {w}, published := sys.published + {sys.writers[w].index}))
    case Echo(w) =>
      if w in sys.echoes || sys.log == [] then None
      else Some(sys.(version := sys.version + 1, echoes := sys.echoes[w := sys.waiters]))
    case EchoNotify(w, x) =>
      if w !in sys.echoes || x !in sys.echoes[w] then None
      else Some(sys.(woken := sys.woken + {x}, echoes := sys.echoes[w := sys.echoes[w] - {x}]))
    case EchoReturn(w) =>
      if w !in sys.echoes || sys.echoes[w] != {} then None else Some(sys.(echoes := sys.echoes - {w}))
    case Open(s, start) =>
      if s in sys.streams then None
      else Some(sys.(streams := sys.streams[s := Stream(start, start, [], AtGeneration)]))
    case ReadGeneration(s) =>
      if s !in sys.streams || !sys.streams[s].position.AtGeneration? then None
        else Some(Move(sys, s, AtEvents(sys.version)))
    case ReadEvents(s) =>
      if s !in sys.streams || !sys.streams[s].position.AtEvents? then None
      else
        var stream := sys.streams[s];
        if sys.log == [] || stream.cursor > |sys.log| then Some(Move(sys, s, Finished(false))) // not found, bad cursor
        else
          var batch := sys.log[stream.cursor..];
          var position := if Closed(sys.log) then Finished(true) else AtWait(stream.position.generation);
          Some(sys.(streams := sys.streams[s := Stream(stream.start, |sys.log|, stream.yielded + [batch], position)]))
    case Wait(s) =>
      if s !in sys.streams || !sys.streams[s].position.AtWait? then None
      else if sys.version != sys.streams[s].position.generation then Some(Move(sys, s, AtGeneration))
      else
        var x := sys.nextWaiter;
        Some(Move(sys.(waiters := sys.waiters + {x}, nextWaiter := x + 1), s,
                  Asleep(sys.streams[s].position.generation, x)))
    case Wake(s) =>
      if s !in sys.streams || !(sys.streams[s].position.Asleep? && sys.streams[s].position.waiter in sys.woken)
        then None
      else Some(Move(sys, s, Leaving(sys.streams[s].position.waiter, true)))
    case Expire(s) =>
      if s !in sys.streams || !sys.streams[s].position.Asleep? then None
      else Some(Move(sys, s, Leaving(sys.streams[s].position.waiter, false)))
    case Leave(s) =>
      if s !in sys.streams || !sys.streams[s].position.Leaving? then None
      else
        var position := sys.streams[s].position;
        Some(Move(sys.(waiters := sys.waiters - {position.waiter}), s,
                  if position.changed then AtGeneration else Finished(false)))
    case Stop(s) =>
      if s !in sys.streams || !(sys.streams[s].position.AtGeneration? || sys.streams[s].position.AtWait?) then None
        else Some(Move(sys, s, Finished(false)))
  }

  // ---------------------------------------------------------------------
  // Invariant
  // ---------------------------------------------------------------------

  function Flatten(batches: seq<seq<Event>>): seq<Event> {
    if batches == [] then [] else Flatten(batches[..|batches| - 1]) + batches[|batches| - 1]
  }

  /** The batches yielded so far are exactly the events between the start and the cursor. */
  ghost predicate YieldedExactly(stream: Stream, log: seq<Event>) {
    || (stream.yielded == [] && stream.cursor == stream.start)
    || (stream.start <= stream.cursor <= |log| && Flatten(stream.yielded) == log[stream.start..stream.cursor])
  }

  /** Every event whose publish bumped the version up to `generation` is before the cursor. */
  ghost predicate SeenUpTo(cursor: nat, generation: nat, bumpedAt: map<nat, nat>) {
    forall i :: i in bumpedAt && bumpedAt[i] <= generation ==> i < cursor
  }

  /** Every event published after `generation` has a writer that will still wake `x`. */
  ghost predicate WakeOnItsWay(x: Waiter, generation: nat, bumpedAt: map<nat, nat>, writers: map<WriterId, Writer>) {
    forall i :: i in bumpedAt && bumpedAt[i] > generation ==>
      exists w :: w in writers && writers[w].Notifying? && writers[w].index == i && x in writers[w].targets
  }

  ghost predicate StreamOk(sys: System, stream: Stream) {
    && YieldedExactly(stream, sys.log)
    && match stream.position
       case AtGeneration => true
       case AtEvents(generation) => generation <= sys.version
       case AtWait(generation) => generation <= sys.version && SeenUpTo(stream.cursor, generation, sys.bumpedAt)
       case Asleep(generation, x) =>
         && generation <= sys.version && SeenUpTo(stream.cursor, generation, sys.bumpedAt)
         && x in sys.waiters
         && (x in sys.woken || WakeOnItsWay(x, generation, sys.bumpedAt, sys.writers))
       case Leaving(_, _) => true
       case Finished(terminal) => terminal ==> Closed(sys.log) && stream.cursor == |sys.log|
  }

  /** The bookkeeping of versions, writers and waiters. */
  ghost predicate WritersOk(sys: System) {
    && (forall i :: i in sys.bumpedAt ==> i < |sys.log| && sys.bumpedAt[i] <= sys.version)
    && (forall i :: i in sys.published ==> i in sys.bumpedAt)
    && (forall w :: w in sys.writers ==>
          && sys.writers[w].index < |sys.log| && sys.writers[w].index !in sys.published
          && (sys.writers[w].Notifying? <==> sys.writers[w].index in sys.bumpedAt))
    && (forall v, w :: v in sys.writers && w in sys.writers && v != w ==> sys.writers[v].index != sys.writers[w].index)
    && (forall x :: x in sys.waiters + sys.woken ==> x < sys.nextWaiter)
    && (forall w, x :: w in sys.echoes && x in sys.echoes[w] ==> x < sys.nextWaiter)
    && (forall w, x ::
       w in sys.writers && sys.writers[w].Notifying? && x in sys.writers[w].targets ==> x < sys.nextWaiter)
  }

  /** Every committed event was published or has a writer under way. */
  ghost predicate Accounted(sys: System) {
    forall i :: 0 <= i < |sys.log| ==> i in sys.published || exists w :: w in sys.writers && sys.writers[w].index == i
  }

  /** Two sleeping or leaving readers never share a waiter. */
  ghost predicate OwnWaiters(sys: System) {
    && (forall s ::
       s in sys.streams && HasWaiter(sys.streams[s].position) ==> sys.streams[s].position.waiter < sys.nextWaiter)
    && (forall r, s ::
          (r in sys.streams && s in sys.streams && r != s
           && HasWaiter(sys.streams[r].position) && HasWaiter(sys.streams[s].position)) ==>
            sys.streams[r].position.waiter != sys.streams[s].position.waiter)
  }

  predicate HasWaiter(p: Position) {
    p.Asleep? || p.Leaving?
  }

  ghost predicate Inv(sys: System) {
    && WritersOk(sys)
    && Accounted(sys)
    && OwnWaiters(sys)
    && (forall s :: s in sys.streams ==> StreamOk(sys, sys.streams[s]))
  }

  // ---------------------------------------------------------------------
  // Every step keeps the invariant
  // ---------------------------------------------------------------------

  lemma WriterStepKeepsAccount(sys: System, step: Step)
    requires Accounted(sys) && WriterStep(step)
    requires Apply(sys, step).Some?
    ensures Accounted(Apply(sys, step).value)
  {
    var sys' := Apply(sys, step).value;
    forall i | 0 <= i < |sys'.log|
      ensures i in sys'.published || exists w :: w in sys'.writers && sys'.writers[w].index == i
    {
      if i == |sys.log| {
        assert sys'.writers[step.w].index == i;
      } else if i !in sys.published {
        var w :| w in sys.writers && sys.writers[w].index == i;
        assert w in sys'.writers ==> sys'.writers[w].index == i;
      }
    }
  }

  lemma CommitKeepsWriters(sys: System, step: Step)
    requires WritersOk(sys) && step.Commit? && Apply(sys, step).Some?
    ensures WritersOk(Apply(sys, step).value)
  {
  }

  lemma BumpKeepsWriters(sys: System, step: Step)
    requires WritersOk(sys) && step.Bump? && Apply(sys, step).Some?
    ensures WritersOk(Apply(sys, step).value)
  {
  }

  lemma NotifyKeepsWriters(sys: System, step: Step)
    requires WritersOk(sys) && step.Notify? && Apply(sys, step).Some?
    ensures WritersOk(Apply(sys, step).value)
  {
  }

  lemma ReturnKeepsWriters(sys: System, step: Step)
    requires WritersOk(sys) && step.Return? && Apply(sys, step).Some?
    ensures WritersOk(Apply(sys, step).value)
  {
  }

  lemma CommitKeepsStream(sys: System, step: Step, stream: Stream)
    requires WritersOk(sys) && StreamOk(sys, stream) && step.Commit? && Apply(sys, step).Some?
    ensures StreamOk(Apply(sys, step).value, stream)
  {
    var sys' := Apply(sys, step).value;
    assert stream.start <= stream.cursor <= |sys.log| ==>
      sys'.log[stream.start..stream.cursor] == sys.log[stream.start..stream.cursor];
    if stream.position.Asleep? && stream.position.waiter !in sys.woken {
      KeepWake(stream.position.waiter, stream.position.generation, sys, sys');
    }
  }

  /** A wake-up stays on its way while its writer keeps the target. */
  lemma KeepWake(x: Waiter, generation: nat, sys: System, sys': System)
    requires WakeOnItsWay(x, generation, sys.bumpedAt, sys.writers)
    requires sys'.bumpedAt == sys.bumpedAt
    requires forall w :: w in sys.writers && sys.writers[w].Notifying? && x in sys.writers[w].targets ==>
               w in sys'.writers && sys'.writers[w].Notifying? && sys'.writers[w].index == sys.writers[w].index
               && x in sys'.writers[w].targets
    ensures WakeOnItsWay(x, generation, sys'.bumpedAt, sys'.writers)
  {
    forall i | i in sys'.bumpedAt && sys'.bumpedAt[i] > generation
      ensures exists w ::
        w in sys'.writers && sys'.writers[w].Notifying? && sys'.writers[w].index == i && x in sys'.writers[w].targets
    {
      var w :| w in sys.writers && sys.writers[w].Notifying? && sys.writers[w].index == i
        && x in sys.writers[w].targets;
      assert w in sys'.writers;
    }
  }

  /** The bump finds every sleeping waiter: the new version is above its generation, and
      the snapshot contains it. */
  lemma BumpKeepsStream(sys: System, step: Step, stream: Stream)
    requires WritersOk(sys) && StreamOk(sys, stream) && step.Bump? && Apply(sys, step).Some?
    ensures StreamOk(Apply(sys, step).value, stream)
  {
    var sys' := Apply(sys, step).value;
    var index := sys.writers[step.w].index;
    if stream.position.Asleep? && stream.position.waiter !in sys.woken {
      var x, generation := stream.position.waiter, stream.position.generation;
      forall i | i in sys'.bumpedAt && sys'.bumpedAt[i] > generation
        ensures exists w ::
          w in sys'.writers && sys'.writers[w].Notifying? && sys'.writers[w].index == i && x in sys'.writers[w].targets
      {
        if i == index {
          assert sys'.writers[step.w] == Notifying(index, sys.waiters);
        } else {
          var w :| w in sys.writers && sys.writers[w].Notifying? && sys.writers[w].index == i
            && x in sys.writers[w].targets;
          assert w != step.w && sys'.writers[w] == sys.writers[w];
        }
      }
    }
  }

  lemma NotifyOrReturnKeepsStream(sys: System, step: Step, stream: Stream)
    requires WritersOk(sys) && StreamOk(sys, stream) && (step.Notify? || step.Return?) && Apply(sys, step).Some?
    ensures StreamOk(Apply(sys, step).value, stream)
  {
    var sys' := Apply(sys, step).value;
    if stream.position.Asleep? && stream.position.waiter !in sys'.woken {
      KeepWake(stream.position.waiter, stream.position.generation, sys, sys');
    }
  }

  lemma WriterStepKeepsInv(sys: System, step: Step)
    requires Inv(sys) && WriterStep(step) && Apply(sys, step).Some?
    ensures Inv(Apply(sys, step).value)
  {
    hide StreamOk; hide WritersOk; hide Accounted;
    WriterStepKeepsAccount(sys, step);
    var sys' := Apply(sys, step).value;
    assert sys'.streams == sys.streams && OwnWaiters(sys');
    hide Apply; hide OwnWaiters;
    match step
    case Commit(_, _) =>
      CommitKeepsWriters(sys, step);
      forall s | s in sys.streams
        ensures StreamOk(sys', sys.streams[s])
      {
        CommitKeepsStream(sys, step, sys.streams[s]);
      }
    case Bump(_) =>
      BumpKeepsWriters(sys, step);
      forall s | s in sys.streams ensures StreamOk(sys', sys.streams[s]) { BumpKeepsStream(sys, step, sys.streams[s]); }
    case Notify(_, _) =>
      NotifyKeepsWriters(sys, step);
      forall s | s in sys.streams
        ensures StreamOk(sys', sys.streams[s])
      {
        NotifyOrReturnKeepsStream(sys, step, sys.streams[s]);
      }
    case Return(_) =>
      ReturnKeepsWriters(sys, step);
      forall s | s in sys.streams
        ensures StreamOk(sys', sys.streams[s])
      {
        NotifyOrReturnKeepsStream(sys, step, sys.streams[s]);
      }
  }

  /** A reader's step leaves the other readers as they are. */
  lemma OtherStream(sys: System, sys': System, stream: Stream, x: Waiter)
    requires StreamOk(sys, stream) && (HasWaiter(stream.position) ==> stream.position.waiter != x)
    requires sys'.log == sys.log && sys'.version == sys.version && sys'.bumpedAt == sys.bumpedAt
    requires sys'.writers == sys.writers && sys'.woken == sys.woken && sys.waiters - {x} <= sys'.waiters
    ensures StreamOk(sys', stream)
  {
  }

  lemma StartOk(sys: System, start: nat)
    ensures StreamOk(sys, Stream(start, start, [], AtGeneration))
  {
  }

  /** One more batch carries the yielded part on to the end of the log. */
  lemma YieldOnce(stream: Stream, log: seq<Event>, position: Position)
    requires YieldedExactly(stream, log) && stream.cursor <= |log|
    ensures YieldedExactly(Stream(stream.start, |log|, stream.yielded + [log[stream.cursor..]], position), log)
  {
    var more := stream.yielded + [log[stream.cursor..]];
    assert more[..|more| - 1] == stream.yielded;
    assert Flatten(stream.yielded) == log[stream.start..stream.cursor];
    assert log[stream.start..|log|] == log[stream.start..stream.cursor] + log[stream.cursor..];
  }

  /** Reading the events after the generation sees everything published up to it. */
  lemma ReadKeepsStream(sys: System, s: StreamId)
    requires WritersOk(sys) && s in sys.streams && StreamOk(sys, sys.streams[s])
    requires Apply(sys, ReadEvents(s)).Some?
    ensures StreamOk(Apply(sys, ReadEvents(s)).value, Apply(sys, ReadEvents(s)).value.streams[s])
  {
    hide Flatten;
    var stream := sys.streams[s];
    if sys.log != [] && stream.cursor <= |sys.log| {
      YieldOnce(stream, sys.log, Apply(sys, ReadEvents(s)).value.streams[s].position);
    }
  }

  /** A publish without an event moves the version on and wakes waiters, nothing else. */
  lemma EchoKeepsStream(sys: System, step: Step, stream: Stream)
    requires WritersOk(sys) && StreamOk(sys, stream) && EchoStep(step) && Apply(sys, step).Some?
    ensures StreamOk(Apply(sys, step).value, stream)
  {
  }

  lemma EchoFrame(sys: System, step: Step)
    requires EchoStep(step) && Apply(sys, step).Some?
    ensures var sys' := Apply(sys, step).value;
            && sys'.log == sys.log && sys'.writers == sys.writers && sys'.bumpedAt == sys.bumpedAt
            && sys'.published == sys.published && sys'.waiters == sys.waiters && sys'.nextWaiter == sys.nextWaiter
            && sys'.streams == sys.streams
            && sys.version <= sys'.version
            && (forall x :: x in sys'.woken ==>
                  x in sys.woken || exists w :: w in sys.echoes && x in sys.echoes[w])
            && (forall w, x :: w in sys'.echoes && x in sys'.echoes[w] ==>
                  x in sys.waiters || (w in sys.echoes && x in sys.echoes[w]))
  {
  }

  lemma EchoKeepsWriters(sys: System, step: Step)
    requires WritersOk(sys) && Accounted(sys) && OwnWaiters(sys) && EchoStep(step) && Apply(sys, step).Some?
    ensures WritersOk(Apply(sys, step).value) && Accounted(Apply(sys, step).value) && OwnWaiters(Apply(sys, step).value)
  {
    hide Apply;
    EchoFrame(sys, step);
    var sys' := Apply(sys, step).value;
    forall x | x in sys'.woken ensures x < sys'.nextWaiter {
      if x in sys.woken {
        assert x in sys.waiters + sys.woken;
      } else {
        var w :| w in sys.echoes && x in sys.echoes[w];
      }
    }
    forall w, x | w in sys'.echoes && x in sys'.echoes[w] ensures x < sys'.nextWaiter {
      assert x in sys.waiters ==> x in sys.waiters + sys.woken;
    }
    forall x | x in sys'.waiters ensures x < sys'.nextWaiter {
      assert x in sys.waiters + sys.woken;
    }
  }

  lemma EchoStepKeepsInv(sys: System, step: Step)
    requires Inv(sys) && EchoStep(step) && Apply(sys, step).Some?
    ensures Inv(Apply(sys, step).value)
  {
    hide StreamOk; hide WritersOk; hide Accounted; hide OwnWaiters;
    EchoKeepsWriters(sys, step);
    forall s | s in sys.streams ensures StreamOk(Apply(sys, step).value, sys.streams[s]) {
      EchoKeepsStream(sys, step, sys.streams[s]);
    }
  }

  lemma ReaderStepKeepsOwn(sys: System, step: Step)
    requires Inv(sys) && Apply(sys, step).Some? && ReaderStep(step)
    ensures StreamOk(Apply(sys, step).value, Apply(sys, step).value.streams[step.s])
  {
    hide OwnWaiters;
    if step.ReadEvents? {
      ReadKeepsStream(sys, step.s);
    } else if step.Open? {
      StartOk(Apply(sys, step).value, step.start);
    } else {
      assert StreamOk(sys, sys.streams[step.s]);
    }
  }

  predicate WriterStep(step: Step) {
    step.Commit? || step.Bump? || step.Notify? || step.Return?
  }

  predicate EchoStep(step: Step) {
    step.Echo? || step.EchoNotify? || step.EchoReturn?
  }

  predicate ReaderStep(step: Step) {
    !WriterStep(step) && !EchoStep(step)
  }

  /** What no reader step touches. */
  ghost predicate SameWriters(sys: System, sys': System) {
    && sys'.log == sys.log && sys'.writers == sys.writers && sys'.bumpedAt == sys.bumpedAt
    && sys'.published == sys.published && sys'.version == sys.version && sys'.woken == sys.woken
    && sys'.echoes == sys.echoes
  }

  lemma ReaderStepFrame(sys: System, step: Step)
    requires ReaderStep(step) && Apply(sys, step).Some?
    ensures var sys' := Apply(sys, step).value;
            && SameWriters(sys, sys') && sys.nextWaiter <= sys'.nextWaiter
            && (forall x :: x in sys'.waiters ==> x in sys.waiters || x == sys.nextWaiter < sys'.nextWaiter)
  {
  }

  lemma SameWritersOk(sys: System, sys': System)
    requires WritersOk(sys) && SameWriters(sys, sys') && sys.nextWaiter <= sys'.nextWaiter
    requires forall x :: x in sys'.waiters ==> x in sys.waiters || x == sys.nextWaiter < sys'.nextWaiter
    ensures WritersOk(sys')
  {
  }

  lemma ReaderStepKeepsWriters(sys: System, step: Step)
    requires WritersOk(sys) && Accounted(sys) && ReaderStep(step) && Apply(sys, step).Some?
    ensures WritersOk(Apply(sys, step).value) && Accounted(Apply(sys, step).value)
  {
    hide WritersOk; hide Apply;
    ReaderStepFrame(sys, step);
    SameWritersOk(sys, Apply(sys, step).value);
  }

  /** A reader step moves its own stream only; a waiter it then has is its old one or a new one. */
  lemma ReaderStepMoves(sys: System, step: Step)
    requires ReaderStep(step) && Apply(sys, step).Some?
    ensures var sys' := Apply(sys, step).value;
            && step.s in sys'.streams && sys'.streams == sys.streams[step.s := sys'.streams[step.s]]
            && sys.nextWaiter <= sys'.nextWaiter
            && (HasWaiter(sys'.streams[step.s].position) ==>
                  var x := sys'.streams[step.s].position.waiter;
                  || x == sys.nextWaiter < sys'.nextWaiter
                  || (step.s in sys.streams && HasWaiter(sys.streams[step.s].position)
                      && x == sys.streams[step.s].position.waiter))
  {
  }

  lemma ReaderStepKeepsWaiters(sys: System, step: Step)
    requires OwnWaiters(sys) && ReaderStep(step) && Apply(sys, step).Some?
    ensures OwnWaiters(Apply(sys, step).value)
  {
    hide Apply; hide HasWaiter;
    ReaderStepMoves(sys, step);
  }

  lemma ReaderStepKeepsInv(sys: System, step: Step)
    requires Inv(sys) && ReaderStep(step) && Apply(sys, step).Some?
    ensures Inv(Apply(sys, step).value)
  {
    hide StreamOk; hide WritersOk; hide Accounted;
    var sys' := Apply(sys, step).value;
    ReaderStepKeepsOwn(sys, step);
    ReaderStepKeepsWriters(sys, step);
    ReaderStepKeepsWaiters(sys, step);
    var x := if step.Leave? then sys.streams[step.s].position.waiter else sys.nextWaiter;
    forall r | r in sys'.streams && r != step.s ensures StreamOk(sys', sys'.streams[r]) {
      OtherStream(sys, sys', sys.streams[r], x);
    }
  }

  lemma StepKeepsInv(sys: System, step: Step)
    requires Inv(sys) && Apply(sys, step).Some?
    ensures Inv(Apply(sys, step).value)
  {
    if WriterStep(step) {
      WriterStepKeepsInv(sys, step);
    } else if EchoStep(step) {
      EchoStepKeepsInv(sys, step);
    } else {
      ReaderStepKeepsInv(sys, step);
    }
  }

  // ---------------------------------------------------------------------
  // Runs
  // ---------------------------------------------------------------------

  /** The state after an interleaving; None when some step was not enabled. */
  function Run(steps: seq<Step>): Option<System> {
    if steps == [] then Some(INITIAL)
    else
      match Run(steps[..|steps| - 1])
      case None => None
      case Some(sys) => Apply(sys, steps[|steps| - 1])
  }

  lemma {:induction false} RunInv(steps: seq<Step>)
    requires Run(steps).Some?
    ensures Inv(Run(steps).value)
  {
    if steps != [] {
      RunInv(steps[..|steps| - 1]);
      StepKeepsInv(Run(steps[..|steps| - 1]).value, steps[|steps| - 1]);
    }
  }

  /** No missed wake-up: over every interleaving, a reader asleep on a waiter that nobody has
      woken has already yielded every event whose publish returned. */
  lemma NoMissedWakeUp(steps: seq<Step>, s: StreamId, i: nat)
    requires Run(steps).Some?
    requires var sys := Run(steps).value;
             && SoundAsleep(sys, s)
             && i in sys.published
    ensures i < Run(steps).value.streams[s].cursor
  {
    RunInv(steps);
    var sys := Run(steps).value;
    assert StreamOk(sys, sys.streams[s]);
  }

  /** When no writer is under way, such a reader has yielded the whole log. */
  lemma QuietReaderIsUpToDate(steps: seq<Step>, s: StreamId)
    requires Run(steps).Some?
    requires var sys := Run(steps).value;
             SoundAsleep(sys, s) && sys.writers == map[]
    ensures var sys := Run(steps).value; sys.streams[s].cursor >= |sys.log|
  {
    RunInv(steps);
    var sys := Run(steps).value;
    if sys.streams[s].cursor < |sys.log| {
      NoMissedWakeUp(steps, s, sys.streams[s].cursor);
    }
  }

  /** The batches a reader yielded concatenate to exactly the events after its starting
      cursor: no gap, no repeat; and a reader that ended on a terminal batch has them all. */
  lemma YieldedIsContiguous(steps: seq<Step>, s: StreamId)
    requires Run(steps).Some? && s in Run(steps).value.streams
    ensures var sys := Run(steps).value;
            var stream := sys.streams[s];
            && (stream.yielded != [] ==>
                  stream.start <= stream.cursor <= |sys.log|
                    && Flatten(stream.yielded) == sys.log[stream.start..stream.cursor])
            && (stream.position == Finished(true) ==> stream.cursor == |sys.log| && Closed(sys.log))
  {
    RunInv(steps);
    var sys := Run(steps).value;
    assert StreamOk(sys, sys.streams[s]);
  }
}
