/**
 Several processes of client/service.py on one task repository. Each fills its capacity from
 listings it made at its own clock value, while the others list, claim, execute, stop and
 start again between any two of its steps.
 */
module Coordinators {
  import opened Common
  import opened Timestamp
  import opened TaskLog
  import opened Listing
  import opened MemoryRepository
  import opened TaskRuns
  import Coordinator

  datatype Policy = Policy(capacity: nat, batch: nat)

  /** One pass of the fill loop: its clock value, the lease it asks for, and the listed tasks it
      has not come to yet. */
  datatype Round = Round(now: Utc, lease: Utc, left: seq<Task>)

  /** A process: the tasks it executes with the grants it holds for them, and its round. */
  datatype Node = Node(active: map<Uuid, Grant>, round: Option<Round>)

  /** The repository, the running processes by owner, and all operations so far. */
  datatype System = System(memory: Memory, nodes: map<string, Node>, history: seq<Op>)

  datatype Move =
    | Join(owner: string)
    | Fill(owner: string, now: Utc, lease: Utc, tasks: seq<Task>)
    | ClaimNext(owner: string)
    | Finish(owner: string, id: Uuid)
    | Other(op: Op)

  function Left(n: Node): seq<Task> {
    if n.round.Some? then n.round.value.left else []
  }

  function Min(a: nat, b: nat): nat {
    if a < b then a else b
  }

  ghost predicate Listed(m: Memory, owner: string, now: Utc, limit: nat, tasks: seq<Task>)
    requires Linked(m)
  {
    exists all :: IsListing(all, PendingTasks(m, owner, now), CreatedBefore) && tasks == Take(all, limit)
  }

  ghost predicate Enabled(policy: string -> Policy, s: System, move: Move)
    requires Linked(s.memory)
  {
    match move
    case Join(_) => true
    case Fill(owner, now, lease, tasks) =>
      && owner in s.nodes && Left(s.nodes[owner]) == [] && |s.nodes[owner].active| < policy(owner).capacity
      && ValidClaim(owner, now, lease)
      && Listed(s.memory, owner, now,
                Min(policy(owner).capacity - |s.nodes[owner].active|, policy(owner).batch), tasks)
    case ClaimNext(owner) => owner in s.nodes && Left(s.nodes[owner]) != []
    case Finish(owner, id) => owner in s.nodes && id in s.nodes[owner].active
    case Other(op) => Fresh(s.memory, op)
  }

  ghost function Perform(s: System, op: Op): System
    requires Linked(s.memory)
  {
    s.(memory := Step(s.memory, op).0, history := s.history + [op])
  }

  /** The claim a process makes for the next task of its listing. */
  function NextClaim(n: Node, owner: string): Op
    requires Left(n) != []
  {
    var t := Left(n)[0];
    ClaimOp(t.scope, t.taskId, owner, n.round.value.now, n.round.value.lease)
  }

  function Passed(n: Node): Node
    requires Left(n) != []
  {
    n.(round := Some(n.round.value.(left := Left(n)[1..])))
  }

  /** The process after claiming the next task of its listing. */
  ghost function AfterClaim(m: Memory, n: Node, owner: string): Node
    requires Linked(m) && Left(n) != []
  {
    var id, round := Left(n)[0].taskId, n.round.value;
    if Step(m, NextClaim(n, owner)).1 != ClaimReply(true) then Passed(n)
    else Passed(n).(active := n.active[id := Grant(owner, Micros(round.now), Micros(round.lease))])
  }

  ghost function Apply(s: System, move: Move): System
    requires Linked(s.memory)
  {
    match move
    case Join(owner) => s.(nodes := s.nodes[owner := Node(map[], None)])
    case Fill(owner, now, lease, tasks) =>
      if owner !in s.nodes then s
      else s.(nodes := s.nodes[owner := s.nodes[owner].(round := Some(Round(now, lease, tasks)))])
    case ClaimNext(owner) =>
      if owner !in s.nodes || Left(s.nodes[owner]) == [] then s
      else
        var n := s.nodes[owner];
        if Left(n)[0].taskId in n.active then s.(nodes := s.nodes[owner := Passed(n)])
        else
          Perform(s, NextClaim(n, owner)).(nodes := s.nodes[owner := AfterClaim(s.memory, n, owner)])
    case Finish(owner, id) =>
      if owner !in s.nodes then s
      else s.(nodes := s.nodes[owner := s.nodes[owner].(active := s.nodes[owner].active - {id})])
    case Other(op) => Perform(s, op)
  }

  // ---------------------------------------------------------------------
  // Capacity and leases, whatever the others do
  // ---------------------------------------------------------------------

  /** A process never exceeds its capacity, even if it gets all that is left of its listing. */
  ghost predicate WithinCapacity(p: Policy, m: Memory, n: Node, owner: string) {
    && |n.active| + |Left(n)| <= p.capacity
    && (n.round.Some? ==> ValidClaim(owner, n.round.value.now, n.round.value.lease))
    && (forall t :: t in Left(n) ==> t.taskId in m.tasks && m.tasks[t.taskId].scope == t.scope)
  }

  /** For every task it executes it holds a grant of its own. */
  ghost predicate HoldsGrants(m0: Memory, history: seq<Op>, m: Memory, n: Node, owner: string)
    requires Inv(m0) && FreshRun(m0, history)
  {
    forall id :: id in n.active ==>
      id in m.tasks && n.active[id].owner == owner && n.active[id] in Grants(m0, history, id)
  }

  ghost predicate NodeOk(m0: Memory, p: Policy, s: System, owner: string)
    requires Inv(m0) && FreshRun(m0, s.history) && owner in s.nodes
  {
    && WithinCapacity(p, s.memory, s.nodes[owner], owner)
    && HoldsGrants(m0, s.history, s.memory, s.nodes[owner], owner)
  }

  ghost predicate SystemOk(m0: Memory, policy: string -> Policy, s: System) {
    && Inv(m0) && FreshRun(m0, s.history) && s.memory == RunFrom(m0, s.history)
    && (forall owner :: owner in s.nodes ==> NodeOk(m0, policy(owner), s, owner))
  }

  lemma {:induction false} RunExtends(m: Memory, ops: seq<Op>, op: Op)
    requires Inv(m) && FreshRun(m, ops) && Fresh(RunFrom(m, ops), op)
    ensures FreshRun(m, ops + [op]) && RunFrom(m, ops + [op]) == Step(RunFrom(m, ops), op).0
    decreases |ops|
  {
    hide Entry; hide Step; hide Fresh;
    var all := ops + [op];
    if ops == [] {
      assert all == [op] && all[1..] == [];
      StepKeepsInv(m, op);
    } else {
      assert all[0] == ops[0] && all[1..] == ops[1..] + [op];
      StepKeepsInv(m, ops[0]);
      RunExtends(Step(m, ops[0]).0, ops[1..], op);
    }
  }

  lemma {:induction false} GrantsExtend(m: Memory, ops: seq<Op>, op: Op, id: Uuid)
    requires Inv(m) && FreshRun(m, ops) && Fresh(RunFrom(m, ops), op) && FreshRun(m, ops + [op])
    ensures Grants(m, ops + [op], id) == Grants(m, ops, id) + GrantedBy(RunFrom(m, ops), op, id)
    decreases |ops|
  {
    hide Entry; hide Step; hide Fresh; hide GrantedBy;
    var all := ops + [op];
    if ops == [] {
      assert all == [op] && all[1..] == [];
      StepKeepsInv(m, op);
    } else {
      assert all[0] == ops[0] && all[1..] == ops[1..] + [op];
      StepKeepsInv(m, ops[0]);
      GrantsExtend(Step(m, ops[0]).0, ops[1..], op, id);
    }
  }

  /** Tasks stay, with their scope. */
  lemma TasksStay(m: Memory, op: Op)
    requires Inv(m) && Fresh(m, op)
    ensures forall id ::
      id in m.tasks ==> id in Step(m, op).0.tasks && Step(m, op).0.tasks[id].scope == m.tasks[id].scope
  {
    hide Step; hide Fresh; hide Entry;
    forall id | id in m.tasks ensures id in Step(m, op).0.tasks && Step(m, op).0.tasks[id].scope == m.tasks[id].scope {
      StepEvolves(m, op, id);
    }
  }

  lemma GrantsStay(m0: Memory, ops: seq<Op>, op: Op, m: Memory, m': Memory, n: Node, owner: string)
    requires Inv(m0) && FreshRun(m0, ops) && Fresh(RunFrom(m0, ops), op) && FreshRun(m0, ops + [op])
    requires HoldsGrants(m0, ops, m, n, owner) && forall id :: id in m.tasks ==> id in m'.tasks
    ensures HoldsGrants(m0, ops + [op], m', n, owner)
  {
    hide Step; hide Fresh; hide FreshRun; hide RunFrom; hide Grants; hide Inv; hide GrantedBy;
    forall id | id in n.active ensures n.active[id] in Grants(m0, ops + [op], id) {
      GrantsExtend(m0, ops, op, id);
    }
  }

  /** An operation of anybody keeps what a process holds. */
  lemma PerformKeepsNode(m0: Memory, policy: string -> Policy, s: System, op: Op, owner: string)
    requires SystemOk(m0, policy, s) && Linked(s.memory) && Fresh(s.memory, op) && owner in s.nodes
    ensures FreshRun(m0, Perform(s, op).history) && NodeOk(m0, policy(owner), Perform(s, op), owner)
  {
    hide Step; hide Fresh; hide FreshRun; hide RunFrom; hide Inv; hide ValidClaim; hide SystemOk; hide HoldsGrants;
    MemoryOk(m0, policy, s);
    NodeIsOk(m0, policy, s, owner);
    RunExtends(m0, s.history, op);
    TasksStay(s.memory, op);
    GrantsStay(m0, s.history, op, s.memory, Perform(s, op).memory, s.nodes[owner], owner);
  }

  lemma PerformKeepsRun(m0: Memory, policy: string -> Policy, s: System, op: Op)
    requires SystemOk(m0, policy, s) && Linked(s.memory) && Fresh(s.memory, op)
    ensures SystemOk(m0, policy, Perform(s, op))
  {
    hide Step; hide Fresh; hide FreshRun; hide RunFrom; hide Inv; hide NodeOk; hide Linked;
    RunExtends(m0, s.history, op);
    forall owner | owner in s.nodes ensures NodeOk(m0, policy(owner), Perform(s, op), owner) {
      PerformKeepsNode(m0, policy, s, op, owner);
    }
  }

  /** Replacing one process by one that is well keeps the system. */
  lemma ReplaceKeeps(m0: Memory, policy: string -> Policy, s: System, owner: string, n: Node)
    requires SystemOk(m0, policy, s) && NodeOk(m0, policy(owner), s.(nodes := s.nodes[owner := n]), owner)
    ensures SystemOk(m0, policy, s.(nodes := s.nodes[owner := n]))
  {
    hide Inv; hide FreshRun; hide RunFrom; hide HoldsGrants; hide WithinCapacity;
  }

  /** A listing fits its limit and names stored tasks. */
  lemma ListedStored(m: Memory, owner: string, now: Utc, limit: nat, tasks: seq<Task>)
    requires Inv(m) && Listed(m, owner, now, limit, tasks)
    ensures |tasks| <= limit
    ensures forall t :: t in tasks ==> t.taskId in m.tasks && m.tasks[t.taskId].scope == t.scope
  {
    hide PendingTasks; hide CreatedBefore; hide IsListing; hide Entry; hide Coordinator.PendingIds;
    var all :| IsListing(all, PendingTasks(m, owner, now), CreatedBefore) && tasks == Take(all, limit);
    Coordinator.ListedPending(m, owner, now, all, limit);
    forall t | t in tasks ensures t.taskId in m.tasks && m.tasks[t.taskId].scope == t.scope {
      var i :| 0 <= i < |tasks| && tasks[i] == t;
    }
  }

  lemma FillKeeps(m0: Memory, policy: string -> Policy, s: System, move: Move)
    requires SystemOk(m0, policy, s) && Linked(s.memory) && move.Fill? && Enabled(policy, s, move)
    ensures SystemOk(m0, policy, Apply(s, move))
  {
    hide FreshRun; hide RunFrom; hide Grants; hide ValidClaim; hide Inv; hide SystemOk; hide Listed; hide Linked;
    var owner, n := move.owner, s.nodes[move.owner];
    MemoryOk(m0, policy, s);
    NodeIsOk(m0, policy, s, owner);
    ListedStored(s.memory, owner, move.now, Min(policy(owner).capacity - |n.active|, policy(owner).batch), move.tasks);
    ReplaceKeeps(m0, policy, s, owner, n.(round := Some(Round(move.now, move.lease, move.tasks))));
  }

  lemma MemoryOk(m0: Memory, policy: string -> Policy, s: System)
    requires SystemOk(m0, policy, s)
    ensures Inv(m0) && FreshRun(m0, s.history) && s.memory == RunFrom(m0, s.history)
    ensures Inv(s.memory) && Linked(s.memory)
  {
    hide Entry; hide FreshRun; hide NodeOk;
  }

  lemma NodeIsOk(m0: Memory, policy: string -> Policy, s: System, owner: string)
    requires SystemOk(m0, policy, s) && owner in s.nodes
    ensures Inv(m0) && FreshRun(m0, s.history) && NodeOk(m0, policy(owner), s, owner)
  {
    hide Inv; hide FreshRun; hide RunFrom; hide NodeOk;
  }

  /** A granted claim adds a grant; a refused one only moves on. */
  lemma ClaimedOk(m0: Memory, p: Policy, ops: seq<Op>, m: Memory, m': Memory, n: Node, owner: string)
    requires Inv(m0) && FreshRun(m0, ops) && m == RunFrom(m0, ops) && Left(n) != [] && Linked(m)
    requires Fresh(m, NextClaim(n, owner)) && FreshRun(m0, ops + [NextClaim(n, owner)])
    requires Left(n)[0].taskId in m'.tasks && Left(n)[0].taskId !in n.active
    requires WithinCapacity(p, m', n, owner) && HoldsGrants(m0, ops + [NextClaim(n, owner)], m', n, owner)
    ensures WithinCapacity(p, m', AfterClaim(m, n, owner), owner)
    ensures HoldsGrants(m0, ops + [NextClaim(n, owner)], m', AfterClaim(m, n, owner), owner)
  {
    hide Step; hide Fresh; hide FreshRun; hide RunFrom; hide Grants; hide Inv; hide Linked; hide WithinCapacity;
    hide HoldsGrants;
    var id, op, round := Left(n)[0].taskId, NextClaim(n, owner), n.round.value;
    PassedOk(m0, p, ops + [op], m', n, owner);
    if Step(m, op).1 == ClaimReply(true) {
      var g := Grant(owner, Micros(round.now), Micros(round.lease));
      GrantsExtend(m0, ops, op, id);
      assert GrantedBy(m, op, id) == [g];
      GrantAdded(m0, p, ops + [op], m', n, owner, id, g);
    }
  }

  lemma GrantAdded(m0: Memory, p: Policy, ops: seq<Op>, m: Memory, n: Node, owner: string, id: Uuid, g: Grant)
    requires Inv(m0) && FreshRun(m0, ops) && Left(n) != [] && id in m.tasks && id !in n.active
    requires WithinCapacity(p, m, n, owner) && HoldsGrants(m0, ops, m, n, owner)
    requires g.owner == owner && g in Grants(m0, ops, id)
    ensures WithinCapacity(p, m, Passed(n).(active := n.active[id := g]), owner)
    ensures HoldsGrants(m0, ops, m, Passed(n).(active := n.active[id := g]), owner)
  {
    hide FreshRun; hide Grants; hide Inv; hide WithinCapacity;
    OneMoreFits(p, m, n, owner, id, g);
  }

  lemma OneMoreFits(p: Policy, m: Memory, n: Node, owner: string, id: Uuid, g: Grant)
    requires Left(n) != [] && id !in n.active && WithinCapacity(p, m, n, owner)
    ensures WithinCapacity(p, m, Passed(n).(active := n.active[id := g]), owner)
  {
    hide ValidClaim;
    assert |n.active[id := g]| == |n.active| + 1 by { assert n.active[id := g].Keys == n.active.Keys + {id}; }
    var left := Left(n)[1..];
    assert forall t :: t in left ==> t in Left(n);
  }

  lemma ClaimKeeps(m0: Memory, policy: string -> Policy, s: System, owner: string)
    requires SystemOk(m0, policy, s) && Linked(s.memory) && Enabled(policy, s, ClaimNext(owner))
    ensures SystemOk(m0, policy, Apply(s, ClaimNext(owner)))
  {
    hide FreshRun; hide RunFrom; hide Inv; hide SystemOk; hide Step; hide AfterClaim; hide HoldsGrants; hide Linked;
    hide ValidClaim;
    MemoryOk(m0, policy, s);
    NodeIsOk(m0, policy, s, owner);
    var n := s.nodes[owner];
    if Left(n)[0].taskId in n.active {
      PassedOk(m0, policy(owner), s.history, s.memory, n, owner);
      ReplaceKeeps(m0, policy, s, owner, Passed(n));
    } else {
      var op := NextClaim(n, owner);
      assert Fresh(s.memory, op);
      hide Fresh;
      PerformKeepsRun(m0, policy, s, op);
      var p := Perform(s, op);
      MemoryOk(m0, policy, p);
      NodeIsOk(m0, policy, p, owner);
      ClaimedOk(m0, policy(owner), s.history, s.memory, p.memory, n, owner);
      ReplaceKeeps(m0, policy, p, owner, AfterClaim(s.memory, n, owner));
    }
  }

  lemma PassedOk(m0: Memory, p: Policy, ops: seq<Op>, m: Memory, n: Node, owner: string)
    requires Inv(m0) && FreshRun(m0, ops) && Left(n) != []
    requires WithinCapacity(p, m, n, owner) && HoldsGrants(m0, ops, m, n, owner)
    ensures WithinCapacity(p, m, Passed(n), owner) && HoldsGrants(m0, ops, m, Passed(n), owner)
  {
    hide Inv; hide FreshRun; hide Grants; hide ValidClaim;
  }

  lemma FinishedOk(m0: Memory, p: Policy, ops: seq<Op>, m: Memory, n: Node, owner: string, id: Uuid)
    requires Inv(m0) && FreshRun(m0, ops) && id in n.active
    requires WithinCapacity(p, m, n, owner) && HoldsGrants(m0, ops, m, n, owner)
    ensures WithinCapacity(p, m, n.(active := n.active - {id}), owner)
    ensures HoldsGrants(m0, ops, m, n.(active := n.active - {id}), owner)
  {
    hide Inv; hide FreshRun; hide Grants; hide ValidClaim;
    assert n.active.Keys == (n.active - {id}).Keys + {id};
  }

  lemma MoveKeeps(m0: Memory, policy: string -> Policy, s: System, move: Move)
    requires SystemOk(m0, policy, s) && Linked(s.memory) && Enabled(policy, s, move)
    ensures SystemOk(m0, policy, Apply(s, move))
  {
    hide FreshRun; hide RunFrom; hide Inv; hide SystemOk; hide Step; hide Fresh; hide Listed; hide Linked;
    hide ValidClaim; hide AfterClaim;
    MemoryOk(m0, policy, s);
    match move
    case Join(owner) => ReplaceKeeps(m0, policy, s, owner, Node(map[], None));
    case Fill(_, _, _, _) => FillKeeps(m0, policy, s, move);
    case ClaimNext(owner) => ClaimKeeps(m0, policy, s, owner);
    case Finish(owner, id) =>
      NodeIsOk(m0, policy, s, owner);
      var n := s.nodes[owner];
      FinishedOk(m0, policy(owner), s.history, s.memory, n, owner, id);
      ReplaceKeeps(m0, policy, s, owner, n.(active := n.active - {id}));
    case Other(op) => PerformKeepsRun(m0, policy, s, op);
  }

  ghost predicate EnabledRun(m0: Memory, policy: string -> Policy, s: System, moves: seq<Move>)
    requires SystemOk(m0, policy, s)
    decreases |moves|
  {
    moves == [] ||
    (MemoryOk(m0, policy, s);
     Enabled(policy, s, moves[0]) &&
     (MoveKeeps(m0, policy, s, moves[0]); EnabledRun(m0, policy, Apply(s, moves[0]), moves[1..])))
  }

  ghost function RunMoves(m0: Memory, policy: string -> Policy, s: System, moves: seq<Move>): (s': System)
    requires SystemOk(m0, policy, s) && EnabledRun(m0, policy, s, moves)
    ensures SystemOk(m0, policy, s')
    decreases |moves|
  {
    if moves == [] then s
    else
      MemoryOk(m0, policy, s);
      MoveKeeps(m0, policy, s, moves[0]);
      RunMoves(m0, policy, Apply(s, moves[0]), moves[1..])
  }

  function Begin(m0: Memory): System {
    System(m0, map[], [])
  }

  lemma BeginOk(m0: Memory, policy: string -> Policy)
    requires Inv(m0)
    ensures SystemOk(m0, policy, Begin(m0)) && Sole(Begin(m0)) && Linked(m0) && Shown(Begin(m0))
  {
    hide Entry;
  }

  /** Two grants whose validity intervals do not overlap. */
  ghost predicate Apart(g: Grant, h: Grant) {
    g.until <= h.from || h.until <= g.from
  }

  /** Whatever content they start on and however they interleave, at any clock values: no process
      executes more tasks than its capacity allows, each only under a claim granted to itself,
      and if two of them execute one task their leases do not overlap. */
  lemma LeasesShareTasks(m0: Memory, policy: string -> Policy, moves: seq<Move>, a: string, b: string, id: Uuid)
    requires Inv(m0) && SystemOk(m0, policy, Begin(m0)) && EnabledRun(m0, policy, Begin(m0), moves)
    ensures var s := RunMoves(m0, policy, Begin(m0), moves);
            && (a in s.nodes ==> |s.nodes[a].active| <= policy(a).capacity)
            && (a in s.nodes && id in s.nodes[a].active ==>
                  && FreshRun(m0, s.history) && s.nodes[a].active[id].owner == a
                  && s.nodes[a].active[id] in Grants(m0, s.history, id))
            && (a in s.nodes && b in s.nodes && a != b && id in s.nodes[a].active && id in s.nodes[b].active ==>
                  Apart(s.nodes[a].active[id], s.nodes[b].active[id]))
  {
    hide RunMoves; hide EnabledRun; hide SystemOk; hide FreshRun; hide Grants; hide Inv; hide ValidClaim; hide Apart;
    var s := RunMoves(m0, policy, Begin(m0), moves);
    if a in s.nodes {
      NodeIsOk(m0, policy, s, a);
      if b in s.nodes && a != b && id in s.nodes[a].active && id in s.nodes[b].active {
        NodeIsOk(m0, policy, s, b);
        LeaseExclusion(m0, s.history, id);
        GrantsApart(Grants(m0, s.history, id), s.nodes[a].active[id], s.nodes[b].active[id]);
      }
    }
  }

  lemma GrantsApart(gs: seq<Grant>, g: Grant, h: Grant)
    requires Exclusive(gs) && g in gs && h in gs && g != h
    ensures Apart(g, h)
  {
    var i :| 0 <= i < |gs| && gs[i] == g;
    var j :| 0 <= j < |gs| && gs[j] == h;
  }

  // ---------------------------------------------------------------------
  // When one task is executed twice at a time
  // ---------------------------------------------------------------------

  /** No task is executed by two processes. */
  ghost predicate Sole(s: System) {
    forall a, b, id :: a in s.nodes && b in s.nodes && id in s.nodes[a].active && id in s.nodes[b].active ==> a == b
  }

  /** The record names the process and the end of its grant. */
  predicate Shows(e: Execution, owner: string, g: Grant) {
    e.status.Claimed? && e.owner == Some(owner) && e.lease.Some? && Micros(e.lease.value) == g.until
  }

  /** As long as an executed task is ACCEPTED, its record shows the executing process. */
  ghost predicate Shown(s: System)
    requires Linked(s.memory)
  {
    forall a, id ::
      a in s.nodes && id in s.nodes[a].active && id in s.memory.tasks && s.memory.tasks[id].state.Accepted? ==>
      Shows(s.memory.executions[id], a, s.nodes[a].active[id])
  }

  /** The next task of `b`'s listing is executed by `a` under a lease that has run out at `b`'s
      clock value, and `a` has not yet moved it out of ACCEPTED. */
  ghost predicate LateAt(s: System, a: string, b: string) {
    && a in s.nodes && b in s.nodes && a != b && Left(s.nodes[b]) != []
    && var id := Left(s.nodes[b])[0].taskId;
       && id in s.nodes[a].active && id in s.memory.tasks && s.memory.tasks[id].state.Accepted?
       && s.nodes[a].active[id].until <= Micros(s.nodes[b].round.value.now)
  }

  ghost predicate Late(s: System, b: string) {
    exists a :: LateAt(s, a, b)
  }

  /** When a listed task is granted. */
  lemma GrantedIff(policy: string -> Policy, m: Memory, n: Node, owner: string)
    requires Linked(m) && Left(n) != [] && WithinCapacity(policy(owner), m, n, owner)
    ensures var id := Left(n)[0].taskId;
            && id in m.tasks
            && (Step(m, NextClaim(n, owner)).1 == ClaimReply(true) <==>
                  m.tasks[id].state.Accepted? && Claimable(m.executions[id], owner, n.round.value.now))
            && Step(m, NextClaim(n, owner)).0.tasks == m.tasks
            && Step(m, NextClaim(n, owner)).0.executions ==
               (if Step(m, NextClaim(n, owner)).1 == ClaimReply(true)
                then m.executions[id := Execution(Claimed, Some(owner), Some(n.round.value.lease))] else m.executions)
  {
    hide Claimable; hide ValidClaim;
    assert Left(n)[0] in Left(n);
  }

  lemma LateIsDoubled(m0: Memory, policy: string -> Policy, s: System, a: string, b: string)
    requires SystemOk(m0, policy, s) && Linked(s.memory) && Sole(s) && Shown(s) && LateAt(s, a, b)
    ensures !Sole(Apply(s, ClaimNext(b)))
  {
    hide SystemOk; hide Step; hide Inv; hide FreshRun; hide HoldsGrants; hide Micros; hide Linked;
    NodeIsOk(m0, policy, s, b);
    var n := s.nodes[b];
    var id := Left(n)[0].taskId;
    GrantedIff(policy, s.memory, n, b);
    var s' := Apply(s, ClaimNext(b));
    assert id in s'.nodes[a].active && id in s'.nodes[b].active;
  }

  lemma TimelyIsSole(m0: Memory, policy: string -> Policy, s: System, b: string)
    requires SystemOk(m0, policy, s) && Linked(s.memory) && Sole(s) && Shown(s)
    requires Enabled(policy, s, ClaimNext(b)) && !Late(s, b)
    ensures var s' := Apply(s, ClaimNext(b)); Sole(s') && Linked(s'.memory) && Shown(s')
  {
    hide SystemOk; hide Step; hide Inv; hide FreshRun; hide HoldsGrants; hide Micros; hide Sole; hide Apply;
    hide WithinCapacity;
    MoveKeeps(m0, policy, s, ClaimNext(b));
    MemoryOk(m0, policy, Apply(s, ClaimNext(b)));
    NodeIsOk(m0, policy, s, b);
    var n := s.nodes[b];
    var id := Left(n)[0].taskId;
    GrantedIff(policy, s.memory, n, b);
    if Step(s.memory, NextClaim(n, b)).1 == ClaimReply(true) {
      forall a | a in s.nodes && a != b ensures id !in s.nodes[a].active {
        assert !LateAt(s, a, b);
      }
    }
    ClaimKeepsSole(policy, s, b);
  }

  /** A claim on a task nobody else executes. */
  lemma ClaimKeepsSole(policy: string -> Policy, s: System, b: string)
    requires Linked(s.memory) && Sole(s) && Shown(s) && b in s.nodes && Left(s.nodes[b]) != []
    requires WithinCapacity(policy(b), s.memory, s.nodes[b], b)
    requires Step(s.memory, NextClaim(s.nodes[b], b)).1 == ClaimReply(true) ==>
               forall a :: a in s.nodes && a != b ==> Left(s.nodes[b])[0].taskId !in s.nodes[a].active
    ensures var s' := Apply(s, ClaimNext(b)); Sole(s') && (Linked(s'.memory) ==> Shown(s'))
  {
    hide Step; hide WithinCapacity; hide Micros; hide Claimable;
    GrantedIff(policy, s.memory, s.nodes[b], b);
  }

  /** A claim makes two processes execute one task exactly when the other one is late: its lease
      has run out and it has not moved the task out of ACCEPTED. */
  lemma ClaimDoublesIff(m0: Memory, policy: string -> Policy, s: System, b: string)
    requires SystemOk(m0, policy, s) && Linked(s.memory) && Sole(s) && Shown(s) && Enabled(policy, s, ClaimNext(b))
    ensures Sole(Apply(s, ClaimNext(b))) <==> !Late(s, b)
  {
    hide SystemOk; hide Sole; hide Shown; hide Apply; hide LateAt; hide Linked;
    if Late(s, b) {
      var a :| LateAt(s, a, b);
      LateIsDoubled(m0, policy, s, a, b);
    } else {
      TimelyIsSole(m0, policy, s, b);
    }
  }

  /** Claims are made by the processes alone. */
  predicate NoOtherClaims(moves: seq<Move>) {
    forall i :: 0 <= i < |moves| && moves[i].Other? ==> !moves[i].op.ClaimOp?
  }

  /** No claim of the run finds another executor late. */
  ghost predicate TimelyRun(m0: Memory, policy: string -> Policy, s: System, moves: seq<Move>)
    requires SystemOk(m0, policy, s) && EnabledRun(m0, policy, s, moves)
    decreases |moves|
  {
    moves == [] ||
    (MemoryOk(m0, policy, s);
     MoveKeeps(m0, policy, s, moves[0]);
     (moves[0].ClaimNext? ==> !Late(s, moves[0].owner)) && TimelyRun(m0, policy, Apply(s, moves[0]), moves[1..]))
  }

  /** At no moment of the run is a task executed by two processes. */
  ghost predicate SoleThroughout(m0: Memory, policy: string -> Policy, s: System, moves: seq<Move>)
    requires SystemOk(m0, policy, s) && EnabledRun(m0, policy, s, moves)
    decreases |moves|
  {
    Sole(s) &&
    (moves == [] ||
     (MemoryOk(m0, policy, s);
      MoveKeeps(m0, policy, s, moves[0]);
      SoleThroughout(m0, policy, Apply(s, moves[0]), moves[1..])))
  }

  /** Operations that claim nothing leave the record of an ACCEPTED task alone. */
  lemma OtherKeepsShown(m0: Memory, policy: string -> Policy, s: System, op: Op)
    requires SystemOk(m0, policy, s) && Linked(s.memory) && Shown(s) && Fresh(s.memory, op) && !op.ClaimOp?
    ensures Linked(Perform(s, op).memory) && Shown(Perform(s, op))
  {
    hide SystemOk; hide Step; hide Fresh; hide FreshRun; hide Inv;
    MemoryOk(m0, policy, s);
    PerformKeepsRun(m0, policy, s, op);
    MemoryOk(m0, policy, Perform(s, op));
    forall a, id | a in s.nodes && id in s.nodes[a].active
      ensures id in s.memory.tasks
    {
      NodeIsOk(m0, policy, s, a);
    }
    forall id | id in s.memory.tasks
      ensures var m' := Step(s.memory, op).0;
              id in m'.tasks && (m'.tasks[id].state.Accepted? ==>
                s.memory.tasks[id].state.Accepted? && m'.executions[id] == s.memory.executions[id])
    {
      NoGrantKeepsLease(s.memory, op, id);
      StepEvolves(s.memory, op, id);
    }
  }

  /** One move keeps tasks apart, unless it is a claim that finds the other executor late. */
  lemma MoveSoleIff(m0: Memory, policy: string -> Policy, s: System, move: Move)
    requires SystemOk(m0, policy, s) && Linked(s.memory) && Sole(s) && Shown(s)
    requires Enabled(policy, s, move) && (move.Other? ==> !move.op.ClaimOp?)
    ensures Sole(Apply(s, move)) <==> (move.ClaimNext? ==> !Late(s, move.owner))
    ensures Sole(Apply(s, move)) ==> Linked(Apply(s, move).memory) && Shown(Apply(s, move))
  {
    hide SystemOk; hide Step; hide Fresh; hide Listed; hide Late; hide AfterClaim; hide ValidClaim;
    match move
    case ClaimNext(b) =>
      ClaimDoublesIff(m0, policy, s, b);
      if !Late(s, b) {
        TimelyIsSole(m0, policy, s, b);
      }
    case Other(op) => OtherKeepsShown(m0, policy, s, op);
    case _ =>
  }

  /** Over every run of the processes: no task is ever executed by two of them exactly when every
      executor moves its task out of ACCEPTED before its lease runs out at the clock of whoever
      claims next. */
  lemma {:induction false} SoleIffTimely(m0: Memory, policy: string -> Policy, s: System, moves: seq<Move>)
    requires SystemOk(m0, policy, s) && Linked(s.memory) && Sole(s) && Shown(s) && NoOtherClaims(moves)
    requires EnabledRun(m0, policy, s, moves)
    ensures SoleThroughout(m0, policy, s, moves) <==> TimelyRun(m0, policy, s, moves)
    decreases |moves|
  {
    hide SystemOk; hide Sole; hide Shown; hide Apply; hide Late; hide Enabled; hide Linked;
    if moves != [] {
      MemoryOk(m0, policy, s);
      MoveKeeps(m0, policy, s, moves[0]);
      MoveSoleIff(m0, policy, s, moves[0]);
      var s' := Apply(s, moves[0]);
      if Sole(s') {
        SoleIffTimely(m0, policy, s', moves[1..]);
      } else {
        assert !SoleThroughout(m0, policy, s', moves[1..]);
      }
    }
  }

  /** A run that begins with two moves. */
  lemma TwoMoves(m0: Memory, policy: string -> Policy, s: System, x: Move, y: Move, rest: seq<Move>)
    requires SystemOk(m0, policy, s) && Linked(s.memory) && Enabled(policy, s, x)
    requires var s' := Apply(s, x); SystemOk(m0, policy, s') && Linked(s'.memory) && Enabled(policy, s', y)
    requires var s'' := Apply(Apply(s, x), y); SystemOk(m0, policy, s'') && EnabledRun(m0, policy, s'', rest)
    ensures EnabledRun(m0, policy, s, [x, y] + rest)
    ensures RunMoves(m0, policy, s, [x, y] + rest) == RunMoves(m0, policy, Apply(Apply(s, x), y), rest)
  {
    hide SystemOk; hide Enabled; hide Apply; hide Linked;
    var all := [x, y] + rest;
    assert all[0] == x && all[1..] == [y] + rest && ([y] + rest)[1..] == rest;
    assert EnabledRun(m0, policy, Apply(s, x), [y] + rest);
  }

  lemma NoMoves(m0: Memory, policy: string -> Policy, s: System)
    requires SystemOk(m0, policy, s)
    ensures EnabledRun(m0, policy, s, []) && RunMoves(m0, policy, s, []) == s
  {
    hide SystemOk;
  }

  /** A listing of the only task. */
  lemma OneListed(m: Memory, id: Uuid, owner: string, now: Utc, limit: nat)
    requires Linked(m) && m.tasks.Keys == {id} && m.tasks[id].state.Accepted? && limit >= 1
    requires Claimable(m.executions[id], owner, now)
    ensures Listed(m, owner, now, limit, [m.tasks[id]])
  {
    hide Claimable; hide CreatedBefore;
    var t := m.tasks[id];
    assert PendingTasks(m, owner, now) == {t};
    assert IsListing([t], PendingTasks(m, owner, now), CreatedBefore);
    assert Take([t], limit) == [t];
  }

  /** List the only task, claim it, and go on. */
  function Starting(t: Task, owner: string, now: Utc, lease: Utc, rest: seq<Move>): seq<Move> {
    [Fill(owner, now, lease, [t]), ClaimNext(owner)] + rest
  }

  function DoublingMoves(t: Task, a: string, b: string, now: Utc, lease: Utc, next: Utc): seq<Move> {
    [Join(a), Join(b)] + Starting(t, a, now, lease, Starting(t, b, lease, next, []))
  }

  /** Leases alone do not prevent it: on every repository with one new task, two processes end
      up executing it if the second comes when the lease of the first has just run out. */
  lemma DoubledReachable(m0: Memory, policy: string -> Policy, id: Uuid, a: string, b: string, now: Utc, lease: Utc,
        next: Utc)
    requires Inv(m0) && SystemOk(m0, policy, Begin(m0)) && m0.tasks.Keys == {id}
    requires m0.tasks[id].state.Accepted? && m0.executions[id].status.Pending?
    requires a != b && ValidClaim(a, now, lease) && ValidClaim(b, lease, next)
    requires 1 <= Min(policy(a).capacity, policy(a).batch) && 1 <= Min(policy(b).capacity, policy(b).batch)
    ensures var moves := DoublingMoves(m0.tasks[id], a, b, now, lease, next);
            EnabledRun(m0, policy, Begin(m0), moves) && !Sole(RunMoves(m0, policy, Begin(m0), moves))
  {
    hide SystemOk; hide EnabledRun; hide RunMoves; hide Sole; hide Listed; hide FreshRun; hide Apply; hide Enabled;
    hide Inv; hide Linked; hide ValidClaim;
    var t := m0.tasks[id];
    MemoryOk(m0, policy, Begin(m0));
    Joining(m0, policy, a, b);
    MoveKeeps(m0, policy, Begin(m0), Join(a));
    var s1 := Apply(Begin(m0), Join(a));
    MoveKeeps(m0, policy, s1, Join(b));
    var s2 := Apply(s1, Join(b));
    OneStarts(m0, policy, s2, id, a, now, lease);
    var s4 := Apply(Apply(s2, Fill(a, now, lease, [t])), ClaimNext(a));
    OneStarts(m0, policy, s4, id, b, lease, next);
    var s6 := Apply(Apply(s4, Fill(b, lease, next, [t])), ClaimNext(b));
    TwoExecute(s6, a, b, id);
    NoMoves(m0, policy, s6);
    TwoMoves(m0, policy, s4, Fill(b, lease, next, [t]), ClaimNext(b), []);
    TwoMoves(m0, policy, s2, Fill(a, now, lease, [t]), ClaimNext(a), Starting(t, b, lease, next, []));
    TwoMoves(m0, policy, Begin(m0), Join(a), Join(b), Starting(t, a, now, lease, Starting(t, b, lease, next, [])));
  }

  lemma Joining(m0: Memory, policy: string -> Policy, a: string, b: string)
    requires Linked(m0) && a != b
    ensures Enabled(policy, Begin(m0), Join(a))
    ensures var s := Apply(Begin(m0), Join(a)); Linked(s.memory) && Enabled(policy, s, Join(b))
    ensures var s := Apply(Apply(Begin(m0), Join(a)), Join(b));
            s.memory == m0 && s.nodes == map[a := Node(map[], None), b := Node(map[], None)]
  {
  }

  lemma TwoExecute(s: System, a: string, b: string, id: Uuid)
    requires a in s.nodes && b in s.nodes && id in s.nodes[a].active && id in s.nodes[b].active && a != b
    ensures !Sole(s)
  {
  }

  /** A process lists the only task and starts it. */
  lemma OneStarts(m0: Memory, policy: string -> Policy, s: System, id: Uuid, owner: string, now: Utc, lease: Utc)
    requires SystemOk(m0, policy, s) && Linked(s.memory) && s.memory.tasks.Keys == {id}
    requires s.memory.tasks[id].state.Accepted? && Claimable(s.memory.executions[id], owner, now)
    requires owner in s.nodes && s.nodes[owner] == Node(map[], None) && ValidClaim(owner, now, lease)
    requires 1 <= Min(policy(owner).capacity, policy(owner).batch)
    ensures var fill := Fill(owner, now, lease, [s.memory.tasks[id]]);
            var s1 := Apply(s, fill);
            && Enabled(policy, s, fill) && SystemOk(m0, policy, s1) && Linked(s1.memory)
            && Enabled(policy, s1, ClaimNext(owner))
            && var s2 := Apply(s1, ClaimNext(owner));
               && SystemOk(m0, policy, s2) && Linked(s2.memory) && s2.memory.tasks == s.memory.tasks
               && s2.memory.executions[id] == Execution(Claimed, Some(owner), Some(lease))
               && s2.nodes.Keys == s.nodes.Keys && id in s2.nodes[owner].active
               && (forall x :: x in s.nodes && x != owner ==> s2.nodes[x] == s.nodes[x])
  {
    hide SystemOk; hide Listed; hide FreshRun; hide Micros; hide Inv; hide Step; hide Claimable;
    OneListed(s.memory, id, owner, now, Min(policy(owner).capacity, policy(owner).batch));
    var fill := Fill(owner, now, lease, [s.memory.tasks[id]]);
    MoveKeeps(m0, policy, s, fill);
    var s1 := Apply(s, fill);
    assert Left(s1.nodes[owner]) == [s.memory.tasks[id]];
    MemoryOk(m0, policy, s1);
    NodeIsOk(m0, policy, s1, owner);
    MoveKeeps(m0, policy, s1, ClaimNext(owner));
    var s2 := Apply(s1, ClaimNext(owner));
    MemoryOk(m0, policy, s2);
    MemoryOk(m0, policy, s);
    assert s.memory.tasks[id].taskId == id by { OwnId(s.memory, id); }
    GrantedIff(policy, s.memory, s1.nodes[owner], owner);
  }

  lemma OwnId(m: Memory, id: Uuid)
    requires Inv(m) && id in m.tasks
    ensures m.tasks[id].taskId == id
  {
    hide IsFold;
    assert Entry(id, m.tasks[id], m.events[id], m.executions[id]);
  }
}
