/**
 The bounded coordinator of client/service.py: it claims pending executions, batch by batch,
 until its capacity is used or nothing more can be claimed.
 */
module Coordinator {
  import opened Common
  import opened Timestamp
  import opened TaskLog
  import opened Listing
  import opened MemoryRepository
  import Recovery

  ghost function PendingIds(m: Memory, owner: string, now: Utc): set<Uuid>
    requires Linked(m)
  {
    set id | id in m.tasks && m.tasks[id].state.Accepted? && Claimable(m.executions[id], owner, now)
  }

  /** `m` is `m0` with exactly the tasks of `S` claimed and nothing else changed. */
  ghost predicate ClaimedFrom(m0: Memory, m: Memory, S: set<Uuid>, owner: string, lease: Utc)
    requires Linked(m0) && Linked(m)
  {
    && m.tasks == m0.tasks && m.events == m0.events && m.idempotency == m0.idempotency
    && (forall id :: id in m0.tasks ==>
          m.executions[id] == if id in S then Execution(Claimed, Some(owner), Some(lease)) else m0.executions[id])
  }

  /** A full listing names exactly the pending tasks, a cut-off one some of them. */
  lemma ListedPending(m: Memory, owner: string, now: Utc, all: seq<Task>, limit: nat)
    requires Inv(m) && IsListing(all, PendingTasks(m, owner, now), CreatedBefore)
    ensures var batch := Take(all, limit);
            && Recovery.Ids(batch) <= PendingIds(m, owner, now)
            && (forall i :: 0 <= i < |batch| ==> batch[i].taskId in m.tasks && m.tasks[batch[i].taskId] == batch[i])
            && (forall i, j :: 0 <= i < j < |batch| ==> batch[i].taskId != batch[j].taskId)
            && |Recovery.Ids(batch)| == |batch| <= limit
            && (|batch| < limit ==> Recovery.Ids(batch) == PendingIds(m, owner, now))
  {
    hide CreatedBefore; hide IsFold; hide ExpiredForeign;
    var pending := PendingIds(m, owner, now);
    forall i | 0 <= i < |all| ensures all[i].taskId in pending && m.tasks[all[i].taskId] == all[i] {
      assert all[i] in PendingTasks(m, owner, now);
      var id :| id in m.tasks && m.tasks[id].state.Accepted? && Claimable(m.executions[id], owner, now)
        && m.tasks[id] == all[i];
      assert Entry(id, m.tasks[id], m.events[id], m.executions[id]);
    }
    forall id | id in pending ensures id in Recovery.Ids(all) {
      assert m.tasks[id] in PendingTasks(m, owner, now);
      assert m.tasks[id] in all;
      var i :| 0 <= i < |all| && all[i] == m.tasks[id];
      assert Entry(id, m.tasks[id], m.events[id], m.executions[id]);
    }
    assert Recovery.Ids(all) == pending;
    forall i, j | 0 <= i < j < |all| ensures all[i].taskId != all[j].taskId {
      SelectionsHaveDistinctIds(m, owner, now);
      CreationOrder(PendingTasks(m, owner, now));
      assert CreatedBefore(all[i], all[j]) && all[i] in PendingTasks(m, owner, now);
    }
    Recovery.IdsSize(Take(all, limit));
  }

  /** Claiming a pending task succeeds and takes exactly that task off the pending ones. */
  lemma ClaimOne(m0: Memory, m: Memory, S: set<Uuid>, id: Uuid, owner: string, now: Utc, lease: Utc)
    requires Linked(m0) && Inv(m) && ClaimedFrom(m0, m, S, owner, lease) && ValidClaim(owner, now, lease)
    requires id in PendingIds(m, owner, now)
    ensures var (m', r) := Claim(m, m.tasks[id].scope, id, owner, now, lease);
            && r == Ok(true) && Linked(m') && ClaimedFrom(m0, m', S + {id}, owner, lease)
            && PendingIds(m', owner, now) == PendingIds(m, owner, now) - {id}
  {
    hide IsFold; hide Micros;
    assert Entry(id, m.tasks[id], m.events[id], m.executions[id]);
  }

  /** The inner loop: claims every listed task that is not active already. */
  method ClaimListed(repo: InMemoryTaskRepository, tasks: seq<Task>, active: set<Uuid>, owner: string, now: Utc,
        lease: Utc)
    returns (claimed: set<Uuid>)
    requires repo.Valid() && ValidClaim(owner, now, lease)
    requires Recovery.Ids(tasks) <= PendingIds(repo.State(), owner, now)
    requires forall i :: 0 <= i < |tasks| ==> tasks[i].taskId in repo.tasks && repo.tasks[tasks[i].taskId] == tasks[i]
    requires forall i, j :: 0 <= i < j < |tasks| ==> tasks[i].taskId != tasks[j].taskId
    modifies repo
    ensures repo.Valid() && claimed == Recovery.Ids(tasks) - active
    ensures ClaimedFrom(old(repo.State()), repo.State(), claimed, owner, lease)
    ensures PendingIds(repo.State(), owner, now) == old(PendingIds(repo.State(), owner, now)) - claimed
  {
    hide ClaimedFrom; hide PendingIds; hide Entry; hide Recovery.Ids; hide Claim; hide ValidClaim;
    ghost var m0 := repo.State();
    NothingClaimed(m0, owner, lease);
    claimed := {};
    Recovery.NoIds(tasks);
    var i := 0;
    while i < |tasks|
      invariant 0 <= i <= |tasks|
      invariant repo.Valid() && claimed == Recovery.Ids(tasks[..i]) - active
      invariant ClaimedFrom(m0, repo.State(), claimed, owner, lease)
      invariant PendingIds(repo.State(), owner, now) == PendingIds(m0, owner, now) - claimed
    {
      var id := tasks[i].taskId;
      Recovery.IdsStep(tasks, i);
      SameTasks(m0, repo.State(), claimed, owner, lease);
      if id !in active {
        ClaimOne(m0, repo.State(), claimed, id, owner, now, lease);
        var granted := repo.ClaimExecution(tasks[i].scope, id, owner, now, lease);
        claimed := claimed + {id};
      }
      i := i + 1;
    }
    assert tasks[..i] == tasks;
  }

  lemma NothingClaimed(m: Memory, owner: string, lease: Utc)
    requires Linked(m)
    ensures ClaimedFrom(m, m, {}, owner, lease)
  {
  }

  lemma SameTasks(m0: Memory, m: Memory, S: set<Uuid>, owner: string, lease: Utc)
    requires Linked(m0) && Linked(m) && ClaimedFrom(m0, m, S, owner, lease)
    ensures m.tasks == m0.tasks
  {
  }

  lemma ClaimedTwice(m0: Memory, m1: Memory, m2: Memory, S: set<Uuid>, T: set<Uuid>, owner: string, lease: Utc)
    requires Linked(m0) && Linked(m1) && Linked(m2)
    requires ClaimedFrom(m0, m1, S, owner, lease) && ClaimedFrom(m1, m2, T, owner, lease)
    ensures ClaimedFrom(m0, m2, S + T, owner, lease)
  {
  }

  lemma DisjointSize(a: set<Uuid>, b: set<Uuid>)
    requires a !! b
    ensures |a + b| == |a| + |b|
  {
  }

  /** One round of the loop: lists up to `limit` pending tasks and claims those not active. */
  method ClaimRound(repo: InMemoryTaskRepository, busy: set<Uuid>, owner: string, now: Utc, lease: Utc, limit: nat)
    returns (claimed: set<Uuid>)
    requires repo.Valid() && ValidClaim(owner, now, lease) && 1 <= limit <= 256
    modifies repo
    ensures repo.Valid() && claimed !! busy && |claimed| <= limit
    ensures claimed <= old(PendingIds(repo.State(), owner, now))
    ensures ClaimedFrom(old(repo.State()), repo.State(), claimed, owner, lease)
    ensures PendingIds(repo.State(), owner, now) == old(PendingIds(repo.State(), owner, now)) - claimed
    ensures claimed == {} && busy !! old(PendingIds(repo.State(), owner, now)) ==>
      old(PendingIds(repo.State(), owner, now)) == {}
  {
    hide ClaimedFrom; hide PendingIds; hide Entry; hide PendingTasks; hide CreatedBefore; hide Recovery.Ids;
    hide Linked; hide Micros;
    ghost var m := repo.State();
    var listed := repo.PendingExecutions(owner, now, limit);
    var tasks := listed.value;
    ghost var all :| IsListing(all, PendingTasks(m, owner, now), CreatedBefore) && tasks == Take(all, limit);
    ListedPending(m, owner, now, all, limit);
    claimed := ClaimListed(repo, tasks, busy, owner, now, lease);
    NewlyClaimed(Recovery.Ids(tasks), busy, claimed, PendingIds(m, owner, now), limit);
  }

  /** _fill_execution_capacity at a fixed clock. It never exceeds the capacity, starts exactly the
      tasks it claimed, and stops only when the capacity is used or every listed candidate is
      active already; if none of the tasks active before was pending, a coordinator with room
      left has claimed everything there was. */
  method FillCapacity(repo: InMemoryTaskRepository, active: set<Uuid>, owner: string, now: Utc, lease: Utc,
        capacity: nat, batch: nat)
    returns (started: set<Uuid>)
    requires repo.Valid() && ValidClaim(owner, now, lease)
    requires 1 <= batch <= 256 && |active| <= capacity // WorkbenchAsyncPolicy
    modifies repo
    ensures repo.Valid() && started !! active && |active + started| <= capacity
    ensures started <= old(PendingIds(repo.State(), owner, now))
    ensures ClaimedFrom(old(repo.State()), repo.State(), started, owner, lease)
    ensures PendingIds(repo.State(), owner, now) == old(PendingIds(repo.State(), owner, now)) - started
    ensures active !! old(PendingIds(repo.State(), owner, now)) ==>
              |active + started| == capacity || PendingIds(repo.State(), owner, now) == {}
  {
    hide ClaimedFrom; hide PendingIds; hide Entry; hide Linked; hide ValidClaim;
    ghost var m0 := repo.State();
    ghost var pending := PendingIds(m0, owner, now);
    NothingClaimed(m0, owner, lease);
    started := {};
    var busy := active;
    while |busy| < capacity
      invariant repo.Valid() && busy == active + started && started !! active && |busy| <= capacity
        && started <= pending
      invariant ClaimedFrom(m0, repo.State(), started, owner, lease)
      invariant PendingIds(repo.State(), owner, now) == pending - started
      decreases capacity - |busy|
    {
      ghost var m := repo.State();
      var available := capacity - |busy|;
      var claimed := ClaimRound(repo, busy, owner, now, lease, if available < batch then available else batch);
      ClaimedTwice(m0, m, repo.State(), started, claimed, owner, lease);
      RoundSets(active, started, claimed, pending);
      if claimed == {} {
        assert started + claimed == started;
        return;
      }
      NonEmpty(claimed);
      started := started + claimed;
      busy := busy + claimed;
    }
  }

  lemma RoundSets(active: set<Uuid>, started: set<Uuid>, claimed: set<Uuid>, pending: set<Uuid>)
    requires started !! active && started <= pending && claimed !! active + started && claimed <= pending - started
    ensures started + claimed !! active && started + claimed <= pending
    ensures active + started + claimed == active + (started + claimed)
    ensures |active + started + claimed| == |active + started| + |claimed|
    ensures pending - started - claimed == pending - (started + claimed)
    ensures active !! pending ==> active + started !! pending - started
  {
  }

  lemma NonEmpty(s: set<Uuid>)
    requires s != {}
    ensures |s| >= 1
  {
  }

  /** What one round claimed: not more than listed, nothing busy, and nothing only if all of the listed were busy. */
  lemma NewlyClaimed(listed: set<Uuid>, busy: set<Uuid>, claimed: set<Uuid>, pending: set<Uuid>, limit: nat)
    requires listed <= pending && claimed == listed - busy && |listed| <= limit
    requires 1 <= limit && (|listed| < limit ==> listed == pending)
    ensures claimed <= pending && claimed !! busy && |claimed| <= limit
    ensures claimed == {} && busy !! pending ==> pending == {}
  {
    SubsetSize(claimed, listed);
    if claimed == {} && busy !! pending {
      assert listed == {};
    }
  }

  lemma {:induction false} SubsetSize(a: set<Uuid>, b: set<Uuid>)
    requires a <= b
    ensures |a| <= |b|
  {
    assert b == a + (b - a);
    DisjointSize(a, b - a);
  }
}
