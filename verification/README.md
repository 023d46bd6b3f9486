# Verified model of the agent platform's stateful core

This project models, in Dafny, the parts of the platform where many small checks have to add up
to something over a whole run, and proves what they add up to:

- the **workbench**: an event-logged task state machine with execution leases, kept either in
  dictionaries or in SQL tables, with bounded coordinators, crash recovery, a schema migration
  and a generation-counter wake-up protocol for event streams;
- **knowledge releases**: publications with an optimistic head per scope and corpus, an index
  that has to show exactly the head, approval checkpoints, and calls that interleave between
  their checks and their commits;
- **approvals and audit**: status as a fold over append-only hash chains;
- **context**: compression with a validation ladder that retries at lower levels, and a greedy
  assembly of what a task may see;
- three self-contained algorithms: the **parser fallback** merge, the **replacement graph**
  search of the standards catalog, and the **stored-block zlib** writer.

Each module follows one source file or one component of it. State that the source keeps in
objects is a class here, its methods are proved against functions on values, and the theorems
are about those functions. Runs are sequences of arbitrary operations with arbitrary clock
values. SHA-256 of canonical JSON is a value that stands for what it hashes, or an injective
function passed as a parameter.

Results that are not what a reader of the source would expect:

- The stored-block writer does not round-trip the empty input: it writes no final block
  (`StoredZlib.RoundTrip` is an equivalence).
- The fallback ladder of the context validator ends for every request if and only if more than
  one token fits below the C2 bound, `c2_threshold * active_context_limit > 1`
  (`FallbackLadder.LadderEndsIff`). Otherwise the retry count is forced up to one token, which is
  again a C2 or C3 pressure, and a fully protected, unscored request is retried forever.
- The parser pipeline can fail instead of going to manual review: a merge can lose every block
  and is then no document (`ParserRuns.RunCanFail`). Exactly when it does not fail is a condition
  on the three answers, taken page by page (`ParserRuns.RunOkIff`).
- A rollback whose operation identifier is already a publication identifier is accepted and
  overwrites that publication. From an empty start this makes the history fork: two publications
  name the same predecessor (`ReleaseForks.ReusedIdentifierForks`). The fork is what new
  identifiers prevent; the exact condition for one commit is `Release.RollbackKeepsHistoryIff`.
- One approval grant can stand behind two publications (`GrantReuse.GrantUsedTwice`): the commit
  checks the publication identifier and the base, not the grant. The exact condition over runs is
  `GrantReuse.UsedOnceIff`.
- An approval call reads a status and appends its event in two separate sections of a lock. When
  calls overlap, three promises of the approval service fail, each on a run from the beginning:
  an approval is resumed twice (`ApprovalRaces.ResumedTwice`), a state that was APPROVED becomes
  REJECTED (`ApprovalRaces.ApprovedThenRejected`), and a rule that asks for two roles is met by one
  person (`ApprovalRaces.OneActorApproves`). The exact conditions, over every interleaving, are
  `ApprovalRaces.OneResumeIff`, `ApprovalRaces.FinalIff` and `ApprovalRaces.ApproversIff`.
- Leases do not stop two processes from executing one task: nothing renews a lease, so a process
  whose executor is slow to write its first event loses it (`Coordinators.DoubledReachable`). The
  exact condition is `Coordinators.ClaimDoublesIff` for one claim and `Coordinators.SoleIffTimely`
  for a whole run; what always holds is `Coordinators.LeasesShareTasks`.
- The two task repositories agree exactly as long as inserted identifiers are new
  (`Refinement.AgreementNeedsFreshIds`).

Verify everything with `dafny verify dfyconfig.toml`.

## Model

| member | source | states |
|---|---|---|
| StoredZlib.StoredZlibStream | tools/generate_fixture_catalog.py:102-113 | the growing byte buffer ends as header, the stored blocks of the content, and its Adler-32 |
| StoredZlib.RoundTrip | tools/generate_fixture_catalog.py:102-113 | a decoder following section 2.2 of RFC 1950 and section 3.2.4 of RFC 1951 recovers exactly the input if and only if the input is not empty |
| StoredZlib.WrittenBlocksReadBack | tools/generate_fixture_catalog.py:105-111 | reading the written blocks, whatever bytes follow, gives back those blocks and leaves those bytes |
| StoredZlib.BlocksOfWellFormed | tools/generate_fixture_catalog.py:105-111 | every LEN is at most 65535 with NLEN its complement, and exactly the last block is final |
| StoredZlib.BlocksOfPayload | tools/generate_fixture_catalog.py:105-111 | the blocks' data concatenates to the input |
| StoredZlib.StreamShape | tools/generate_fixture_catalog.py:102-113 | the stream of a non-empty input parses into well-formed blocks that carry the input |
| StoredZlib.StreamInjective | tools/generate_fixture_catalog.py:102-113 | inputs with equal streams are equal |
| Standards.Visit | src/ndt_agents/knowledge/standards.py:172-182 | one call of the nested search finds a real cycle, or settles the node: nothing finished is on a cycle |
| Standards.HasCycle | src/ndt_agents/knowledge/standards.py:166-184 | the search ends and answers true if and only if the graph restricted to known nodes has a cycle |
| Standards.CycleMovesOn | src/ndt_agents/knowledge/standards.py:172-182 | a cycle through a node leaves it over an edge to a node on a cycle, the fact the search rests on |
| Standards.KeyForInjective | src/ndt_agents/knowledge/standards.py:110-118 | the flat dictionary key determines scope and version although the number of roles varies |
| Standards.CycleAvoidsSource | src/ndt_agents/knowledge/standards.py:166-184 | a node nothing points to adds no cycle |
| Standards.NewIdIsUnknown | src/ndt_agents/knowledge/standards.py:120-145 | with injective identifiers a new version is neither registered nor named by any registered version |
| Standards.JoinKeepsAcyclic | src/ndt_agents/knowledge/standards.py:166-184 | adding a version nobody names keeps an acyclic set acyclic |
| Standards.ExtendedScanAcyclic | src/ndt_agents/knowledge/standards.py:147-184 | every prefix scan of the catalog with the new version has an acyclic graph |
| Standards.StoreKeepsInv | src/ndt_agents/knowledge/standards.py:120-145 | storing a version whose targets resolve keeps the catalog acyclic with every edge inside one lineage |
| Standards.StandardCatalog.BuildGraph | src/ndt_agents/knowledge/standards.py:166-170 | the dictionary built from the scan and the candidate is their replacement graph |
| Standards.StandardCatalog.Register | src/ndt_agents/knowledge/standards.py:120-145 | the cycle error is unreachable; success stores exactly the version, failure stores nothing, and success has an exact condition |
| Timestamp.FieldOrderIsTimeOrder | src/ndt_agents/client/sqlite_repository.py:660-676 | comparing calendar fields in order is comparing elapsed microseconds |
| Timestamp.TextOrderIsTimeOrder | src/ndt_agents/client/sqlite_repository.py:660-676 | byte order of stored timestamps is time order although zero microseconds are omitted, where section 5.1 of RFC 3339 promises it for equal fraction widths only |
| Timestamp.TailOrder | src/ndt_agents/client/sqlite_repository.py:660-665 | the omitted fraction is harmless because '+' sorts before '.' |
| Timestamp.DigitsOrder | src/ndt_agents/client/sqlite_repository.py:660-665 | zero-padded numbers of one width sort like the numbers |
| Timestamp.ParseText | src/ndt_agents/client/sqlite_repository.py:660-676 | reading a stored timestamp gives back the instant |
| Timestamp.EpochText | src/ndt_agents/client/sqlite_repository.py:506-518 | the literal the migration writes is the text of the Unix epoch |
| TaskLog.FoldFacts | src/ndt_agents/client/service.py:221-263 | a task that is the fold of its log has sequences 1..n, nothing after a terminal event, and the state of its last event |
| TaskLog.SuccessWasReviewed | src/ndt_agents/client/service.py:221-263 | a SUCCEEDED task that needs review has a REVIEW_REQUIRED event followed at once by a REVIEW-kind RUNNING event |
| TaskLog.AppendKeepsFacts | src/ndt_agents/client/service.py:221-263 | every accepted append keeps those facts |
| TaskLog.FoldAppend | src/ndt_agents/client/service.py:376-394 | the fold goes on with every accepted append |
| TaskLog.FoldInitial | src/ndt_agents/client/service.py:184-218 | a new task is the fold of its accepting event |
| MemoryRepository.CreateKeepsInv | src/ndt_agents/client/service.py:310-350 | creation keeps every task the fold of its log and every execution record in step with it |
| MemoryRepository.AppendKeepsInv | src/ndt_agents/client/service.py:376-394 | appending keeps that invariant: execution is COMPLETED exactly when the task is terminal |
| MemoryRepository.ClaimKeepsInv | src/ndt_agents/client/service.py:396-422 | claiming keeps that invariant |
| MemoryRepository.InMemoryTaskRepository.CreateTask | src/ndt_agents/client/service.py:310-350 | the dictionaries change as the creation function says, replays and reused identifiers included, and stay valid when the identifier is new or the call a replay |
| MemoryRepository.InMemoryTaskRepository.AppendEvent | src/ndt_agents/client/service.py:376-394 | the dictionaries change as the append function says and stay valid |
| MemoryRepository.InMemoryTaskRepository.ClaimExecution | src/ndt_agents/client/service.py:396-422 | the dictionaries change as the claim function says and stay valid |
| MemoryRepository.InMemoryTaskRepository.PendingExecutions | src/ndt_agents/client/service.py:424-443 | the first `limit` of all claimable ACCEPTED tasks in creation order |
| MemoryRepository.InMemoryTaskRepository.OrphanedExecutions | src/ndt_agents/client/service.py:445-465 | the first `limit` of all begun tasks with an expired foreign lease, in update order |
| Listing.ListingUnique | src/ndt_agents/client/service.py:424-465 | a set has exactly one sorted listing |
| TaskRuns.StepKeepsInv | src/ndt_agents/client/service.py:298-465 | every operation with new identifiers keeps the repository invariant |
| TaskRuns.RunFrom | src/ndt_agents/client/service.py:298-465 | after every run each task is the fold of its log and its execution record agrees with it |
| TaskRuns.RunEvolves | src/ndt_agents/client/service.py:221-263 | over every run logs only grow, terminal tasks never change, and a task leaves ACCEPTED for good |
| TaskRuns.GrantRespectsLease | src/ndt_agents/client/service.py:396-422 | a claim is granted only on an ACCEPTED task whose previous lease, held by someone else, has expired |
| TaskRuns.LeaseExclusion | src/ndt_agents/client/service.py:396-422 | for any order of clock values the granted claims on one task have pairwise disjoint [now, expiry) intervals, neighbours have different owners, and none is granted after the task left ACCEPTED |
| Recovery.BlockListed | src/ndt_agents/client/service.py:831-841 | blocks exactly the listed orphans with one event each and changes nothing else |
| Recovery.Sweep | src/ndt_agents/client/service.py:825-843 | one sweep blocks at most a batch of orphans, and a short sweep leaves none |
| Recovery.ReconcileMoving | src/ndt_agents/client/service.py:824-854 | whatever the clock says at each sweep and event, only tasks that were orphans at a reading are blocked, each with one event, and it returns normally if and only if none is left at its last reading |
| Recovery.Reconcile | src/ndt_agents/client/service.py:824-854 | at a fixed clock, with n orphans it returns normally if and only if n <= batch * sweeps, leaving no orphan and one BLOCKED event per orphan |
| Recovery.BlockingAccepted | src/ndt_agents/client/service.py:871-895 | appending the blocking event to an orphan is never refused |
| Recovery.ListedOrphans | src/ndt_agents/client/service.py:445-465 | a listing that stays below its limit names exactly the orphans |
| Coordinator.FillCapacity | src/ndt_agents/client/service.py:764-794 | the fill loop ends, never exceeds the capacity, starts exactly what it claimed, and unless an active task is itself pending stops only with full capacity or nothing pending |
| Coordinator.ClaimListed | src/ndt_agents/client/service.py:779-792 | claims exactly the listed tasks that are not active and changes nothing else |
| Coordinator.ClaimOne | src/ndt_agents/client/service.py:396-422 | claiming a pending task succeeds and takes exactly that task off the pending ones |
| Coordinators.MoveKeeps | src/ndt_agents/client/service.py:764-819 | every step of any process, listing, claiming one task, finishing, stopping and starting again, and every other operation keeps capacities and grants |
| Coordinators.LeasesShareTasks | src/ndt_agents/client/service.py:764-819 | for any number of processes on one repository, however they interleave and whatever their clocks say, none exceeds its capacity, each executes only under a claim granted to itself, and two that execute one task hold leases that do not overlap |
| Coordinators.ClaimDoublesIff | src/ndt_agents/client/service.py:764-819 | a claim makes two processes execute one task if and only if the lease of the first has run out at the second one's clock and the task is still ACCEPTED |
| Coordinators.SoleIffTimely | src/ndt_agents/client/service.py:764-819 | over every run in which only these processes claim, no task is ever executed by two of them if and only if no claim finds another executor late |
| Coordinators.DoubledReachable | src/ndt_agents/client/service.py:764-819 | on every repository with one new task six steps lead two processes to execute it |
| SqliteRepository.SqliteTaskRepository.CreateTask | src/ndt_agents/client/sqlite_repository.py:187-256 | the tables change as the transaction function says, conflicts rolled back |
| SqliteRepository.SqliteTaskRepository.AppendEvent | src/ndt_agents/client/sqlite_repository.py:299-337 | the tables change as the transaction function says, conflicts rolled back |
| SqliteRepository.SqliteTaskRepository.ClaimExecution | src/ndt_agents/client/sqlite_repository.py:339-379 | the tables change as the transaction function says |
| Refinement.LoadMatches | src/ndt_agents/client/sqlite_repository.py:588-618 | loading a task row finds what the dictionary holds and never a corrupt row |
| Refinement.EventsSimulate | src/ndt_agents/client/sqlite_repository.py:262-297 | both repositories give the same batch or the same error for every cursor |
| Refinement.NewCreateSimulates | src/ndt_agents/client/sqlite_repository.py:187-256 | a new creation gives the same reply and keeps tables and dictionaries related |
| Refinement.ReplayedCreateSimulates | src/ndt_agents/client/sqlite_repository.py:187-256 | a replayed or conflicting creation gives the same reply and writes nothing in either |
| Refinement.AppendSimulates | src/ndt_agents/client/sqlite_repository.py:299-337 | an append with a new event identifier gives the same reply and keeps the relation |
| Refinement.LeaseFormsAgree | src/ndt_agents/client/sqlite_repository.py:357-370 | the parsed and the textual lease comparison are the dictionary's comparison |
| Refinement.ClaimSimulates | src/ndt_agents/client/sqlite_repository.py:339-379 | a claim gives the same answer and keeps the relation |
| Refinement.StepSimulates | src/ndt_agents/client/sqlite_repository.py:187-379 | every operation with new identifiers gives the same reply in both and keeps them related |
| Refinement.RunSimulates | src/ndt_agents/client/sqlite_repository.py:187-379 | over every run the tables stay related to the dictionaries and all replies are equal |
| Refinement.SqliteNeverCorrupt | src/ndt_agents/client/sqlite_repository.py:588-658 | over every run no reply is the corruption error |
| Refinement.EmptyDatabaseAgrees | src/ndt_agents/client/sqlite_repository.py:187-379 | from an empty database both repositories give the same replies over every run, none a corruption or a constraint violation |
| Refinement.AgreementNeedsFreshIds | src/ndt_agents/client/sqlite_repository.py:187-337 | one operation agrees in both repositories if and only if the identifiers it inserts are new |
| Refinement.SelectionsAgree | src/ndt_agents/client/sqlite_repository.py:381-434 | a task is pending or orphaned for the SQL conditions exactly when it is for the dictionary's |
| Refinement.ListedSelectionsAgree | src/ndt_agents/client/sqlite_repository.py:381-434 | listings have equal length and, when the limit does not cut, the same tasks, whatever their order |
| Refinement.NextExpiryAgrees | src/ndt_agents/client/sqlite_repository.py:436-454 | MIN over the stored lease texts, parsed, is the earliest foreign lease |
| Refinement.NoExpiryAgrees | src/ndt_agents/client/sqlite_repository.py:436-454 | the SQL selection is empty if and only if no execution holds a foreign lease beyond the given instant |
| Migration.MigrationEstablishesInvariant | src/ndt_agents/client/sqlite_repository.py:481-518 | migrated version 1 tables are those of a valid repository |
| Migration.MigratedOrphans | src/ndt_agents/client/sqlite_repository.py:481-518 | for every owner after 1970 the orphans of a migrated database are exactly its in-flight tasks |
| Migration.MigratedNeverReexecuted | src/ndt_agents/client/sqlite_repository.py:481-518 | over every later run no in-flight migrated task is ever claimed |
| Migration.RecoverMigrated | src/ndt_agents/client/service.py:824-854 | reconciling a migrated repository blocks exactly the in-flight tasks when the bounds allow it |
| EventSignal.StepKeepsInv | src/ndt_agents/client/service.py:541-571 | every atomic step of writers and readers, publishes without a new event included, keeps versions, waiters and wake-ups under way consistent |
| EventSignal.EchoStepKeepsInv | src/ndt_agents/client/service.py:581-598 | a publish without a new event, as after a replayed creation, keeps the same invariant |
| EventSignal.NoMissedWakeUp | src/ndt_agents/client/service.py:735-762 | over every interleaving a stream asleep on an unset waiter has already yielded every event whose publish finished |
| EventSignal.QuietReaderIsUpToDate | src/ndt_agents/client/service.py:735-762 | with no writer under way a sleeping stream has yielded the whole log |
| EventSignal.YieldedIsContiguous | src/ndt_agents/client/service.py:735-762 | the yielded batches concatenate to exactly the events after the starting cursor, no gap and no repeat |
| KnowledgeIndex.FlatKeyInjective | src/ndt_agents/knowledge/retrieval.py:204-217 | the flat key determines scope and document although the number of roles varies |
| KnowledgeIndex.PutAllLookup | src/ndt_agents/knowledge/retrieval.py:222-231 | a batch with distinct keys overwrites exactly its own keys |
| KnowledgeIndex.CheckDistinct | src/ndt_agents/knowledge/retrieval.py:225-227 | the size comparison accepts exactly the batches that name no key twice |
| KnowledgeIndex.InMemoryKnowledgeIndex.ReplaceMany | src/ndt_agents/knowledge/retrieval.py:222-231 | a batch with a repeated key changes nothing; any other is entered as a whole |
| Release.SwapDistinct | src/ndt_agents/knowledge/release.py:387-400 | the batch of a commit never names a key twice |
| Release.SameScopeSameKeys | src/ndt_agents/knowledge/release.py:1162-1168 | within one scope the snapshot key, which leaves the scope out, decides like the key of the index |
| Release.SwapShows | src/ndt_agents/knowledge/release.py:387-400 | after the batch, incoming keys show the new snapshots, remaining outgoing keys the retired ones, all others what they showed |
| Release.SwapKeepsIndex | src/ndt_agents/knowledge/release.py:387-413 | swapping one slot's snapshots keeps index and heads of every slot in agreement |
| Release.AdvanceKeepsHeads | src/ndt_agents/knowledge/release.py:401-413 | installing a publication keeps each head the only PUBLISHED publication of its slot |
| Release.AdvanceKeepsHistory | src/ndt_agents/knowledge/release.py:401-413 | installing keeps every predecessor named at most once and no longer published |
| Release.InstallKeepsInv | src/ndt_agents/knowledge/release.py:384-413 | installing a new head over the old one always succeeds and keeps the whole invariant |
| Release.PublicationKeepsInv | src/ndt_agents/knowledge/release.py:359-413 | committing a publication keeps the invariant and never meets a duplicate key or a lost head |
| Release.WithdrawalKeepsInv | src/ndt_agents/knowledge/release.py:415-449 | committing a withdrawal of the expected head keeps the invariant |
| Release.RollbackKeepsInv | src/ndt_agents/knowledge/release.py:451-495 | committing a rollback under a new identifier keeps the invariant |
| Release.RollbackKeepsPredecessorsIff | src/ndt_agents/knowledge/release.py:451-495 | a rollback that goes through leaves all recorded predecessors as they were if and only if its identifier named no publication |
| Release.RollbackKeepsHistoryIff | src/ndt_agents/knowledge/release.py:451-495 | after a rollback that goes through the history is linear if and only if its identifier is neither the head it leaves nor named as a predecessor, which no new identifier is |
| ReleaseRepository.IndexBatch | src/ndt_agents/knowledge/release.py:387-400 | the list built by the loop is the outgoing entries that are not overwritten, then the incoming ones |
| ReleaseRepository.InMemoryKnowledgeReleaseRepository.CommitPublication | src/ndt_agents/knowledge/release.py:359-413 | dictionaries and index object change as the commit function says |
| ReleaseRepository.InMemoryKnowledgeReleaseRepository.CommitWithdrawal | src/ndt_agents/knowledge/release.py:415-449 | dictionaries and index object change as the commit function says |
| ReleaseRepository.InMemoryKnowledgeReleaseRepository.CommitRollback | src/ndt_agents/knowledge/release.py:451-495 | dictionaries and index object change as the commit function says |
| ReleaseService.ResumeGrants | src/ndt_agents/approval/service.py:707-772 | resuming only adds grants, each from a checkpoint approved for exactly that content |
| ReleaseService.CommitKeepsStored | src/ndt_agents/knowledge/release.py:359-495 | no commit changes the content of a stored action or candidate or takes back a release |
| ReleaseService.CommitKeepsInv | src/ndt_agents/knowledge/release.py:359-495 | any in-flight commit keeps the invariant, changes only the old head's state, adds at most its own publication over the present head, and never meets a duplicate key |
| ReleaseService.StepKeepsInv | src/ndt_agents/knowledge/release.py:512-968 | every service step, commits prepared earlier included, keeps invariant, records, intents and authorisation |
| ReleaseRuns.RunKeepsInv | src/ndt_agents/knowledge/release.py:512-968 | every run with fresh rollback identifiers keeps the invariant, and a publication's content and predecessor never change |
| ReleaseRuns.IndexShowsHead | src/ndt_agents/knowledge/release.py:359-495 | in every reachable state the PUBLISHED index entries of a slot are exactly the head's snapshots, none without a head, and the head is the only PUBLISHED publication of the slot |
| ReleaseRuns.HistoryNeverForks | src/ndt_agents/knowledge/release.py:359-495 | in every reachable state a publication is named as predecessor by at most one other |
| ReleaseRuns.PredecessorWasHead | src/ndt_agents/knowledge/release.py:359-495 | every publication was committed by one step, over the head of that moment as its predecessor |
| ReleaseRuns.PublishedOnlyApproved | src/ndt_agents/knowledge/release.py:729-806 | every publication carries the validated content of a stored candidate that was reviewed, and its grant came from a checkpoint approved for exactly that candidate or that rollback |
| ReleaseRuns.AtomicCommit | src/ndt_agents/knowledge/release.py:380-386 | an atomically failed commit changes nothing but the switch that made it fail |
| ReleaseRuns.PrepareAgain | src/ndt_agents/knowledge/release.py:729-768 | a call that reached its commit reaches it again with the same resume identifier, grant and content |
| ReleaseRuns.RetryCommitsOnce | src/ndt_agents/knowledge/release.py:729-968 | after an atomic failure the same publish, withdraw or rollback call commits, and every further repetition answers the same and changes nothing |
| ReleaseForks.PublishRuns | src/ndt_agents/knowledge/release.py:512-806 | on every state that accepts the candidate, the calls from creation to commit install its publication as head |
| ReleaseForks.RollbackRuns | src/ndt_agents/knowledge/release.py:808-968 | on every state with a head and an older publication, the calls from request to commit install the restored publication as head |
| ReleaseForks.ReusedIdentifierForks | src/ndt_agents/knowledge/release.py:451-495 | a run from the start that rolls back under a publication identifier and ends with two publications naming one predecessor |
| GrantReuse.UsedOnceIff | src/ndt_agents/knowledge/release.py:729-806 | over every run with new rollback identifiers each grant stands behind at most one publication if and only if no commit adds a publication under a grant that another carries |
| GrantReuse.GrantUsedTwice | src/ndt_agents/knowledge/release.py:729-806 | a run from the start without rollbacks: two publishes of one candidate in flight under one resume identifier, the first withdrawn before the second commits, end with two publications behind one grant |
| ReleaseApprovals.JointStepKeepsInv | src/ndt_agents/knowledge/release.py:1017-1042 | every step of releases and approvals together keeps both invariants and every approved checkpoint APPROVED in the journal, for its scope and content |
| ReleaseApprovals.PublishedWithApprovers | src/ndt_agents/knowledge/release.py:729-806 | given a content hash without collisions, behind every publication of every joint run stands an approval in the journal for exactly that candidate or rollback and nothing else, with enough independent approvers |
| HashChain.Verify | src/ndt_agents/approval/service.py:333-359 | the loop accepts exactly the chains with contiguous numbers, matching previous hashes and true hashes |
| HashChain.AppendVerifies | src/ndt_agents/observability/audit.py:127-161 | appending keeps a chain verified |
| HashChain.LastHashIdentifies | src/ndt_agents/observability/audit.py:188-203 | two verified non-empty chains with the same last hash are equal event for event, given an injective hash |
| HashChain.AppendKeepsJournal | src/ndt_agents/approval/service.py:260-316 | appending under a new identifier keeps all chains verified and the identifier register exact |
| AuditJournal.InMemoryAuditRepository.Append | src/ndt_agents/observability/audit.py:127-161 | a repeated identifier returns the stored event or a conflict and changes nothing; a new one extends its project's chain |
| AuditJournal.InMemoryAuditRepository.VerifyProject | src/ndt_agents/observability/audit.py:185-203 | every project chain built by append verifies |
| AuditJournal.SameEndSameHistory | src/ndt_agents/observability/audit.py:188-203 | two audit journals that agree on a project's last hash hold the same events for it |
| ApprovalJournal.AppendedOk | src/ndt_agents/approval/service.py:260-316 | every append keeps all approval chains verified |
| ApprovalJournal.InMemoryApprovalRepository.Append | src/ndt_agents/approval/service.py:260-316 | a repeated identifier must repeat approval, project, type and payload; a new one extends its approval's chain |
| ApprovalJournal.InMemoryApprovalRepository.List | src/ndt_agents/approval/service.py:318-321 | the chain is returned and its verification never fails |
| ApprovalJournal.SameEndSameHistory | src/ndt_agents/approval/service.py:333-359 | two approval journals that agree on an approval's last hash hold the same events for it |
| Approval.StatusAbsorbing | src/ndt_agents/approval/service.py:839-862 | once a status has left PENDING no further event changes it |
| Approval.OneResume | src/ndt_agents/approval/service.py:707-772 | an approval has at most one RESUME event, and only while APPROVED |
| Approval.EnoughApprovers | src/ndt_agents/approval/service.py:839-862 | APPROVED under a require-all rule has at least as many different approvers as required roles, under any rule at least one, never the requester |
| Approval.LogIndependent | src/ndt_agents/approval/service.py:559-655 | everybody who approved did so once, in a required role, and is not the requester |
| Approval.EffectAllowed | src/ndt_agents/approval/service.py:378-772 | every call writes at most an event its checks allow after the present log |
| Approval.StepKeepsInv | src/ndt_agents/approval/service.py:378-837 | every call keeps the journal verified and every log one the checks allowed |
| Approval.RunAbsorbs | src/ndt_agents/approval/service.py:839-862 | over every run of calls at any clock values a status that has left PENDING stays what it is |
| Approval.ReachableApprovals | src/ndt_agents/approval/service.py:559-862 | in every reachable journal approved checkpoints have enough independent approvers and no checkpoint is resumed twice or too early |
| Approval.ApproverWasEntitled | src/ndt_agents/approval/service.py:882-906 | every recorded approval was cast by someone who then held the role directly or by a recorded delegation that was still valid |
| Approval.GrantorHeldRole | src/ndt_agents/approval/service.py:478-557 | every recorded delegation came from someone who held the role directly, was not the requester, and stayed inside the checkpoint's window |
| ApprovalRaces.OneResumeIff | src/ndt_agents/approval/service.py:707-772 | with reading and appending as separate steps, over every interleaving of calls no approval has two RESUME events if and only if no RESUME event is appended to a log that holds one |
| ApprovalRaces.ApproversIff | src/ndt_agents/approval/service.py:559-655 | over every interleaving everybody who approved did so once, in a required role and not as the requester, if and only if no approval is appended from somebody who has decided already |
| ApprovalRaces.RacingApprovers | src/ndt_agents/approval/service.py:839-862 | under that condition every approved checkpoint has enough independent approvers |
| ApprovalRaces.FinalIff | src/ndt_agents/approval/service.py:839-862 | over every interleaving a state that has left PENDING is the final state, except that APPROVED changes if and only if a decision that ends the approval is still appended |
| ApprovalRaces.MoveKeepsOk | src/ndt_agents/approval/service.py:559-772 | every reading and every append keeps each log headed by its own candidate, approvals eligible, and the log a call has read a prefix of the present one |
| ApprovalRaces.RacingResumesBothGranted | src/ndt_agents/approval/service.py:707-772 | for every approved checkpoint not yet resumed, two resume calls that read before either appends leave two RESUME events |
| ApprovalRaces.ResumedTwice | src/ndt_agents/approval/service.py:707-772 | a run from the beginning after which an approval is resumed twice |
| ApprovalRaces.ApprovedThenRejected | src/ndt_agents/approval/service.py:839-862 | a run from the beginning in which an approval is APPROVED and one append later REJECTED |
| ApprovalRaces.OneActorApproves | src/ndt_agents/approval/service.py:559-655 | a run from the beginning after which a rule that asks for two roles is met by one person |
| Compression.GroupEvents | src/ndt_agents/context/compression.py:225-233 | the dictionary holds each group in order and the key list the order of first events |
| Compression.Deduplicate | src/ndt_agents/context/compression.py:225-233 | one raw item for each group, in order of first events |
| Compression.LosslessC1 | src/ndt_agents/context/compression.py:236-272 | the second pass emits each group once, at its first event, as reference or raw item |
| Compression.GroupsConserve | src/ndt_agents/context/compression.py:225-233 | grouping loses and repeats no event and no token |
| Compression.ItemsConserve | src/ndt_agents/context/compression.py:225-283 | deduplication and C1 keep every event exactly once and never cost more tokens |
| Compression.SplitConserves | src/ndt_agents/context/compression.py:88-112 | retained and eligible events are a partition of the raw events |
| Compression.Compress | src/ndt_agents/context/compression.py:59-147 | the pipeline answers as the compression function says, error cases included |
| Compression.CompressionConserves | src/ndt_agents/context/compression.py:59-147 | at every level each raw event is in the items exactly once, output tokens never exceed input tokens, strictly fewer after a semantic step, and the result passes the binding check |
| Compression.SourcesUnique | src/ndt_agents/context/compression.py:319-347 | no item repeats a source and no two items share one |
| Compression.DeduplicatedVerbatim | src/ndt_agents/context/compression.py:225-283 | deduplication keeps every event's own content under its identifier, C1 at least the protected ones |
| Compression.ProtectedSurvive | src/ndt_agents/context/compression.py:59-147 | at every level protected events survive with their own content, at C2 also the most recent turns |
| ContextValidation.MissingIsExcess | src/ndt_agents/context/validation.py:213-227 | for every pair exactly the excess of demand over supply goes missing, whatever the order |
| ContextValidation.NothingMissingIff | src/ndt_agents/context/validation.py:213-227 | nothing is missing if and only if every pair is supplied as often as it is demanded |
| ContextValidation.Evaluate | src/ndt_agents/context/validation.py:199-275 | the counting loop computes the retention report |
| ContextValidation.KeptSupply | src/ndt_agents/context/validation.py:207-227 | items that keep their events one by one supply everything demanded |
| ContextValidation.LosslessAccepted | src/ndt_agents/context/validation.py:199-243 | if unprotected contents are pairwise distinct every C0 or C1 compression is accepted |
| FallbackLadder.ExactC2Iff | src/ndt_agents/context/validation.py:321-341 | the C2 retry runs at C2 if and only if a whole token count lies in the lower half of its range or one token does |
| FallbackLadder.ExactC1Iff | src/ndt_agents/context/validation.py:321-341 | the C1 retry runs at C1 if and only if a whole token count lies in the lower half of its range or one token does |
| FallbackLadder.WideRangesAreExact | src/ndt_agents/context/validation.py:321-341 | ranges two tokens wide make both retries exact |
| FallbackLadder.RetryDescends | src/ndt_agents/context/validation.py:321-341 | with more than one token below the C2 bound every retry lands strictly lower |
| FallbackLadder.RetryStuck | src/ndt_agents/context/validation.py:321-341 | otherwise no retry leaves C2 and C3 |
| FallbackLadder.RetryBinds | src/ndt_agents/context/validation.py:163-170 | the compressor's answer to a retry always passes the binding check |
| FallbackLadder.LadderStops | src/ndt_agents/context/validation.py:122-170 | with more than one token below the C2 bound the loop ends after at most two retries |
| FallbackLadder.LadderEndsIff | src/ndt_agents/context/validation.py:122-170 | the loop ends for every request if and only if more than one token fits below the C2 bound |
| FallbackLadder.WitnessSpins | src/ndt_agents/context/validation.py:122-170 | otherwise one protected, unscored event in a request the contracts accept keeps the loop running forever |
| FallbackLadder.RetriesAreExact | src/ndt_agents/context/validation.py:122-170 | with ranges two tokens wide each retry is compressed at exactly the requested level, at most twice |
| FallbackLadder.NeverExhausted | src/ndt_agents/context/validation.py:122-170 | with distinct unprotected contents a genuine candidate never exhausts the ladder |
| FallbackLadder.Turn | src/ndt_agents/context/validation.py:134-170 | one pass through the loop body is one step of the ladder |
| FallbackLadder.RunTurns | src/ndt_agents/context/validation.py:122-170 | for every policy and limit the first n passes are the first n steps of the ladder |
| FallbackLadder.ValidateOrFallback | src/ndt_agents/context/validation.py:122-170 | on the policies and limits where the loop always ends, it returns what three turns of the ladder give |
| FallbackLadder.Refusal | src/ndt_agents/context/validation.py:172-196 | counting the items' sources decides the binding check |
| Assembly.MergeGroup | src/ndt_agents/context/assembly.py:240-270 | the entry has the group's maxima and all its sources in identifier order, whatever order the group came in |
| Assembly.EntriesUnique | src/ndt_agents/context/assembly.py:178-181 | a set of eligible candidates has exactly one set of entries |
| Assembly.AheadOrders | src/ndt_agents/context/assembly.py:182-192 | the sort key orders entries with different hashes strictly and totally |
| Assembly.SelectEntries | src/ndt_agents/context/assembly.py:145-238 | filtering, grouping, sorting and the greedy loop give the selection and decisions of the sorted entries |
| Assembly.SelectedAreVisible | src/ndt_agents/context/assembly.py:145-238 | every source of a selected entry is a candidate the caller may see, with that content, and no entry is above the caller's clearance |
| Assembly.OrderFree | src/ndt_agents/context/assembly.py:145-238 | any permutation of the candidates gives the same entries in the same order and the same decisions |
| Assembly.SelectionSafe | src/ndt_agents/context/assembly.py:193-238 | both limits hold, every eligible protected candidate is kept, and every entry left out would break a limit |
| Assembly.KeptIsMaximal | src/ndt_agents/context/assembly.py:209-238 | an entry left out would be refused again at the end |
| Assembly.ProtectedKept | src/ndt_agents/context/assembly.py:193-207 | if the protected entries fit at all, all of them are selected |
| Assembly.EachDecidedOnce | src/ndt_agents/context/assembly.py:145-238 | every candidate gets exactly one decision and nobody else gets any |
| ParserFallback.BlocksByPage | src/ndt_agents/knowledge/fallback.py:294-298 | the dictionary holds each page's blocks in order |
| ParserFallback.Evaluate | src/ndt_agents/knowledge/fallback.py:288-363 | the page loop computes the decision from each page's own blocks and presence |
| ParserFallback.PassIffNoFailure | src/ndt_agents/knowledge/fallback.py:342-363 | a decision passes if and only if no page failed |
| ParserFallback.PassMeansGood | src/ndt_agents/knowledge/fallback.py:288-363 | a document passes if and only if every expected page is present, has enough text unless it is a drawing, at most one corrupted character in a hundred, and its expected table and formula |
| ParserFallback.NoFailureNoGap | src/ndt_agents/knowledge/fallback.py:342-377 | the 0.95 coverage thresholds never decide alone |
| ParserFallback.MergedStats | src/ndt_agents/knowledge/fallback.py:437-442 | each page of a merge has the block statistics of the document it was taken from |
| ParserFallback.MergedPresent | src/ndt_agents/knowledge/fallback.py:434-436 | a page is present in a merge exactly when it is in the document it was taken from |
| ParserFallback.SortFacts | src/ndt_agents/knowledge/fallback.py:439-442 | sorting permutes the blocks into page order and by order within a page |
| ParserFallback.MergeIntersects | src/ndt_agents/knowledge/fallback.py:422-466 | the pages that fail in the merge are exactly those that failed in both documents |
| ParserFallback.MergeOkIff | src/ndt_agents/knowledge/fallback.py:422-466 | a merge of one source's documents is refused if and only if no page or no block survives, or blocks or text exceed the contract |
| ParserFallback.MergeCanBeEmpty | src/ndt_agents/knowledge/fallback.py:422-466 | two valid documents of a drawing and a lost page whose merge is refused |
| ParserPipeline.MergeDocuments | src/ndt_agents/knowledge/fallback.py:422-466 | the filled dictionary and block list give the merge, its identity error or its validation error |
| ParserPipeline.Run | src/ndt_agents/knowledge/fallback.py:483-583 | the three stages give the pipeline's outcome, attempts and call count |
| ParserRuns.MergeAssembles | src/ndt_agents/knowledge/fallback.py:422-466 | a merge is a document if and only if the documents parsed so far, each page taken from the first one in which it does not fail or else from the last, together have a page and a block and stay within the limits for blocks and text |
| ParserRuns.AbsorbOkIff | src/ndt_agents/knowledge/fallback.py:483-583 | a stage fails if and only if it needs a merge whose document is of another source or does not assemble |
| ParserRuns.RunOkIff | src/ndt_agents/knowledge/fallback.py:483-583 | the pipeline gives an outcome if and only if the artifact is of another scope or every merge the three answers lead to is of one source and assembles |
| ParserRuns.ReadyAtFirstSettledStage | src/ndt_agents/knowledge/fallback.py:483-583 | under that condition the pipeline is READY at exactly the first stage by which the parsed documents have no failed page in common, else it goes to manual review |
| ParserRuns.RunCanFail | src/ndt_agents/knowledge/fallback.py:483-583 | two valid documents on which the whole run ends in a validation error, whatever the third parser answers |

## Left out

- SHA-256, canonical JSON and UUID generation: hashes are injective functions or the hashed values themselves, identifiers are inputs that the theorems require to be new where the source draws them from a UUID factory.
- SQLite itself: each transaction is one atomic step on finite maps with its key constraints; the engine, WAL, locking errors, file checks and schema verification are not modelled.
- asyncio: stream deadlines, wait timeouts and task cancellation are not modelled; the signal protocol keeps only the order of its steps.
- `_TaskEventSignal` and its readers are a state machine on values, one task at a time, because the steps of several objects interleave; update in place of the waiter lists is not captured.
- Executors, review workflows, the tool registry and everything that calls a model: outside the modelled core.
- Floating point: pressures, ratios and relevance are exact reals.
- `list_publications` and the meaning of `StandardCatalog.list_for_scope` across scopes: both are prefix scans over keys with a variable number of roles; only exact-scope facts and the acyclicity of whatever a scan returns are stated.
- BM25, embeddings, ranking and retrieval over the index: scoring without a crisp specification.
- Artifact and tool selection of the assembler, and its manifest hashes: the same filter and cut as for entries, without grouping or a byte budget.
- Cache, lifecycle, memory and intake services, transports, configuration, benchmark and licence generators: guard-then-update code or I/O that would only add easy members.
- Task progress, retry hints, messages and transition histories that no check reads are left out of the records.
- Approval.EffectOf: takes the decider's role as an input, because the default choice of a role passes the same authorisation as any other.
- Approval.StepKeepsInv: a call is one step, which assumes that no other append on the same approval falls between its reading and its writing. The service takes no lock of its own for that; module ApprovalRaces drops the assumption.
- Approval.OneResume: states nothing about the validity window at resume time, because `resume` does not check expiry again.
- ReleaseService.StepKeepsInv: candidate updates are atomic, usable standards and distinct chunks enter as one input, and checkpoints are reduced to their binding, approval and grant; module ReleaseApprovals ties the approval to the journal, while the journal's RESUME event and the service's grant stay two records.
- ReleaseService.ResumeGrants: an identifier already used by an event of another kind, which the source rejects while parsing its payload, is not modelled there.
- Recovery.Reconcile: is the case of a clock that stands still, for which the bound is exact; Recovery.ReconcileMoving is the case of any readings.
- Recovery.ReconcileMoving: no other process appends or claims during the call; an append between listing and blocking would make the source raise its sequence error out of the call.
- ContextValidation.LosslessAccepted: is stated for pairwise distinct unprotected contents; what is missing otherwise is ContextValidation.MissingIsExcess, and which share of it a policy tolerates is not spelled out.
- Coordinator.FillCapacity: reads the clock once for the whole call and no other process claims between listing and claim, which is when the stopping condition is exact; module Coordinators drops both assumptions.
- FallbackLadder.ValidateOrFallback: is stated for the policies and limits on which the loop always ends, because a method has to end; FallbackLadder.RunTurns states the same for any number of turns on all of them.
- ParserFallback.Evaluate: which characters are alphanumeric is a parameter.
- Compression.Compress: the semantic adapter is a function of its request; token limits of the contract above the modelled checks are not enforced.
