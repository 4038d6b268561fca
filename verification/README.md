# Controlled deployment: a verified model

The repository controls how one deployment at a time reaches production: a host-local supervisor mutates Docker under a
lock and a durable journal, and a database of append-only tables decides which attempt has the authority to do so. This
project models both, and the smaller pieces that feed them, and proves what they guarantee.

## How it is put together

| module | what it models |
|---|---|
| `Journal`, `SupervisorProtocol` | the journal file with torn and short writes; every durable effect of `execute`, `reconcile` and `prove_quiescent_takeover` as one step of one of N processes, with crashes anywhere, an environment that may answer anything or raise, a clock, and loss of the whole journal file |
| `SupervisorSafety`, `SupervisorVerdicts`, `SupervisorHistory`, `SupervisorLanguage`, `SupervisorReconcile` | theorems over all runs of that machine |
| `SupervisorHost` | the same operations as methods that assign the file, the rows and the lock; each call is shown to be a path of the machine |
| `HealthContract`, `DockerHealth`, `SupervisorDocker` | what the Docker runtime observes, one poll of the health contract, the polling loop; the machine's runs on top of that runtime |
| `PlanValidation`, `ResourceGates` | which plans and which windows of resources let a mutation go ahead; both resource gates, the sampling loop |
| `DeployStates`, `EventLog` | the transition table; appending state events from stale reads under the unique key |
| `DeploymentService`, `DeploymentSoundness`, `DeploymentSession` | the deployment tables, the service functions as transactions, the coupled invariant over all runs, and the service as methods on fields |
| `DeploymentContracts` | exactly when each of these transactions commits, and exactly which rows |
| `ServiceReplays` | that every service call takes effect at most once |
| `AttemptLoading`, `AuthorityReachable` | `load`, what it means in every reachable database, and that it can succeed |
| `ProductionLock` | the single lock row, with clock readings taken before the row lock |
| `ApprovalService`, `ApprovalProtocol` | approval requests and decisions, and concurrent decision transactions step by step |
| `IdentityHistory` | the versioned identity table and its reader |
| `ApprovalText`, `UuidText` | the chat command and the card buttons |
| `CanonicalJson`, `IntentHash`, `ArtifactPolicy` | the canonical payload behind the intent hash; the syntactic policies |

A database transaction is a function from the tables to new tables or a refusal; unique and check constraints are tests
inside it. Where concurrency is the point (state events, decisions, the lock, identities) the transaction is split into
its reads, its lock and its commit, or its clock reading is allowed to be older than its commit. Times are whole numbers
(real ones in the collector); clock readings may be stale but not ahead of the true time.

SHA-256 is taken to be injective: a fingerprint is represented by the text it is computed from. A string is a sequence
of Unicode scalar values; Python strings with lone surrogates are outside the model, and for those the JSON escape is in
fact ambiguous (a lone high surrogate followed by a lone low one prints like the pair).

Where the code does less than its text promises, the code is followed and the exact condition is proved:

* "a second mutation is forbidden" after the journal file is lost holds for `execute` only. `reconcile` and
  `prove_quiescent_takeover` append to the empty journal without asking the database, and an `execute` that finds any
  line in the journal does not ask it either. With all three operations another submission can follow exactly when the
  journal loads and shows neither MUTATION_SUBMITTED nor ATTEMPT_TERMINAL: when it is empty, and just as well when it
  holds no more than the start of a reconciliation. `SecondMutationExactly`, `NextMutationExactly` (for any set of
  operations), `ReconciliationCanHideMutation`, `TwoMutationsAreReachable`.
* One terminal record is kept as long as `reconcile` is not called on a journal that has one and ends in a newline; after
  such a call every later `execute` can raise `journal_terminal_ambiguous`: `AmbiguousExactlyByReconcile`,
  `AmbiguityIsReachable`.
* The result of `os.write` is not looked at, so a verdict can be returned although its terminal record was torn. The
  journal is then unreadable: `VerdictsAreDurableOrUnreadable`, `TerminalWrittenExactly`, `TornVerdictIsReachable`.
* Fencing tokens fence within one lock row's life. Release deletes the row, the next one starts at 1, and from there
  every token can be had again by every deployment: `TokensRestartExactlyAfterRelease`, `DeadExactlyUntilReleased`.
* A renewal that waited for the row lock can shorten the lease, even to one that is over: `RenewShortensExactly`.
* The two resource gates are not equal: the collector's gate accepts exactly the windows of the other one plus those that
  start late or end outside 28 to 32 seconds: `GatesAgree`.

## Model

| member | source | states |
|---|---|---|
| SupervisorSafety.AtMostOneMutation | app/services/production_supervisor.py:615-668 | over every interleaving of N processes and all three operations, with crashes, torn and short writes, failing rows and file loss, `submit` is called at most once as long as no reconcile or takeover goes ahead on a lost journal; a submission implies the durable record (unless the file is lost), the record implies the database marker, the marker implies a stored resource row (which NothingBeforeAcceptance ties to the gate's acceptance) |
| SupervisorHistory.NothingBeforeAcceptance | app/services/production_supervisor.py:632-648 | in every run of every interleaving, a step that adds a resource row, sets the marker or submits belongs to a call that was just told, in this order and with nothing in between, that the plan is accepted and the resources are accepted; before the marker also that the row was stored, before the submission that the marker was set and the record written |
| SupervisorHistory.RefusalEndsTheCall | app/services/production_supervisor.py:633-635 | once a call was refused plan or resources, all its process does until it begins anew is to raise that refusal and free the lock: journal, rows, marker, runtime and results stay as they are |
| SupervisorHistory.VerdictsRestOnAnswers | app/services/production_supervisor.py:643-859 | in every run a returned state is what Docker's last answer in that call stands for (a refused mutation, an observation, a cycle that meets or misses every requirement), or was read from the journal, or is UNKNOWN because the database failed |
| SupervisorHistory.AsksOnlyWhileOpen | app/services/production_supervisor.py:643-746 | in every run Docker is asked again in a call only while its last answer leaves the state open, and a submission is followed by a reconciliation in the same call only if its answer was lost |
| SupervisorHistory.TakeoverMeansQuiescence | app/services/production_supervisor.py:679-720 | in every run the takeover proof answers true exactly if it saw Docker twice without an active client or a transition, with one fingerprint, no event in between and one of the four states that tell where things stand; it answers false after one look only if that was not quiet |
| SupervisorHistory.TakeoverJournals | app/services/production_supervisor.py:709-720 | what the takeover leaves in the journal and returns: the observed state if it was safe, UNKNOWN if not |
| SupervisorHistory.ResultsExactly | app/services/production_supervisor.py:826-840 | a verdict is returned only if its result row was stored by this very call; otherwise the call notes the disconnect |
| SupervisorHistory.EntersExactly | app/services/production_supervisor.py:617-640 | where a call goes after loading, by the lines of the journal and the operation |
| SupervisorSafety.AtMostOneMutationWithoutFileLoss | app/services/production_supervisor.py:615-720 | without whole-file loss the same holds for all operations without any restriction, and a submission shows in the journal |
| SupervisorSafety.AtMostOneMutationDespiteFileLoss | app/services/production_supervisor.py:627-648 | in runs of execute alone the journal file may vanish whenever no call is running, and there is still at most one submission |
| SupervisorSafety.SecondMutationExactly | app/services/production_supervisor.py:622-700 | at the end of any run whatever, with any number of submissions, file losses and short writes behind it and no call running: without further file loss the three operations can lead to one more submission if and only if the journal loads and shows neither a submission nor a terminal record |
| SupervisorSafety.NextMutationExactly | app/services/production_supervisor.py:622-700 | the same for every set of operations allowed from then on: execute must be one of them, the journal open as said, and an empty journal must have no marker behind it or be one that reconcile or takeover may append to |
| SupervisorSafety.ReconciliationCanHideMutation | app/services/production_supervisor.py:679-700 | from every start some run leads to one submission and a journal that holds nothing but the start of a takeover, and every such moment leads on to a second submission without further file loss |
| SupervisorSafety.JournalCanBeLostAfterMutation | app/services/production_supervisor.py:198-229 | from every start some run leads to one mutation, no call running and an empty journal |
| SupervisorSafety.TwoMutationsAreReachable | app/services/production_supervisor.py:670-700 | from every start some run of all three operations submits twice |
| SupervisorVerdicts.FixedHealthWindow | app/services/production_supervisor.py:748-824 | without file loss every health verification of an attempt, across all crashes and restarts, works against one deadline, 120 seconds after the first record of a completed mutation or a started health phase, and no journalled pass was completed after it |
| SupervisorVerdicts.AnchorNeverMissing | app/services/production_supervisor.py:760-786 | the branch for a missing window anchor is never taken |
| SupervisorVerdicts.VerdictsAreDurableOrUnreadable | app/services/production_supervisor.py:722-859 | under any rules a call that is about to return HEALTHY or FAILED finds a terminal record with that state, or, and only where writes may return short, a journal that does not load |
| SupervisorVerdicts.VerdictsAreDurable | app/services/production_supervisor.py:722-859 | when no write returns short, the terminal record is always there |
| SupervisorVerdicts.CorruptForever | app/services/production_supervisor.py:231-258 | a journal that does not load never loads again unless the file is lost |
| SupervisorVerdicts.TerminalWrittenExactly | app/services/production_supervisor.py:222-229 | the terminal record of an append that returned is there exactly if the write carried the whole record and the file ended in a newline before it |
| SupervisorVerdicts.TornVerdictIsReachable | app/services/production_supervisor.py:222-229 | from every start some run is about to return FAILED without its terminal record |
| SupervisorVerdicts.HealthyNeedsPassingCycle | app/services/production_supervisor.py:734-824 | with any runtime whose observations never claim HEALTHY, that verdict is returned only after a journalled cycle that passes the supervisor's test by its deadline |
| SupervisorDocker.HealthyMeansBoundContainers | app/services/production_supervisor.py:977-1249 | in every run with the Docker runtime, under any rules: HEALTHY is returned only after a journalled pass within the health window that came from a poll which met the contract field by field, every service being up, settled, unkilled, unrestarted, healthy, on the pinned image and labelled for exactly this attempt |
| SupervisorDocker.HealthyReachableExactly | app/services/production_supervisor.py:748-824 | with the Docker runtime some run from every start comes to return HEALTHY if and only if the attempt names some services and only approved ones |
| SupervisorDocker.DockerRunIsModest | app/services/production_supervisor.py:1047-1062 | every run with the Docker runtime is one in which no observation claims HEALTHY |
| SupervisorLanguage.JournalsAreAccepted | app/services/production_supervisor.py:615-859 | in execute-only runs, with crashes, short writes and file losses, every reachable journal is accepted by one automaton up to a spoiled line; it holds at most one terminal record, and a journal that has one yields a verdict, so the ambiguous and corrupt terminal errors are unreachable |
| SupervisorLanguage.AcceptedVerdict | app/services/production_supervisor.py:842-859 | on an accepted journal the verdict read back is the automaton's: the terminal state, or UNKNOWN after a closing disconnect |
| SupervisorLanguage.TerminalJournalIsFinal | app/services/production_supervisor.py:622-631 | once a journal loads with a terminal record, later executes append nothing, touch neither runtime nor rows, and all return the same verdict; should the file vanish later, they raise because of the marker |
| SupervisorLanguage.FinishedRunsStayFinished | app/services/production_supervisor.py:615-631 | the same over whole execute-only runs, without any condition on the database |
| SupervisorReconcile.OneTerminalRecord | app/services/production_supervisor.py:670-677 | while reconcile is not called on a finished journal there is never a second terminal record, under every operation, crash, short write and file loss |
| SupervisorReconcile.ReconcileAfterTerminalIsAmbiguous | app/services/production_supervisor.py:722-746 | from every finished attempt one more reconcile can lead to a journal with two terminal records, whose terminal state is ambiguous |
| SupervisorReconcile.AmbiguousExactlyByReconcile | app/services/production_supervisor.py:670-677 | from every finished attempt, whatever run finished it, the operations allowed from then on can lead to two terminal records if and only if reconcile may be called on it and its journal ends in a newline |
| SupervisorReconcile.AmbiguityIsReachable | app/services/production_supervisor.py:670-677 | from every start some run ends on such a journal |
| Journal.AppendCases | app/services/production_supervisor.py:204-229 | an append, however it is cut short, leaves the file as it was, adds exactly its record, or makes the file unreadable |
| SupervisorHost.DurableExecutionJournal.Append | app/services/production_supervisor.py:204-229 | the append in place is one step of the protocol, with its record, error and file as there |
| SupervisorHost.HostExecutionLock.Enter | app/services/production_supervisor.py:266-277 | the lock is taken exactly when it is free, and a refused call changes nothing |
| SupervisorHost.AttemptAuthority.RecordRuntimeResult | app/services/production_supervisor.py:502-539 | a second row with the same key fails, a first one is stored unless the database raises |
| SupervisorHost.SupervisorRuntime.ValidatePlan | app/services/production_supervisor.py:633 | succeeds exactly if the plan that compose resolves is accepted |
| SupervisorHost.SupervisorRuntime.CollectFreshResources | app/services/production_supervisor.py:634-635 | succeeds exactly if the collected window passes the gate and is fresh |
| SupervisorHost.Host.constructor | app/services/production_supervisor.py:596-613 | any moment that a run of other calls led to, with or without file loss, is a host that a call can start on |
| SupervisorHost.ExecuteAttempt | app/services/production_supervisor.py:596-668 | at any such moment a supervisor is built and execute called: the lock is busy and nothing happens, or the call ends with its outcome recorded; at most one submission in the whole history, unless it holds both a file loss and another operation than execute |
| SupervisorHost.ProductionDeploymentSupervisor.Execute | app/services/production_supervisor.py:615-668 | whatever other calls did before, the call is a path of the protocol: the history holds at most one submission (with the same exception), the lock is free again, and the reported outcome is what was returned or raised; with a plan or window that is not acceptable it stores no row, sets no marker and submits nothing, and fails whenever its journal would have let it come to the mutation |
| SupervisorHost.ProductionDeploymentSupervisor.Reconcile | app/services/production_supervisor.py:670-677 | the same for reconcile |
| SupervisorHost.ProductionDeploymentSupervisor.ProveQuiescentTakeover | app/services/production_supervisor.py:679-720 | the same for the takeover proof |
| DockerHealth.ObservesExactly | app/services/production_supervisor.py:977-1074 | observe never reports HEALTHY or IN_PROGRESS; it reports a completed mutation exactly when every service of the attempt has an inspected, running, settled container with this deployment, attempt, epoch and hash, and FAILED exactly when what was found is labelled so and settled but not all there and running; also when it reports NOT_STARTED and transition |
| DockerHealth.FulfilledExactly | app/services/production_supervisor.py:1112-1249 | a poll succeeds exactly if, field by field, every service runs in a settled, unkilled, unrestarted container, healthy if it has a health check, on the pinned image with its id and repository digest and with all six labels, its probes answered, the migration agrees and the deadline was kept |
| DockerHealth.ContainersExactly | app/services/production_supervisor.py:977-1031 | which container stands for a service: the one named by the service's last row, if it can be inspected |
| DockerHealth.FulfilledMeansBound | app/services/production_supervisor.py:1033-1062 | so a poll that succeeds saw every service of the attempt deployed in that sense |
| DockerHealth.HealthCycleOnce | app/services/production_supervisor.py:1112-1249 | the dictionary filled service by service comes out all true exactly when the host met the contract written out field by field; the supervisor's own test then passes exactly when the cycle was completed in time and all services are approved ones |
| DockerHealth.FillChecks | app/services/production_supervisor.py:1131-1190 | after the loop each check has the value its services and probes give it, and the keys are the required ones and those of the services |
| DockerHealth.DockerComposeSupervisorRuntime.VerifyHealth | app/services/production_supervisor.py:1091-1110 | if every sleep lasts at least five seconds the loop ends, within two polls of the sleeps that fit before the deadline; success means the contract was fulfilled, failure comes at the deadline with the last real error |
| DockerHealth.BlamesOne | app/services/production_supervisor.py:1098-1109 | the error raised on expiry is determined: the last one that is not the timeout, or the timeout if there was no other |
| HealthContract.RequiredExactly | app/services/deployment_policy.py:15-44 | which checks a service set requires, name by name |
| PlanValidation.PlanAcceptedExactly | app/services/production_supervisor.py:915-954 | a plan is accepted exactly if commit and digest have their form, there is a service, every image is a name at that digest, and compose resolved every service to that image without building it |
| ResourceGates.GatePassesExactly | app/services/resource_authority.py:57-63 | which windows let a mutation go ahead, in samples, bytes and seconds |
| ResourceGates.GatesAgree | app/services/deployment_policy.py:159-202 | a window passes this gate exactly when, rescaled to seconds with one identity, it passes the collector's gate and also starts within the first second and ends between 28 and 32 seconds |
| ResourceGates.MedianIsMajority | app/services/resource_authority.py:163-175 | the median of seven reaches a threshold exactly when at least four samples do |
| ResourceGates.MedianIgnoresOrder | app/services/deployment_policy.py:184-187 | the order of the samples does not matter to it |
| ResourceGates.MetricsAgree | app/services/resource_authority.py:163-175 | first of the sorted values and per-sample tests on one side, median and minima on the other: the metric tests accept the same seven measurements |
| ResourceGates.SpacedOnlyTooSlow | app/services/resource_authority.py:137-162 | on samples at least five seconds apart the cadence test can only fail by being too slow |
| ResourceGates.Collect | app/services/resource_authority.py:81-92 | the loop gathers seven samples of one identity at least five seconds apart, so its own evaluation rejects a full window only when it was too slow |
| DeployStates.LegalExactly | app/services/deployment_policy.py:205-228 | the transition table, pair by pair |
| DeployStates.LegalClimbs | app/services/deployment_policy.py:205-228 | every legal transition climbs exactly one rank of at most seven |
| DeployStates.ChainRank | app/services/deployment_policy.py:205-228 | in a legal log the position of a state is its rank, and a log has at most seven states |
| DeployStates.TerminalIsLast | app/services/deployment_policy.py:206-220 | nothing follows a state without successors |
| EventLog.CommittedLogIsChain | app/services/deployment_service.py:187-225 | in every interleaving of transactions that append from stale reads, the unique key alone keeps every committed log numbered 1..n, each event starting where its predecessor ended, every step legal, n at most seven and terminal states last |
| EventLog.StaleCommitAppends | app/models/core.py:679-683 | a commit either appends one legal state to the log as it is at that moment, exactly when its sequence is still free, or changes nothing; other deployments are untouched |
| EventLog.RankIsSequence | app/services/deployment_policy.py:205-228 | the sequence number of a committed event is the rank of the state it leads to |
| DeploymentSoundness.RunSound | app/services/deployment_service.py:271-1493 | every database that any run of the service functions reaches satisfies one coupled invariant over intents, logs, artifacts, acceptances, bindings, consumptions, attempts, requests, decisions, lock, identities and the identity reader's answers |
| DeploymentSoundness.RunExtends | alembic/versions/0003_phase_1d_f_controlled_deployment.py:890-912 | between any two moments of a run rows only appear and logs only grow, except for the lock row and the closing of a mapping |
| DeploymentSoundness.RowsMirrorTheLog | app/services/deployment_service.py:430-540 | an artifact, acceptance, binding, consumption or attempt exists exactly when the log contains its state; logs are legal chains, neither kind of intent enters a state of the other, and no log comes to an outcome |
| ServiceReplays.ReplayChangesNothing | app/services/deployment_service.py:338-361 | replaying a committed call of any service function, at any later moment of a run, changes nothing |
| DeploymentSoundness.RecordArtifactKeeps | app/services/deployment_service.py:430-540 | recording an artifact keeps the invariant: its digest, commit and repository are the intent's and its image ends in that digest |
| DeploymentSoundness.AcceptStagingKeeps | app/services/deployment_service.py:591-680 | so does accepting staging |
| DeploymentSoundness.BindApprovalKeeps | app/services/deployment_service.py:698-798 | so does binding an approval: the request is new, the deployment's own, and for the intent's digest |
| DeploymentSoundness.StartKeeps | app/services/deployment_service.py:1350-1493 | so does starting: the consumed decision is the approval of the bound request, and the stored hash is computed from the rows |
| DeploymentSoundness.DecideKeeps | app/feishu_worker.py:316-347 | so does a decision on an answer that the identity reader gave at any earlier moment: the decider is a mapped human still |
| DeploymentContracts.StartsExactly | app/services/deployment_service.py:1350-1493 | in every run, starting stores an attempt if and only if the owner is the supervisor, the lock row names the deployment, owner and token and its lease still runs, the bound request is for this deployment and digest and not over, its decision is an approval from before that by another user, the log stands at the pending state and the attempt's id is free; and exactly which rows it stores |
| DeploymentContracts.BindsExactly | app/services/deployment_service.py:698-798 | a bound approval is stored exactly once, right after staging was accepted, under a valid new key; the request is the requester's, for this deployment and digest, and over `ttl` seconds from now |
| DeploymentContracts.AcceptsStagingExactly | app/services/deployment_service.py:591-680 | when staging is accepted, what the acceptance holds and that it lasts `validity` seconds |
| DeploymentContracts.StagesExactly | app/services/deployment_service.py:543-588 | when staging begins or fails, and what that appends |
| DeploymentContracts.RecordsArtifactExactly | app/services/deployment_service.py:430-540 | when an artifact is recorded or a replay accepted, and what is stored |
| DeploymentContracts.CreatesIntentExactly | app/services/deployment_service.py:271-386 | an intent is stored exactly if the requester has an open mapping and every field is acceptable, with all thirteen fields as given or resolved, revision and runbook included; a taken key yields the stored intent only if all of them agree |
| DeploymentSession.Session.CreateDeploymentIntent | app/services/deployment_service.py:271-386 | the method leaves the tables exactly as the transaction function says, rolled back when it fails, keeps the coupled invariant, and returns the id stored under the idempotency key |
| DeploymentSession.Session.RecordDeploymentArtifact | app/services/deployment_service.py:430-540 | the same for recording an artifact, returning the stored row |
| DeploymentSession.Session.BeginStagingDeployment | app/services/deployment_service.py:543-563 | the same for beginning staging |
| DeploymentSession.Session.RecordStagingFailure | app/services/deployment_service.py:566-588 | the same for a staging failure |
| DeploymentSession.Session.RecordStagingAcceptance | app/services/deployment_service.py:591-680 | the same for accepting staging |
| DeploymentSession.Session.CreateBoundProductionApproval | app/services/deployment_service.py:698-798 | the same for the bound approval: request, binding and event together or not at all |
| DeploymentSession.Session.StartProductionDeployment | app/services/deployment_service.py:1350-1493 | the same for starting: event, consumption and attempt together or not at all, and exactly when the rows, the unexpired lease among them, allow it |
| AttemptLoading.LoadsExactlyTheLive | app/services/production_supervisor.py:311-450 | in every reachable database load succeeds exactly if the attempt is stored, the lock row names its deployment and token, `validUntil > now`, the backup passed, came from the named producer, was created no earlier than the acceptance and verified at most 1800 seconds ago, and CI evidence names the row's repository, commit and run and is at most 900 seconds old; the comparisons of hash, digests, service set, request, decision and owner never fail |
| AttemptLoading.LoadFailsExactly | app/services/production_supervisor.py:311-450 | which of its four errors load fails with, in every reachable database |
| AttemptLoading.HashAlwaysMatches | app/services/production_supervisor.py:392-410 | load's recomputed hash is the one that was stored, in whatever order the service map is read |
| AttemptLoading.AuthorityMeansApproval | app/services/production_supervisor.py:408-434 | whenever load succeeds, the deployment was approved for exactly this digest by a mapped human other than its requester, strictly before the request expired, it was consumed before that, and staging accepted it within a day, although load checks neither actor nor expiry |
| AttemptLoading.LoadedIsStable | app/services/production_supervisor.py:435-446 | two loads of one attempt that succeed, at any two moments of a run and with any backups, CI answers and clocks, return the same attempt |
| AttemptLoading.DistinctAttemptsDistinctDecisions | app/services/deployment_service.py:1402-1468 | different attempts have different deployments, requests and decisions |
| AttemptLoading.LoadedPlanIsValid | app/services/production_supervisor.py:915-926 | on an attempt that load returned, the tests that validate_plan makes before asking Docker cannot fail, and all its services are approved ones |
| AttemptLoading.OneLiveAttempt | app/services/production_supervisor.py:408-412 | at any moment at most one attempt can be loaded |
| AttemptLoading.DeadEpochStaysDead | app/services/deployment_service.py:942-957 | once the lock row's token exceeds an attempt's, that attempt is refused for the rest of the row's life |
| AttemptLoading.ReleaseRevivesAnyEpoch | app/services/deployment_service.py:1044-1079 | from every reachable database, whoever holds the lock and whatever the attempt's epoch, transactions that change nothing but lock row and clock lead, five seconds per epoch later, to one in which load succeeds exactly if acceptance, backup and CI evidence are in order |
| AttemptLoading.DeadExactlyUntilReleased | app/services/deployment_service.py:942-957 | a fenced attempt is refused on every path on which the row is never away, and can be loaded again on some path with a release if and only if it is usable otherwise |
| AuthorityReachable.AuthorityIsReachable | app/services/deployment_service.py:271-1493 | for every valid intent and image some run reaches a database in which load succeeds |
| ProductionLock.OwnerChangesOnlyByTakeover | app/services/deployment_service.py:892-970 | a row's deployment or token changes only by a takeover: the lease has truly expired however old the clock reading was, the current token was reconciled, and the token rises by one |
| ProductionLock.TakeoversWithinReconciliations | app/services/deployment_service.py:935-957 | takeovers of one row never outnumber its reconciliations |
| ProductionLock.LeaseRunsOut | app/services/deployment_service.py:905-907 | a row that nobody touches for 900 seconds has a lease that is over |
| ProductionLock.LiveLeaseExcludes | app/services/deployment_service.py:924-973 | while a lease truly runs, every other deployment is refused, whatever its clock reading |
| ProductionLock.TokenFences | app/services/deployment_service.py:942-957 | within one row's life the token never falls and belongs to one deployment |
| ProductionLock.TokensRestartExactlyAfterRelease | app/services/deployment_service.py:1044-1079 | from any reachable moment with a row, for all deployments and tokens: while the row is never released it can come to name exactly its own deployment at the present token and any deployment at every higher one; with a release, any deployment at every token from 1 on |
| ProductionLock.RenewShortensExactly | app/services/deployment_service.py:1001-1041 | exactly when a renewal succeeds, exactly when it brings the end of the lease forward, and exactly when the lease it grants is already over |
| ProductionLock.AcquiresExactly | app/services/deployment_service.py:892-987 | when the lock is taken, kept, taken over or refused, and every column of the row |
| ProductionLock.RenewsExactly | app/services/deployment_service.py:1001-1041 | only the holder, by deployment, owner and token and while the lease runs, renews; only the two times change; which error a refusal has |
| ProductionLock.ReleasesExactly | app/services/deployment_service.py:1044-1079 | only the holder, by deployment, owner and token, releases, and the row is gone |
| ProductionLock.DeploymentLockRow.AcquireDeploymentLock | app/services/deployment_service.py:892-987 | the columns assigned in place are the row that the acquisition function gives, and nothing changes on a refusal |
| ProductionLock.DeploymentLockRow.RenewDeploymentLock | app/services/deployment_service.py:1001-1041 | the same for renewal |
| ProductionLock.DeploymentLockRow.ReleaseDeploymentLock | app/services/deployment_service.py:1044-1079 | the same for release |
| ApprovalService.RecordsExactly | app/services/approval_service.py:220-295 | a decision is recorded exactly when its event is new and valid, its request known, open and undecided and, for a deployment, asked of a mapped identity other than the requester; only then do the tables change, by that one row |
| ApprovalService.RefusesExactly | app/services/approval_service.py:220-295 | which answer every other call gets |
| ApprovalService.CardsExactly | app/services/approval_service.py:334-377 | what a card action does, test by test: approve stores an approval and reject a rejection, with the operator, user, mapping and event of the callback, exactly for operators in all three lists and in the supervision chat and for decidable requests; all other answers leave the tables as they are |
| ApprovalService.ButtonsDecide | app/feishu_worker.py:291-351 | end to end: the approve (reject) button of an open card, parsed and processed for a permitted operator on a decidable request, leaves exactly one new row, an approval (a rejection) of that operator; any other operator is unauthorized and nothing is stored |
| ApprovalService.CommandsDecide | app/services/approval_service.py:380-428 | the same for a chat message that holds the printed command, from a permitted user in a permitted chat; never for a request of a deployment |
| ApprovalService.CreatesExactly | app/services/approval_service.py:125-202 | which requests are stored, with which fields, and which replays are accepted |
| ApprovalService.RecordKeeps | app/models/core.py:410-417 | every decision stays in time, separated and uniquely indexed by request, event and id |
| ApprovalService.TextNeverDecidesDeployments | app/services/approval_service.py:380-428 | the text path never decides a deployment-bound request |
| ApprovalService.WaitChangesNothing | app/services/approval_service.py:298-331 | "wait" changes nothing and answers "waiting" exactly for a request that could still be decided |
| ApprovalService.ApprovalStore.RecordApprovalDecision | app/services/approval_service.py:220-295 | the method has exactly the effect and the answer of the transaction function |
| ApprovalService.ApprovalStore.CreateApprovalRequest | app/services/approval_service.py:125-202 | a stored request is returned for its key when it matches, and nothing is stored twice |
| ApprovalService.ApprovalStore.InspectPendingApprovalRequest | app/services/approval_service.py:298-331 | each answer exactly for its requests: unknown, over, decided, or known, open and undecided |
| ApprovalService.WaitingExactlyWhileDecidable | app/services/approval_service.py:256-331 | "waiting" is answered exactly while a decision would still be recorded, and otherwise a decision gets the same answer |
| ApprovalProtocol.DecisionsInTime | app/services/approval_service.py:220-295 | in every interleaving each request and each event has at most one decision, taken strictly before the expiry, which is within a day of the request, however long the row lock was awaited, and for a deployment by a mapped identity other than the requester |
| ApprovalProtocol.ConcurrentIsAtomic | app/services/approval_service.py:256-289 | a commit among other transactions does to the tables exactly what the function would do alone at that moment |
| ApprovalProtocol.ConflictsExactly | app/services/approval_service.py:290-292 | an insertion is refused exactly when its event was meanwhile used for another request, or its row id is taken; the unique request is never violated |
| ApprovalProtocol.ReplayIsDuplicate | app/services/approval_service.py:233-248 | replaying a recorded callback at any later moment is answered "duplicate" with the same decision and changes nothing |
| ApprovalProtocol.WaitIsSilent | app/services/approval_service.py:298-331 | no step of an inspecting transaction changes the tables |
| IdentityHistory.TraceSound | app/services/identity_authority.py:38-86 | in every run, stale clocks and blind waiters included, versions of a subject run 1..n, each is closed when the next opens, only the last is open and neighbours name different principals |
| IdentityHistory.OneMappingCovers | alembic/versions/0003_phase_1d_f_controlled_deployment.py:71-90 | from the first assignment on exactly one mapping covers any instant |
| IdentityHistory.ResolveReturnsLastAssigned | app/services/deployment_authority.py:101-129 | the reader succeeds exactly for the subjects that were ever assigned and returns the principal last assigned |
| IdentityHistory.AssignRefinesUpdate | app/services/identity_authority.py:51-86 | a committed assignment is one update of the map from subjects to principals |
| IdentityHistory.AssignKeepsThePast | alembic/versions/0003_phase_1d_f_controlled_deployment.py:91-124 | an assignment leaves the version in force at every earlier instant as it was |
| IdentityHistory.AssignCommitsExactly | app/services/identity_authority.py:55-84 | exactly which assignments commit; a waiter that its competitor made blind never does |
| IdentityHistory.AssignsExactly | app/services/identity_authority.py:51-86 | which rows a committed assignment leaves: the first version, nothing new, or the open version closed and the next one opened |
| IdentityHistory.ProvisionsExactly | app/services/identity_authority.py:16-35 | which principals are stored |
| IdentityHistory.IdentityAuthority.AssignFeishuIdentity | app/services/identity_authority.py:38-86 | closing and inserting in place give the row that the transaction function gives, or nothing |
| IdentityHistory.IdentityAuthority.ProvisionPrincipal | app/services/identity_authority.py:16-35 | the same for provisioning |
| IdentityHistory.IdentityAuthority.ResolveFeishuPrincipal | app/services/deployment_authority.py:101-129 | the reader succeeds exactly when the subject has an open mapping |
| IntentHash.PayloadBindsExactly | app/services/production_supervisor.py:162-187 | two payloads are equal exactly when all eight fields are, service maps being compared without regard to order |
| CanonicalJson.StringCut | app/services/production_supervisor.py:173-186 | an encoded string can be cut off what follows it in one way only |
| CanonicalJson.InsertionOrderIrrelevant | app/services/production_supervisor.py:184-185 | sorted keys make the text of a map independent of insertion order |
| UuidText.PrintParse | app/services/approval_service.py:70-75 | the canonical text of every 128-bit id parses back to it |
| UuidText.CanonicalExactly | app/services/approval_service.py:70-75 | only its own canonical text does |
| ApprovalText.CommandsExactly | app/services/approval_service.py:59-80 | a text is parsed to a command exactly when it is, trimmed, the verb, blanks and the canonical id |
| ApprovalText.CommandRoundTrip | app/services/approval_service.py:30-34 | every printed command, with any blanks and surrounding space, parses back to its verb and id |
| ApprovalText.ButtonsExactly | app/services/approval_cards.py:18-36 | the card parser accepts exactly the payloads a button can carry |
| ApprovalText.ButtonsRoundTrip | app/services/approval_cards.py:119-154 | every button of an open card parses back to its own action and request; a closed card has none |
| ArtifactPolicy.ImageEndsInDigest | app/services/deployment_policy.py:124-130 | the part of an immutable reference after the last at sign is the digest that ends it |
| ArtifactPolicy.RepositoriesExactly | app/services/approval_service.py:25-28 | character by character, which texts are repositories |
| ArtifactPolicy.KeysExactly | app/services/approval_service.py:29-29 | and which are idempotency keys |
| ArtifactPolicy.ListingsPermute | app/services/production_supervisor.py:391-391 | two listings of one service map differ in order only |

## Left out

- The shape of compose's JSON beyond image and build of each service: a plan of another shape counts as not answered.
- Docker, compose, curl, pgrep, gh and other commands: their answers are inputs or nondeterministic choices; only the branching on them is modelled.
- RuntimeSnapshot.stable_fingerprint: an uninterpreted number compared for equality; its nested JSON is not modelled.
- Journal lines bound to another attempt: the file is named after the attempt id, so `journal_binding_mismatch` is not modelled; permissions, directory creation and fsync failures other than a raised append are not either.
- Deployment evidence rows (`_add_evidence`, `record_deployment_evidence`): only the resource row, the marker, the result rows and the backup fields that load reads; an evidence key that is reused with other contents aborts its transaction and is covered by the ability of every transaction to fail.
- Creation of backups, verification of CI provenance and the host's stamping of the lock row: inputs and environment steps.
- PRODUCTION_HEALTHY, PRODUCTION_FAILED and the rollback outcomes: in the transition table and the event log, but no live service function appends them, so deployments stop at six events; rollback links need a failed deployment and are therefore unreachable.
- Staging invalidation: no live function reads it.
- The chat worker: only that a decision on a deployment is made with a user and mapping that `resolve_feishu_principal` returned at that moment or an earlier one; the envelope of its messages is not modelled.
- The retired functions, the always-refusing stubs, both command line tools, notifications and HTTP routes.
- Actor fingerprints of state events, timestamps of rows that nothing reads, and `staging_accepted_at` of a loaded attempt.
- IdentityHistory.Directory: audit event ids and the provider column, which is constant.
- ApprovalService.Approvals: card message ids; database errors other than constraint violations appear only in ApprovalProtocol, as an abort at any point.
- The collector's own clock: a window is judged by the time its last sample was captured, the time it was evaluated and the time it is asked for, as given.
