/** One invariant over all the deployment tables, and that every run of transactions keeps it. */
module DeploymentSoundness {
  import opened Wrappers
  import opened UuidText
  import opened CanonicalJson
  import opened DeployStates
  import opened ArtifactPolicy
  import opened DeploymentService
  import Identity = IdentityHistory
  import Approval = ApprovalService
  import Lock = ProductionLock

  // ---------------------------------------------------------------- one deployment

  /** The states a deployment of its kind passes through, in order; only staging can end early. */
  predicate Shaped(kind: Kind, log: seq<DeployState>) {
    && 1 <= |log| <= 6
    && log[0].IntentCreated?
    && (|log| > 1 ==> log[1].ArtifactRecorded?)
    && (|log| > 2 ==> log[2].StagingDeploying?)
    && (|log| > 3 ==> log[3].StagingValidated? || (|log| == 4 && log[3].StagingFailed?))
    && (|log| > 4 ==> log[4] == PendingState(kind))
    && (|log| > 5 ==> log[5] == DeployingState(kind))
  }

  predicate Validated(log: seq<DeployState>) {
    |log| > 3 && log[3].StagingValidated?
  }

  /** Each row exists exactly when the log has come to its state. */
  predicate Mirrored(d: Deployment) {
    && (d.artifact.Some? <==> |d.log| >= 2)
    && (d.acceptance.Some? <==> Validated(d.log))
    && (d.binding.Some? <==> |d.log| >= 5)
    && (d.consumption.Some? <==> |d.log| == 6)
    && (d.attempt.Some? <==> |d.log| == 6)
  }

  predicate ValidIntent(intent: Intent) {
    && ValidSha(intent.targetSha) && ValidDigest(intent.digest)
    && intent.services != {} && forall s <- intent.services :: !s.Unapproved?
  }

  predicate ArtifactAgrees(intent: Intent, a: Artifact) {
    && a.repository == intent.repository && a.targetSha == intent.targetSha && a.digest == intent.digest
    && ImmutableArtifact(a.digest, a.image)
    && a.serviceImages == (map s | s in intent.services :: a.image)
    && a.ci.repository == intent.repository && a.ci.targetSha == intent.targetSha
  }

  predicate AcceptanceAgrees(intent: Intent, a: Acceptance) {
    && a.repository == intent.repository && a.targetSha == intent.targetSha && a.digest == intent.digest
    && a.config == intent.config && a.completedAt < a.validUntil <= a.completedAt + MAX_VALIDITY
  }

  predicate BindingAgrees(intent: Intent, b: Binding) {
    && b.repository == intent.repository && b.targetSha == intent.targetSha && b.digest == intent.digest
    && b.action == ActionOf(intent.kind) && b.requester == intent.user
  }

  ghost predicate AttemptAgrees(id: Uuid, intent: Intent, artifact: Artifact, a: Attempt) {
    && a.executor == Lock.SUPERVISOR && a.token > 0
    && Lists(a.hashed.serviceImages, artifact.serviceImages)
    && a.hashed == HashedFields(id, a.id, a.token, intent, a.hashed.serviceImages)
  }

  /** Everything a deployment's own rows say about each other: one digest flows from the intent to the attempt. */
  ghost predicate Local(id: Uuid, d: Deployment) {
    && Shaped(d.intent.kind, d.log) && Mirrored(d) && ValidIntent(d.intent)
    && (d.artifact.Some? ==> ArtifactAgrees(d.intent, d.artifact.value))
    && (d.acceptance.Some? ==> AcceptanceAgrees(d.intent, d.acceptance.value))
    && (d.binding.Some? ==> BindingAgrees(d.intent, d.binding.value))
    && (d.attempt.Some? ==> AttemptAgrees(id, d.intent, d.artifact.value, d.attempt.value))
  }

  // ---------------------------------------------------------------- the links between tables

  /** The request of a binding is the deployment's own, for its digest and by its requester. */
  predicate Requested(db: Db, id: Uuid, d: Deployment) {
    d.binding.Some? ==>
      var request := d.binding.value.request;
      && request in db.approvals.requests
      && var r := db.approvals.requests[request];
         r.deployment == Some(id) && r.digest == Some(d.intent.digest) && r.user == d.intent.user
  }

  /** The consumed decision is the approval of exactly that request. */
  predicate Consumed(db: Db, d: Deployment) {
    d.consumption.Some? && d.binding.Some? ==>
      var c := d.consumption.value;
      && c.request == d.binding.value.request
      && c.request in db.approvals.decisions && c.request in db.approvals.requests
      && db.approvals.decisions[c.request].id == c.decision && db.approvals.decisions[c.request].decision.Approved?
      && c.consumedAt < db.approvals.requests[c.request].expiresAt
  }

  predicate Indexed(db: Db, id: Uuid, d: Deployment) {
    && d.intent.key in db.intentKeys && db.intentKeys[d.intent.key] == id
    && (d.attempt.Some? ==> d.attempt.value.id in db.attempts && db.attempts[d.attempt.value.id] == id)
  }

  predicate Linked(db: Db, id: Uuid, d: Deployment) {
    && Indexed(db, id, d) && Genuine(db.directory, d.intent.user, d.intent.mapping) && Requested(db, id, d)
    && Consumed(db, d)
  }

  ghost predicate LocalAt(db: Db, id: Uuid) {
    id in db.deployments ==> Local(id, db.deployments[id])
  }

  predicate LinkedAt(db: Db, id: Uuid) {
    id in db.deployments ==> Linked(db, id, db.deployments[id])
  }

  predicate KeyAt(db: Db, key: string) {
    key in db.intentKeys ==>
      db.intentKeys[key] in db.deployments && db.deployments[db.intentKeys[key]].intent.key == key
  }

  predicate AttemptAt(db: Db, attempt: Uuid) {
    attempt in db.attempts ==>
      && db.attempts[attempt] in db.deployments && db.deployments[db.attempts[attempt]].attempt.Some?
      && db.deployments[db.attempts[attempt]].attempt.value.id == attempt
  }

  /** A deployment-bound request is the one its deployment's binding names. */
  predicate RequestAt(db: Db, r: Uuid) {
    r in db.approvals.requests && db.approvals.requests[r].deployment.Some? ==>
      var id := db.approvals.requests[r].deployment.value;
      id in db.deployments && db.deployments[id].binding.Some? && db.deployments[id].binding.value.request == r
  }

  predicate ActorAt(db: Db, r: Uuid) {
    r in db.approvals.decisions && db.approvals.decisions[r].mapping.Some? ==>
      Genuine(db.directory, db.approvals.decisions[r].actor, db.approvals.decisions[r].mapping.value)
  }

  /** Whatever the reader answered is a mapping of a human, and stays one. */
  predicate ResolvedAt(db: Db, found: (nat, Identity.Key)) {
    found in db.resolved ==> Genuine(db.directory, found.0, found.1)
  }

  predicate LockSound(db: Db) {
    db.lock.Some? ==>
      && Lock.Constrained(db.lock.value) && db.lock.value.owner == Lock.SUPERVISOR
      && db.lock.value.deployment in db.deployments
  }

  ghost predicate Sound(db: Db) {
    && Identity.Sound(db.directory) && Approval.Sound(db.approvals)
    && (forall id :: LocalAt(db, id))
    && (forall id :: LinkedAt(db, id))
    && (forall key :: KeyAt(db, key))
    && (forall attempt :: AttemptAt(db, attempt))
    && (forall r :: RequestAt(db, r))
    && (forall r :: ActorAt(db, r))
    && (forall found :: ResolvedAt(db, found))
    && LockSound(db)
  }

  // ---------------------------------------------------------------- append-only growth

  predicate Kept<T(==)>(before: Option<T>, after: Option<T>) {
    before.Some? ==> after == before
  }

  predicate Grown(a: Deployment, b: Deployment) {
    && b.intent == a.intent && a.log <= b.log
    && Kept(a.artifact, b.artifact) && Kept(a.acceptance, b.acceptance) && Kept(a.binding, b.binding)
    && Kept(a.consumption, b.consumption) && Kept(a.attempt, b.attempt)
  }

  predicate DeploymentKept(a: Db, b: Db, id: Uuid) {
    id in a.deployments ==> id in b.deployments && Grown(a.deployments[id], b.deployments[id])
  }

  predicate PrincipalKept(a: Identity.Directory, b: Identity.Directory, p: nat) {
    p in a.principals ==> p in b.principals && b.principals[p] == a.principals[p]
  }

  predicate MappingKept(a: Identity.Directory, b: Identity.Directory, k: Identity.Key) {
    k in a.rows ==> k in b.rows && b.rows[k].principal == a.rows[k].principal
  }

  ghost predicate DirectoryGrown(a: Identity.Directory, b: Identity.Directory) {
    (forall p :: PrincipalKept(a, b, p)) && forall k :: MappingKept(a, b, k)
  }

  predicate RequestKept(a: Approval.Approvals, b: Approval.Approvals, r: Uuid) {
    r in a.requests ==> r in b.requests && b.requests[r] == a.requests[r]
  }

  predicate DecisionKept(a: Approval.Approvals, b: Approval.Approvals, r: Uuid) {
    r in a.decisions ==> r in b.decisions && b.decisions[r] == a.decisions[r]
  }

  ghost predicate ApprovalsGrown(a: Approval.Approvals, b: Approval.Approvals) {
    (forall r :: RequestKept(a, b, r)) && forall r :: DecisionKept(a, b, r)
  }

  predicate KeyKept(a: Db, b: Db, key: string) {
    key in a.intentKeys ==> key in b.intentKeys && b.intentKeys[key] == a.intentKeys[key]
  }

  predicate AttemptKept(a: Db, b: Db, attempt: Uuid) {
    attempt in a.attempts ==> attempt in b.attempts && b.attempts[attempt] == a.attempts[attempt]
  }

  ghost predicate IndexesGrown(a: Db, b: Db) {
    (forall key :: KeyKept(a, b, key)) && forall attempt :: AttemptKept(a, b, attempt)
  }

  /** Rows are only ever added, except the lock row and the closing of a mapping. */
  ghost predicate Extends(a: Db, b: Db) {
    && (forall id :: DeploymentKept(a, b, id))
    && DirectoryGrown(a.directory, b.directory) && ApprovalsGrown(a.approvals, b.approvals) && IndexesGrown(a, b)
    && a.clock <= b.clock
  }

  lemma GenuineGrows(a: Identity.Directory, b: Identity.Directory, user: nat, mapping: Identity.Key)
    requires Genuine(a, user, mapping) && DirectoryGrown(a, b)
    ensures Genuine(b, user, mapping)
  {
    assert MappingKept(a, b, mapping) && PrincipalKept(a, b, a.rows[mapping].principal);
  }

  lemma LinkedGrows(a: Db, b: Db, id: Uuid, d: Deployment)
    requires Linked(a, id, d)
    requires DirectoryGrown(a.directory, b.directory) && ApprovalsGrown(a.approvals, b.approvals) && IndexesGrown(a, b)
    ensures Linked(b, id, d)
  {
    GenuineGrows(a.directory, b.directory, d.intent.user, d.intent.mapping);
    assert KeyKept(a, b, d.intent.key);
    assert d.attempt.Some? ==> AttemptKept(a, b, d.attempt.value.id);
    if d.binding.Some? {
      assert RequestKept(a.approvals, b.approvals, d.binding.value.request);
      assert DecisionKept(a.approvals, b.approvals, d.binding.value.request);
    }
  }

  /** A transaction outside the deployment tables: it only adds, and binds no request to a deployment. */
  lemma OutsideKeeps(a: Db, b: Db)
    requires Sound(a) && Identity.Sound(b.directory) && Approval.Sound(b.approvals) && LockSound(b)
    requires b == a.(approvals := b.approvals, directory := b.directory, lock := b.lock, clock := b.clock)
    requires DirectoryGrown(a.directory, b.directory) && ApprovalsGrown(a.approvals, b.approvals) && a.clock <= b.clock
    requires forall r | r in b.approvals.requests && r !in a.approvals.requests ::
      b.approvals.requests[r].deployment.None?
    requires forall r | r in b.approvals.decisions && r !in a.approvals.decisions :: ActorAt(b, r)
    ensures Sound(b) && Extends(a, b)
  {
    forall id ensures LocalAt(b, id) {
      assert LocalAt(a, id);
    }
    forall id ensures LinkedAt(b, id) {
      assert LinkedAt(a, id);
      if id in a.deployments {
        LinkedGrows(a, b, id, a.deployments[id]);
      }
    }
    forall key ensures KeyAt(b, key) {
      assert KeyAt(a, key);
    }
    forall attempt ensures AttemptAt(b, attempt) {
      assert AttemptAt(a, attempt);
    }
    forall r ensures RequestAt(b, r) {
      assert RequestAt(a, r) && RequestKept(a.approvals, b.approvals, r);
    }
    forall r ensures ActorAt(b, r) {
      ActorGrows(a, b, r);
    }
    forall found ensures ResolvedAt(b, found) {
      assert ResolvedAt(a, found);
      if found in a.resolved {
        GenuineGrows(a.directory, b.directory, found.0, found.1);
      }
    }
  }

  lemma ActorGrows(a: Db, b: Db, r: Uuid)
    requires ActorAt(a, r) && DirectoryGrown(a.directory, b.directory) && DecisionKept(a.approvals, b.approvals, r)
    requires r in b.approvals.decisions && r !in a.approvals.decisions ==> ActorAt(b, r)
    ensures ActorAt(b, r)
  {
    if r in a.approvals.decisions && a.approvals.decisions[r].mapping.Some? {
      GenuineGrows(a.directory, b.directory, a.approvals.decisions[r].actor, a.approvals.decisions[r].mapping.value);
    }
  }

  /** A request that is new, or stays as it was, or is bound to the one deployment that changed. */
  predicate RequestFor(a: Db, b: Db, id: Uuid, r: Uuid) {
    r in b.approvals.requests ==>
      || (r in a.approvals.requests && b.approvals.requests[r] == a.approvals.requests[r])
      || (b.approvals.requests[r].deployment == Some(id) && id in b.deployments && b.deployments[id].binding.Some?
          && b.deployments[id].binding.value.request == r)
  }

  lemma OtherDeploymentsKeep(a: Db, b: Db, id: Uuid)
    requires Sound(a) && id in b.deployments && b.deployments == a.deployments[id := b.deployments[id]]
    requires b.directory == a.directory && b.approvals.decisions == a.approvals.decisions
    requires DeploymentKept(a, b, id) && LocalAt(b, id) && LinkedAt(b, id) && IndexesGrown(a, b)
    requires forall r :: RequestKept(a.approvals, b.approvals, r)
    ensures DirectoryGrown(a.directory, b.directory) && ApprovalsGrown(a.approvals, b.approvals)
    ensures forall other :: LocalAt(b, other)
    ensures forall other :: LinkedAt(b, other)
    ensures forall other :: DeploymentKept(a, b, other)
  {
    forall other ensures LocalAt(b, other) && DeploymentKept(a, b, other) {
      assert LocalAt(a, other);
    }
    forall other ensures LinkedAt(b, other) {
      assert LinkedAt(a, other);
      if other != id && other in a.deployments {
        LinkedGrows(a, b, other, a.deployments[other]);
      }
    }
  }

  lemma OtherRowsKeep(a: Db, b: Db, id: Uuid)
    requires Sound(a) && id in b.deployments && b.deployments == a.deployments[id := b.deployments[id]]
    requires b.directory == a.directory && b.resolved == a.resolved
    requires b.approvals.decisions == a.approvals.decisions
    requires forall other :: DeploymentKept(a, b, other)
    requires IndexesGrown(a, b) && forall r :: RequestFor(a, b, id, r)
    requires forall key | key in b.intentKeys :: key in a.intentKeys || KeyAt(b, key)
    requires forall attempt | attempt in b.attempts :: attempt in a.attempts || AttemptAt(b, attempt)
    ensures (forall key :: KeyAt(b, key)) && (forall attempt :: AttemptAt(b, attempt))
    ensures (forall r :: RequestAt(b, r)) && (forall r :: ActorAt(b, r)) && forall found :: ResolvedAt(b, found)
  {
    forall key ensures KeyAt(b, key) {
      assert KeyAt(a, key) && KeyKept(a, b, key);
      assert key in a.intentKeys ==> DeploymentKept(a, b, a.intentKeys[key]);
    }
    forall attempt ensures AttemptAt(b, attempt) {
      assert AttemptAt(a, attempt) && AttemptKept(a, b, attempt);
      assert attempt in a.attempts ==> DeploymentKept(a, b, a.attempts[attempt]);
    }
    forall r ensures RequestAt(b, r) {
      assert RequestAt(a, r) && RequestFor(a, b, id, r);
      assert r in a.approvals.requests && a.approvals.requests[r].deployment.Some? ==>
        DeploymentKept(a, b, a.approvals.requests[r].deployment.value);
    }
    forall r ensures ActorAt(b, r) {
      assert ActorAt(a, r);
    }
    forall found ensures ResolvedAt(b, found) {
      assert ResolvedAt(a, found);
    }
  }

  /** A transaction that adds or extends one deployment. */
  lemma OneDeploymentKeeps(a: Db, b: Db, id: Uuid)
    requires Sound(a) && id in b.deployments && b.deployments == a.deployments[id := b.deployments[id]]
    requires b.directory == a.directory && b.resolved == a.resolved && b.lock == a.lock && b.clock == a.clock
    requires DeploymentKept(a, b, id) && LocalAt(b, id) && LinkedAt(b, id)
    requires Approval.Sound(b.approvals) && b.approvals.decisions == a.approvals.decisions
    requires (forall r :: RequestKept(a.approvals, b.approvals, r)) && forall r :: RequestFor(a, b, id, r)
    requires IndexesGrown(a, b)
    requires forall key | key in b.intentKeys :: key in a.intentKeys || KeyAt(b, key)
    requires forall attempt | attempt in b.attempts :: attempt in a.attempts || AttemptAt(b, attempt)
    ensures Sound(b) && Extends(a, b)
  {
    OtherDeploymentsKeep(a, b, id);
    OtherRowsKeep(a, b, id);
  }

  // ---------------------------------------------------------------- each transaction

  lemma IdentityGrows(d: Identity.Directory, change: Identity.Step)
    requires Identity.Sound(d) && Identity.Apply(d, change).Success?
    ensures DirectoryGrown(d, Identity.Apply(d, change).value)
  {
    if change.Assigning? {
      assert Identity.History(d, change.subject);
    }
  }

  lemma DirectoryKeeps(db: Db, change: Identity.Step)
    requires Sound(db)
    ensures Sound(Apply(db, ChangeDirectory(change))) && Extends(db, Apply(db, ChangeDirectory(change)))
  {
    var after := Apply(db, ChangeDirectory(change));
    Identity.LeadsKeeps(db.directory, after.directory, change);
    if Identity.Apply(db.directory, change).Success? {
      IdentityGrows(db.directory, change);
    }
    OutsideKeeps(db, after);
  }

  /** A database that differs in nothing but the answers of the reader. */
  lemma AnswersKeep(a: Db, b: Db)
    requires Sound(a) && b == a.(resolved := b.resolved) && forall found :: ResolvedAt(b, found)
    ensures Sound(b) && Extends(a, b)
  {
    forall id ensures LocalAt(b, id) {
      assert LocalAt(a, id);
    }
    forall id ensures LinkedAt(b, id) {
      assert LinkedAt(a, id);
    }
    forall key ensures KeyAt(b, key) {
      assert KeyAt(a, key);
    }
    forall attempt ensures AttemptAt(b, attempt) {
      assert AttemptAt(a, attempt);
    }
    forall r ensures RequestAt(b, r) && ActorAt(b, r) {
      assert RequestAt(a, r) && ActorAt(a, r);
    }
  }

  lemma ResolveKeeps(db: Db, subject: Identity.Subject)
    requires Sound(db)
    ensures Sound(Resolve(db, subject)) && Extends(db, Resolve(db, subject))
  {
    var after := Resolve(db, subject);
    forall found ensures ResolvedAt(after, found) {
      assert ResolvedAt(db, found) && Identity.History(db.directory, subject);
    }
    AnswersKeep(db, after);
  }

  /** An update that leaves intent, binding, consumption and attempt of one deployment alone. */
  lemma LocalUpdateKeeps(db: Db, id: Uuid, d: Deployment)
    requires Sound(db) && id in db.deployments && Local(id, d) && Grown(db.deployments[id], d)
    requires var was := db.deployments[id];
      d.binding == was.binding && d.consumption == was.consumption && d.attempt == was.attempt
    ensures Sound(Put(db, id, d)) && Extends(db, Put(db, id, d))
  {
    assert LinkedAt(db, id);
    OneDeploymentKeeps(db, Put(db, id, d), id);
  }

  /** A legal append to a shaped log, spelled out. */
  lemma ShapedAppend(kind: Kind, log: seq<DeployState>, to: DeployState)
    requires Shaped(kind, log) && Legal(At(log), to)
    requires to.StagingDeploying? || to.ArtifactRecorded? || to.StagingValidated? || to.StagingFailed?
      || to == PendingState(kind) || to == DeployingState(kind)
    ensures Shaped(kind, log + [to]) && |log| == Rank(Some(to)) - 1
  {
    assert At(log) == Some(log[|log| - 1]);
  }

  lemma RecordArtifactKeeps(
    db: Db, id: Uuid, repository: string, targetSha: string, digest: string, image: string, run: nat, ci: CiEvidence)
    requires Sound(db) && RecordArtifact(db, id, repository, targetSha, digest, image, run, ci).Success?
    ensures var after := RecordArtifact(db, id, repository, targetSha, digest, image, run, ci).value;
      after == db || (Sound(after) && Extends(db, after))
  {
    var after := RecordArtifact(db, id, repository, targetSha, digest, image, run, ci).value;
    if after != db {
      var d := db.deployments[id];
      assert LocalAt(db, id);
      ShapedAppend(d.intent.kind, d.log, ArtifactRecorded);
      assert ArtifactAgrees(d.intent, after.deployments[id].artifact.value);
      LocalUpdateKeeps(db, id, after.deployments[id]);
    }
  }

  lemma StagingStateKeeps(db: Db, id: Uuid, to: DeployState)
    requires Sound(db) && id in db.deployments && Append(db.deployments[id], to).Success?
    requires to.StagingDeploying? || to.StagingFailed?
    ensures var after := Put(db, id, Append(db.deployments[id], to).value); Sound(after) && Extends(db, after)
  {
    var d := db.deployments[id];
    assert LocalAt(db, id);
    ShapedAppend(d.intent.kind, d.log, to);
    LocalUpdateKeeps(db, id, d.(log := d.log + [to]));
  }

  lemma AcceptStagingKeeps(db: Db, id: Uuid, s: Staged, validity: int, now: int)
    requires Sound(db) && AcceptStaging(db, id, s, validity, now).Success?
    ensures var after := AcceptStaging(db, id, s, validity, now).value;
      after == db || (Sound(after) && Extends(db, after))
  {
    var after := AcceptStaging(db, id, s, validity, now).value;
    if after != db {
      var d := db.deployments[id];
      assert LocalAt(db, id);
      ShapedAppend(d.intent.kind, d.log, StagingValidated);
      assert AcceptanceAgrees(d.intent, after.deployments[id].acceptance.value);
      LocalUpdateKeeps(db, id, after.deployments[id]);
    }
  }

  lemma IntentValid(resolved: (nat, nat, Identity.Key), f: Fields)
    requires ValidFields(f)
    ensures ValidIntent(IntentOf(resolved, f))
  {
    assert f.services[0] in IntentOf(resolved, f).services;
  }

  lemma CreateIntentKeeps(db: Db, id: Uuid, requester: Identity.Subject, f: Fields)
    requires Sound(db) && CreateIntent(db, id, requester, f).Success?
    ensures var after := CreateIntent(db, id, requester, f).value;
      after == db || (Sound(after) && Extends(db, after))
  {
    var after := CreateIntent(db, id, requester, f).value;
    if after != db {
      var resolved := Identity.Resolve(db.directory, requester).value;
      IntentValid(resolved, f);
      assert after.deployments[id].log == [IntentCreated];
      assert LinkedAt(after, id) by {
        assert Identity.History(db.directory, requester);
      }
      OneDeploymentKeeps(db, after, id);
    }
  }

  lemma BindLocal(db: Db, id: Uuid, request: Uuid, key: string, ttl: int, now: int)
    requires Sound(db) && BindApproval(db, id, request, key, ttl, now).Success?
    requires id in db.deployments && db.deployments[id].binding.None?
    ensures var after := BindApproval(db, id, request, key, ttl, now).value;
      LocalAt(after, id) && LinkedAt(after, id)
  {
    var d := db.deployments[id];
    assert LocalAt(db, id) && LinkedAt(db, id);
    ShapedAppend(d.intent.kind, d.log, PendingState(d.intent.kind));
  }

  lemma BindApprovalKeeps(db: Db, id: Uuid, request: Uuid, key: string, ttl: int, now: int)
    requires Sound(db) && BindApproval(db, id, request, key, ttl, now).Success?
    ensures var after := BindApproval(db, id, request, key, ttl, now).value;
      after == db || (Sound(after) && Extends(db, after))
  {
    var after := BindApproval(db, id, request, key, ttl, now).value;
    if db.deployments[id].binding.None? {
      BindLocal(db, id, request, key, ttl, now);
      Approval.InsertKeeps(db.approvals, request, BoundRequest(id, db.deployments[id].intent, key, ttl, now));
      OneDeploymentKeeps(db, after, id);
    }
  }

  lemma StartLocal(db: Db, id: Uuid, attempt: Uuid, owner: string, token: nat, images: seq<Item>, now: int)
    requires Sound(db) && Timely(db, Starting(id, attempt, owner, token, images, now))
    requires Start(db, id, attempt, owner, token, images, now).Success?
    requires id in db.deployments && db.deployments[id].attempt.None?
    ensures var after := Start(db, id, attempt, owner, token, images, now).value;
      LocalAt(after, id) && LinkedAt(after, id)
  {
    var d := db.deployments[id];
    assert LocalAt(db, id) && LinkedAt(db, id);
    ShapedAppend(d.intent.kind, d.log, DeployingState(d.intent.kind));
  }

  lemma StartKeeps(db: Db, id: Uuid, attempt: Uuid, owner: string, token: nat, images: seq<Item>, now: int)
    requires Sound(db) && Timely(db, Starting(id, attempt, owner, token, images, now))
    requires Start(db, id, attempt, owner, token, images, now).Success?
    ensures var after := Start(db, id, attempt, owner, token, images, now).value;
      after == db || (Sound(after) && Extends(db, after))
  {
    var after := Start(db, id, attempt, owner, token, images, now).value;
    if db.deployments[id].attempt.None? {
      StartLocal(db, id, attempt, owner, token, images, now);
      assert LocalAt(db, id);
      OneDeploymentKeeps(db, after, id);
    }
  }

  lemma RequestKeeps(db: Db, request: Uuid, r: Approval.Request, ttl: int, now: int)
    requires Sound(db) && Approval.CreateRequest(db.approvals, request, r, ttl, now).Success?
    ensures var after := db.(approvals := Approval.CreateRequest(db.approvals, request, r, ttl, now).value);
      Sound(after) && Extends(db, after)
  {
    var after := db.(approvals := Approval.CreateRequest(db.approvals, request, r, ttl, now).value);
    if after.approvals != db.approvals {
      Approval.InsertKeeps(
        db.approvals, request, r.(deployment := None, digest := None, requestedAt := now, expiresAt := now + ttl));
    }
    OutsideKeeps(db, after);
  }

  lemma DecisionKeeps(db: Db, call: Approval.Call, decision: nat, now: int)
    requires Sound(db)
    requires call.mapping.Some? ==> Genuine(db.directory, call.actor, call.mapping.value)
    ensures var after := db.(approvals := Approval.Record(db.approvals, call, decision, now).0);
      Sound(after) && Extends(db, after)
  {
    Approval.RecordKeeps(db.approvals, call, decision, now);
    Approval.RecordsExactly(db.approvals, call, decision, now);
    OutsideKeeps(db, db.(approvals := Approval.Record(db.approvals, call, decision, now).0));
  }

  lemma DecideKeeps(db: Db, call: Approval.Call, decision: nat, now: int)
    requires Sound(db) && Timely(db, Deciding(call, decision, now))
    ensures var after := Apply(db, Deciding(call, decision, now)); Sound(after) && Extends(db, after)
  {
    if call.mapping.Some? {
      assert ResolvedAt(db, (call.actor, call.mapping.value));
    }
    DecisionKeeps(db, call, decision, now);
  }

  lemma LockKeeps(db: Db, change: Lock.Step)
    requires Sound(db)
    ensures Sound(ChangeLock(db, change)) && Extends(db, ChangeLock(db, change))
  {
    LockStaysSound(db, change);
    OutsideKeeps(db, ChangeLock(db, change));
  }

  lemma LockStaysSound(db: Db, change: Lock.Step)
    requires LockSound(db)
    ensures LockSound(ChangeLock(db, change))
  {
  }

  lemma TickKeeps(db: Db, seconds: nat)
    requires Sound(db)
    ensures Sound(db.(clock := db.clock + seconds)) && Extends(db, db.(clock := db.clock + seconds))
  {
    OutsideKeeps(db, db.(clock := db.clock + seconds));
  }

  lemma NothingKeeps(db: Db)
    ensures Extends(db, db)
  {
  }

  lemma StepKeeps(db: Db, step: Step)
    requires Sound(db) && Timely(db, step)
    ensures Sound(Apply(db, step)) && Extends(db, Apply(db, step))
  {
    NothingKeeps(db);
    if Apply(db, step) != db {
      match step
      case Tick(seconds) => TickKeeps(db, seconds);
      case ChangeDirectory(change) => DirectoryKeeps(db, change);
      case Resolving(subject) => ResolveKeeps(db, subject);
      case CreatingIntent(id, requester, fields) => CreateIntentKeeps(db, id, requester, fields);
      case RecordingArtifact(id, repository, targetSha, digest, image, run, ci) =>
        RecordArtifactKeeps(db, id, repository, targetSha, digest, image, run, ci);
      case BeginningStaging(id) => StagingStateKeeps(db, id, StagingDeploying);
      case FailingStaging(id) => StagingStateKeeps(db, id, StagingFailed);
      case AcceptingStaging(id, staged, validity, now) => AcceptStagingKeeps(db, id, staged, validity, now);
      case BindingApproval(id, request, key, ttl, now) => BindApprovalKeeps(db, id, request, key, ttl, now);
      case Requesting(request, asked, ttl, now) => RequestKeeps(db, request, asked, ttl, now);
      case Deciding(call, decision, now) => DecideKeeps(db, call, decision, now);
      case Locking(operation) => LockKeeps(db, operation);
      case Starting(id, attempt, owner, token, images, now) => StartKeeps(db, id, attempt, owner, token, images, now);
    }
  }

  // ---------------------------------------------------------------- runs

  ghost predicate Next(a: Db, b: Db, step: Step) {
    Identity.Indexed(a.directory) && Timely(a, step) && b == Apply(a, step)
  }

  lemma NextKeeps(a: Db, b: Db, step: Step)
    requires Sound(a) && Next(a, b, step)
    ensures Sound(b) && Extends(a, b)
  {
    StepKeeps(a, step);
  }

  /** A path of transactions from any database. */
  ghost predicate Path(trace: seq<Db>, steps: seq<Step>) {
    |trace| == |steps| + 1 && forall k :: StepAt(trace, steps, k)
  }

  ghost predicate StepAt(trace: seq<Db>, steps: seq<Step>, k: int)
    requires |trace| == |steps| + 1
  {
    0 <= k < |steps| ==> Next(trace[k], trace[k + 1], steps[k])
  }

  ghost predicate Run(trace: seq<Db>, steps: seq<Step>, start: int) {
    Path(trace, steps) && trace[0] == Empty(start)
  }

  lemma {:induction false} PathSound(trace: seq<Db>, steps: seq<Step>, k: nat)
    requires Path(trace, steps) && Sound(trace[0]) && k < |trace|
    ensures Sound(trace[k])
  {
    if k > 0 {
      PathSound(trace, steps, k - 1);
      assert StepAt(trace, steps, k - 1);
      NextKeeps(trace[k - 1], trace[k], steps[k - 1]);
    }
  }

  /** Every database that any run of transactions reaches satisfies the coupled invariant. */
  lemma RunSound(trace: seq<Db>, steps: seq<Step>, start: int, k: nat)
    requires Run(trace, steps, start) && k < |trace|
    ensures Sound(trace[k])
  {
    EmptySound(start);
    PathSound(trace, steps, k);
  }

  lemma EmptySound(start: int)
    ensures Sound(Empty(start))
  {
    Identity.SoundEmpty();
  }

  lemma PathStepExtends(trace: seq<Db>, steps: seq<Step>, k: nat)
    requires Path(trace, steps) && Sound(trace[0]) && k < |steps|
    ensures Extends(trace[k], trace[k + 1])
  {
    PathSound(trace, steps, k);
    assert StepAt(trace, steps, k);
    NextKeeps(trace[k], trace[k + 1], steps[k]);
  }

  lemma {:induction false} PathExtends(trace: seq<Db>, steps: seq<Step>, i: nat, j: nat)
    requires Path(trace, steps) && Sound(trace[0]) && i <= j < |trace|
    ensures Extends(trace[i], trace[j])
  {
    if i < j {
      PathExtends(trace, steps, i, j - 1);
      PathStepExtends(trace, steps, j - 1);
      ExtendsTransitive(trace[i], trace[j - 1], trace[j]);
    } else {
      NothingKeeps(trace[i]);
    }
  }

  /** The tables are append-only: between any two moments of a run rows only appear, logs only grow at the end, and
      no committed row changes. */
  lemma RunExtends(trace: seq<Db>, steps: seq<Step>, start: int, i: nat, j: nat)
    requires Run(trace, steps, start) && i <= j < |trace|
    ensures Extends(trace[i], trace[j])
  {
    EmptySound(start);
    PathExtends(trace, steps, i, j);
  }

  /** Some path of transactions leads from one database to the other. */
  ghost predicate Leads(a: Db, b: Db) {
    exists trace, steps :: Path(trace, steps) && trace[0] == a && trace[|steps|] == b
  }

  lemma LeadsNowhere(a: Db)
    ensures Leads(a, a)
  {
    assert Path([a], []);
  }

  lemma LeadsOn(a: Db, b: Db, step: Step)
    requires Leads(a, b) && Identity.Indexed(b.directory) && Timely(b, step)
    ensures Leads(a, Apply(b, step))
  {
    var trace, steps :| Path(trace, steps) && trace[0] == a && trace[|steps|] == b;
    LongerPath(trace, steps, Apply(b, step), step);
    var longer, more := trace + [Apply(b, step)], steps + [step];
    assert Path(longer, more) && longer[0] == a && longer[|more|] == Apply(b, step);
  }

  lemma LeadsExtends(a: Db, b: Db)
    requires Sound(a) && Leads(a, b)
    ensures Extends(a, b)
  {
    var trace, steps :| Path(trace, steps) && trace[0] == a && trace[|steps|] == b;
    PathExtends(trace, steps, 0, |steps|);
  }

  lemma LongerPath(trace: seq<Db>, steps: seq<Step>, next: Db, step: Step)
    requires Path(trace, steps) && Next(trace[|steps|], next, step)
    ensures Path(trace + [next], steps + [step])
  {
    var longer, more := trace + [next], steps + [step];
    forall k ensures StepAt(longer, more, k) {
      assert StepAt(trace, steps, k);
    }
  }

  lemma ExtendsTransitive(a: Db, b: Db, c: Db)
    requires Extends(a, b) && Extends(b, c)
    ensures Extends(a, c)
  {
    forall id ensures DeploymentKept(a, c, id) {
      assert DeploymentKept(a, b, id) && DeploymentKept(b, c, id);
    }
    forall p ensures PrincipalKept(a.directory, c.directory, p) {
      assert PrincipalKept(a.directory, b.directory, p) && PrincipalKept(b.directory, c.directory, p);
    }
    forall k ensures MappingKept(a.directory, c.directory, k) {
      assert MappingKept(a.directory, b.directory, k) && MappingKept(b.directory, c.directory, k);
    }
    forall r ensures RequestKept(a.approvals, c.approvals, r) && DecisionKept(a.approvals, c.approvals, r) {
      assert RequestKept(a.approvals, b.approvals, r) && RequestKept(b.approvals, c.approvals, r);
      assert DecisionKept(a.approvals, b.approvals, r) && DecisionKept(b.approvals, c.approvals, r);
    }
    forall key ensures KeyKept(a, c, key) {
      assert KeyKept(a, b, key) && KeyKept(b, c, key);
    }
    forall attempt ensures AttemptKept(a, c, attempt) {
      assert AttemptKept(a, b, attempt) && AttemptKept(b, c, attempt);
    }
  }

  /** Rows mirror the log: in every reachable database each deployment's log is a legal chain of at most six states,
      a row exists exactly when the log contains its state, no log contains a state of the other kind, and none has
      come to an outcome, so that no deployment can ever be linked as the failed one of a rollback. */
  lemma RowsMirrorTheLog(trace: seq<Db>, steps: seq<Step>, start: int, k: nat, id: Uuid)
    requires Run(trace, steps, start) && k < |trace| && id in trace[k].deployments
    ensures var d := trace[k].deployments[id];
      && Chain(d.log) && 1 <= |d.log| <= 6
      && (d.artifact.Some? <==> ArtifactRecorded in d.log)
      && (d.acceptance.Some? <==> StagingValidated in d.log)
      && (d.binding.Some? <==> PendingState(d.intent.kind) in d.log)
      && (d.consumption.Some? <==> DeployingState(d.intent.kind) in d.log)
      && (d.attempt.Some? <==> DeployingState(d.intent.kind) in d.log)
      && (forall state <- d.log :: if d.intent.kind.Deploy? then !IsRollbackState(state) else !IsDeployState(state))
      && forall state <- d.log :: !IsOutcome(state)
  {
    RunSound(trace, steps, start, k);
    assert LocalAt(trace[k], id);
    var d := trace[k].deployments[id];
    ShapedChain(d.intent.kind, d.log);
    ShapedStates(d.intent.kind, d.log);
  }

  lemma ShapedStates(kind: Kind, log: seq<DeployState>)
    requires Shaped(kind, log)
    ensures ArtifactRecorded in log <==> |log| >= 2
    ensures StagingValidated in log <==> Validated(log)
    ensures PendingState(kind) in log <==> |log| >= 5
    ensures DeployingState(kind) in log <==> |log| == 6
    ensures forall state <- log :: if kind.Deploy? then !IsRollbackState(state) else !IsDeployState(state)
    ensures forall state <- log :: !IsOutcome(state)
  {
    assert |log| > 1 ==> log[1] in log;
    assert |log| > 3 ==> log[3] in log;
    assert |log| > 4 ==> log[4] in log;
    assert |log| > 5 ==> log[5] in log;
  }

  lemma ShapedChain(kind: Kind, log: seq<DeployState>)
    requires Shaped(kind, log)
    ensures Chain(log)
  {
    forall k | 0 <= k < |log| ensures Legal(At(log[..k]), log[k]) {
      if k > 0 {
        assert At(log[..k]) == Some(log[k - 1]);
      }
    }
  }
}
