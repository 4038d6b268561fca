/** The deployment tables and the service functions on them, each function one transaction: it either commits the
    rows it adds or fails and leaves the database as it was. */
module DeploymentService {
  import opened Wrappers
  import opened UuidText
  import opened CanonicalJson
  import opened DeployStates
  import opened ArtifactPolicy
  import Health = HealthContract
  import Identity = IdentityHistory
  import Approval = ApprovalService
  import Lock = ProductionLock
  import Intents = IntentHash

  // ---------------------------------------------------------------- rows

  datatype Kind = Deploy | Rollback

  datatype Risk = NoRisk | Low | Medium | High

  datatype Intent = Intent(
    user: nat,
    principal: nat,
    mapping: Identity.Key,
    kind: Kind,
    repository: string,
    targetSha: string,
    digest: string,
    services: set<Health.Service>,
    risk: Risk,
    revision: Option<string>,
    runbook: Option<string>,
    config: string,
    key: string)

  /** What the CI verifier reports; `conclusive` sums up the tests of _valid_verified_ci that compare with constants. */
  datatype CiEvidence = CiEvidence(repository: string, targetSha: string, run: nat, conclusive: bool, verifiedAt: int)

  datatype Artifact = Artifact(
    repository: string,
    targetSha: string,
    digest: string,
    image: string,
    serviceImages: map<Health.Service, string>,
    ci: CiEvidence)

  datatype Acceptance = Acceptance(
    repository: string,
    targetSha: string,
    digest: string,
    suite: string,
    config: string,
    acceptedBy: string,
    completedAt: int,
    validUntil: int)

  datatype Binding = Binding(
    request: Uuid, repository: string, targetSha: string, action: Approval.Action, digest: string, requester: nat)

  datatype Consumption = Consumption(request: Uuid, decision: nat, consumedAt: int)

  /** `hashed` is what the stored intent hash was computed from. */
  datatype Attempt = Attempt(id: Uuid, executor: string, token: nat, hashed: Intents.Bound)

  /** An intent with the rows of the tables in which its deployment id is unique, and with its state events. */
  datatype Deployment = Deployment(
    intent: Intent,
    log: seq<DeployState>,
    artifact: Option<Artifact>,
    acceptance: Option<Acceptance>,
    binding: Option<Binding>,
    consumption: Option<Consumption>,
    attempt: Option<Attempt>)

  /** `attempts` and `intentKeys` are the indexes of the attempts' ids and of the intents' idempotency keys; `resolved`
      is no table but what the identity reader has answered so far, which its callers may act on at any later time. */
  datatype Db = Db(
    deployments: map<Uuid, Deployment>,
    intentKeys: map<string, Uuid>,
    attempts: map<Uuid, Uuid>,
    approvals: Approval.Approvals,
    lock: Option<Lock.Lock>,
    directory: Identity.Directory,
    resolved: set<(nat, Identity.Key)>,
    clock: int)

  function Empty(start: int): Db {
    Db(map[], map[], map[], Approval.NO_APPROVALS, None, Identity.EMPTY, {}, start)
  }

  function ActionOf(kind: Kind): Approval.Action {
    if kind.Deploy? then Approval.ProductionDeploy else Approval.RollbackProduction
  }

  function PendingState(kind: Kind): DeployState {
    if kind.Deploy? then ProductionApprovalPending else RollbackApprovalPending
  }

  function DeployingState(kind: Kind): DeployState {
    if kind.Deploy? then ProductionDeploying else RollbackDeploying
  }

  /** _append_state_event on the log that the intent's row lock protects. */
  function Append(d: Deployment, to: DeployState): Result<Deployment, string> {
    if Legal(At(d.log), to) then Success(d.(log := d.log + [to])) else Failure("illegal deployment transition")
  }

  function Put(db: Db, id: Uuid, d: Deployment): Db {
    db.(deployments := db.deployments[id := d])
  }

  // ---------------------------------------------------------------- intent, artifact, staging

  datatype Fields = Fields(
    kind: Kind,
    repository: string,
    targetSha: string,
    digest: string,
    services: seq<Health.Service>,
    risk: Risk,
    revision: Option<string>,
    runbook: Option<string>,
    config: string,
    key: string)

  predicate Present(text: Option<string>) {
    text.Some? && text.value != ""
  }

  /** _validate_intent_fields. */
  predicate ValidFields(f: Fields) {
    && ValidRepository(f.repository) && ValidSha(f.targetSha) && ValidDigest(f.digest) && ValidDigest(f.config)
    && ValidKey(f.key)
    && !f.risk.High? && (f.risk.Medium? ==> Present(f.revision) && Present(f.runbook))
    && ValidServices(f.services)
  }

  function IntentOf(resolved: (nat, nat, Identity.Key), f: Fields): Intent {
    Intent(resolved.0, resolved.1, resolved.2, f.kind, f.repository, f.targetSha, f.digest, (set s | s in f.services),
           f.risk, f.revision, f.runbook, f.config, f.key)
  }

  /** create_deployment_intent. */
  function CreateIntent(db: Db, id: Uuid, requester: Identity.Subject, f: Fields): Result<Db, string>
    requires Identity.Indexed(db.directory)
  {
    var resolved := Identity.Resolve(db.directory, requester);
    if resolved.Failure? then Failure("unknown_or_ambiguous_requester_identity")
    else if !ValidFields(f) then Failure("invalid_intent")
    else
      var intent := IntentOf(resolved.value, f);
      if f.key in db.intentKeys then
        var existing := db.intentKeys[f.key];
        if existing in db.deployments && db.deployments[existing].intent == intent then Success(db)
        else Failure("deployment idempotency conflict")
      else if id in db.deployments then Failure("unique_violation")
      else
        var created := Append(Deployment(intent, [], None, None, None, None, None), IntentCreated);
        if created.Failure? then Failure(created.error)
        else Success(Put(db, id, created.value).(intentKeys := db.intentKeys[f.key := id]))
  }

  predicate ValidCi(ci: CiEvidence, repository: string, targetSha: string, run: nat) {
    ci.conclusive && ci.repository == repository && ci.targetSha == targetSha && ci.run == run
  }

  function ArtifactOf(
    intent: Intent, repository: string, targetSha: string, digest: string, image: string, ci: CiEvidence)
    : Artifact
  {
    Artifact(repository, targetSha, digest, image, map s | s in intent.services :: image, ci)
  }

  predicate SameArtifact(a: Artifact, b: Artifact) {
    a.(ci := a.ci.(verifiedAt := 0)) == b.(ci := b.ci.(verifiedAt := 0))
  }

  /** record_artifact. */
  function RecordArtifact(
    db: Db, id: Uuid, repository: string, targetSha: string, digest: string, image: string, run: nat, ci: CiEvidence)
    : Result<Db, string>
  {
    if !ImmutableArtifact(digest, image) then Failure("invalid_artifact")
    else if id !in db.deployments then Failure("unknown_deployment")
    else
      var d := db.deployments[id];
      if repository != d.intent.repository || targetSha != d.intent.targetSha || digest != d.intent.digest then
        Failure("artifact_binding_mismatch")
      else if !ValidCi(ci, repository, targetSha, run) then Failure("invalid_ci_evidence")
      else
        var artifact := ArtifactOf(d.intent, repository, targetSha, digest, image, ci);
        if d.artifact.Some? then
          if SameArtifact(d.artifact.value, artifact) then Success(db) else Failure("artifact_replay_conflict")
        else
          var next := Append(d.(artifact := Some(artifact)), ArtifactRecorded);
          if next.Failure? then Failure(next.error) else Success(Put(db, id, next.value))
  }

  /** begin_staging_deployment. */
  function BeginStaging(db: Db, id: Uuid): Result<Db, string> {
    if id !in db.deployments then Failure("unknown_deployment")
    else if At(db.deployments[id].log) == Some(StagingDeploying) then Success(db)
    else
      var next := Append(db.deployments[id], StagingDeploying);
      if next.Failure? then Failure(next.error) else Success(Put(db, id, next.value))
  }

  /** record_staging_failure. */
  function FailStaging(db: Db, id: Uuid): Result<Db, string> {
    if id !in db.deployments then Failure("unknown_deployment")
    else
      var next := Append(db.deployments[id], StagingFailed);
      if next.Failure? then Failure(next.error) else Success(Put(db, id, next.value))
  }

  const MAX_VALIDITY := 86400

  datatype Staged = Staged(
    repository: string, targetSha: string, digest: string, suite: string, config: string, acceptedBy: string)

  /** record_staging_acceptance. */
  function AcceptStaging(db: Db, id: Uuid, s: Staged, validity: int, now: int): Result<Db, string> {
    if validity < 1 || validity > MAX_VALIDITY then Failure("invalid staging acceptance validity")
    else if !ValidFingerprint(s.acceptedBy) then Failure("invalid staging actor fingerprint")
    else if id !in db.deployments || db.deployments[id].artifact.None? then Failure("missing_artifact")
    else
      var d := db.deployments[id];
      if || s.repository != d.intent.repository || s.targetSha != d.intent.targetSha || s.digest != d.intent.digest
         || d.artifact.value.digest != s.digest || s.config != d.intent.config
      then Failure("staging_binding_mismatch")
      else if d.acceptance.Some? then
        var a := d.acceptance.value;
        if Staged(a.repository, a.targetSha, a.digest, a.suite, a.config, a.acceptedBy) == s then Success(db)
        else Failure("staging_acceptance_replay_conflict")
      else
        var a := Acceptance(s.repository, s.targetSha, s.digest, s.suite, s.config, s.acceptedBy, now, now + validity);
        var next := Append(d.(acceptance := Some(a)), StagingValidated);
        if next.Failure? then Failure(next.error) else Success(Put(db, id, next.value))
  }

  // ---------------------------------------------------------------- approval

  /** resolve_human: the user belongs to a human principal. */
  predicate KnownHuman(directory: Identity.Directory, user: nat) {
    exists p <- directory.principals.Keys ::
      Identity.IsHuman(directory, p) && directory.principals[p].user == Some(user)
  }

  function BoundRequest(id: Uuid, intent: Intent, key: string, ttl: int, now: int): Approval.Request {
    Approval.Request(intent.user, ActionOf(intent.kind), intent.repository, None, intent.targetSha, Approval.Production,
                     Some(id), Some(intent.digest), key, now, now + ttl)
  }

  /** create_bound_production_approval: the request, its binding and the state event in one transaction. */
  function BindApproval(db: Db, id: Uuid, request: Uuid, key: string, ttl: int, now: int): Result<Db, string> {
    if !ValidKey(key) then Failure("invalid approval idempotency key")
    else if ttl < 1 || ttl > Approval.MAX_TTL then Failure("invalid approval ttl")
    else if id !in db.deployments || db.deployments[id].artifact.None? then
      Failure("missing_immutable_deployment_intent")
    else
      var d := db.deployments[id];
      if !KnownHuman(db.directory, d.intent.user) then Failure("unknown_or_ambiguous_human_identity")
      else if d.binding.Some? then
        var bound := d.binding.value.request;
        if bound in db.approvals.requests && db.approvals.requests[bound].key == key then Success(db)
        else Failure("approval_binding_replay_conflict")
      else if key in db.approvals.requestKeys then Failure("precreated_approval_attachment_forbidden")
      else
        var inserted := Approval.Insert(db.approvals, request, BoundRequest(id, d.intent, key, ttl, now));
        var binding := Binding(
          request, d.intent.repository, d.intent.targetSha, ActionOf(d.intent.kind), d.intent.digest, d.intent.user);
        var next := Append(d.(binding := Some(binding)), PendingState(d.intent.kind));
        if inserted.Failure? then Failure(inserted.error)
        else if next.Failure? then Failure(next.error)
        else Success(Put(db, id, next.value).(approvals := inserted.value))
  }

  // ---------------------------------------------------------------- execution

  function HashedFields(id: Uuid, attempt: Uuid, token: nat, intent: Intent, images: seq<Item>): Intents.Bound {
    Intents.Bound(id, attempt, token, intent.repository, intent.targetSha, images, intent.digest, intent.revision)
  }

  /** The lock as start_production_deployment wants it. */
  predicate HoldsLock(db: Db, id: Uuid, owner: string, token: nat, now: int) {
    && db.lock.Some? && db.lock.value.deployment == id && db.lock.value.owner == owner && db.lock.value.token == token
    && db.lock.value.leaseExpiresAt > now
  }

  /** The approval as start_production_deployment wants it. */
  predicate Approves(r: Approval.Request, decision: Approval.DecisionRow, id: Uuid, intent: Intent, now: int) {
    && r.deployment == Some(id) && r.digest == Some(intent.digest) && r.expiresAt > now
    && decision.decidedAt < r.expiresAt && decision.decision.Approved? && decision.actor != intent.user
  }

  /** start_production_deployment: it consumes the approval and stores the attempt. `images` is the order in which the
      artifact's service map is read. A deployment that has an attempt is left alone. */
  function Start(db: Db, id: Uuid, attempt: Uuid, owner: string, token: nat, images: seq<Item>, now: int)
    : Result<Db, string>
  {
    if owner != Lock.SUPERVISOR then Failure("unknown_or_ambiguous_executor_identity")
    else if id !in db.deployments then Failure("unknown_deployment")
    else
      var d := db.deployments[id];
      if d.attempt.Some? then Success(db)
      else if d.binding.None? then Failure("missing_approval")
      else
        var request := d.binding.value.request;
        if || request !in db.approvals.requests || request !in db.approvals.decisions
           || !HoldsLock(db, id, owner, token, now)
        then Failure("deployment_lock_or_approval_invalid")
        else
          var decision := db.approvals.decisions[request];
          if !Approves(db.approvals.requests[request], decision, id, d.intent, now) then
            Failure("approval_binding_or_separation_invalid")
          else
            var next := Append(d, DeployingState(d.intent.kind));
            if next.Failure? then Failure(next.error)
            else if d.artifact.None? || attempt in db.attempts then Failure("concurrent_deployment_attempt")
            else
              var row := Attempt(attempt, owner, token, HashedFields(id, attempt, token, d.intent, images));
              Success(Put(db, id, next.value.(consumption := Some(Consumption(request, decision.id, now)),
                                              attempt := Some(row))).(attempts := db.attempts[attempt := id]))
  }

  // ---------------------------------------------------------------- runs

  datatype Step =
    | Tick(seconds: nat)
    | ChangeDirectory(change: Identity.Step)
    | Resolving(subject: Identity.Subject)
    | CreatingIntent(id: Uuid, requester: Identity.Subject, fields: Fields)
    | RecordingArtifact(
        id: Uuid, repository: string, targetSha: string, digest: string, image: string, run: nat, ci: CiEvidence)
    | BeginningStaging(id: Uuid)
    | FailingStaging(id: Uuid)
    | AcceptingStaging(id: Uuid, staged: Staged, validity: int, now: int)
    | BindingApproval(id: Uuid, request: Uuid, key: string, ttl: int, now: int)
    | Requesting(request: Uuid, asked: Approval.Request, ttl: int, now: int)
    | Deciding(call: Approval.Call, decision: nat, now: int)
    | Locking(operation: Lock.Step)
    | Starting(id: Uuid, attempt: Uuid, owner: string, token: nat, images: seq<Item>, now: int)

  /** The user that a mapping row stands for. Its principal is fixed when it is inserted. */
  predicate Genuine(directory: Identity.Directory, user: nat, mapping: Identity.Key) {
    && mapping in directory.rows
    && var p := directory.rows[mapping].principal;
       Identity.IsHuman(directory, p) && directory.principals[p].user == Some(user)
  }

  ghost predicate ImagesRead(db: Db, id: Uuid, images: seq<Item>) {
    id in db.deployments && db.deployments[id].artifact.Some? ==>
      Lists(images, db.deployments[id].artifact.value.serviceImages)
  }

  /** What the environment owes: clock readings may be old but not ahead of the true time, the worker passes on a user
      and a mapping that the reader gave it at some earlier moment, and the images are read from the artifact's own
      row. */
  ghost predicate Timely(db: Db, step: Step) {
    match step
    case ChangeDirectory(change) => change.Assigning? ==> change.now <= db.clock
    case AcceptingStaging(_, _, _, now) => now <= db.clock
    case BindingApproval(_, _, _, _, now) => now <= db.clock
    case Requesting(_, _, _, now) => now <= db.clock
    case Deciding(call, _, now) =>
      now <= db.clock && (call.mapping.Some? ==> (call.actor, call.mapping.value) in db.resolved)
    case Locking(change) => !change.Tick? && Lock.Timely(Lock.System(db.lock, db.clock, 0), change)
    case Starting(id, _, _, _, images, now) =>
      now <= db.clock && ImagesRead(db, id, images)
    case _ => true
  }

  /** A lock transaction; acquiring first asks whether the deployment exists. */
  function ChangeLock(db: Db, change: Lock.Step): Db {
    if change.Acquiring? && change.deployment !in db.deployments then db
    else db.(lock := Lock.Apply(Lock.System(db.lock, db.clock, 0), change).row)
  }

  /** resolve_feishu_principal, as the worker calls it before a decision on a deployment. */
  function Resolve(db: Db, subject: Identity.Subject): Db
    requires Identity.Indexed(db.directory)
  {
    match Identity.Resolve(db.directory, subject)
    case Failure(_) => db
    case Success(found) => db.(resolved := db.resolved + {(found.0, found.2)})
  }

  function Apply(db: Db, step: Step): Db
    requires Identity.Indexed(db.directory)
  {
    match step
    case Tick(seconds) => db.(clock := db.clock + seconds)
    case ChangeDirectory(change) => db.(directory := Identity.Apply(db.directory, change).GetOr(db.directory))
    case Resolving(subject) => Resolve(db, subject)
    case CreatingIntent(id, requester, fields) => CreateIntent(db, id, requester, fields).GetOr(db)
    case RecordingArtifact(id, repository, targetSha, digest, image, run, ci) =>
      RecordArtifact(db, id, repository, targetSha, digest, image, run, ci).GetOr(db)
    case BeginningStaging(id) => BeginStaging(db, id).GetOr(db)
    case FailingStaging(id) => FailStaging(db, id).GetOr(db)
    case AcceptingStaging(id, staged, validity, now) => AcceptStaging(db, id, staged, validity, now).GetOr(db)
    case BindingApproval(id, request, key, ttl, now) => BindApproval(db, id, request, key, ttl, now).GetOr(db)
    case Requesting(request, fields, ttl, now) =>
      db.(approvals := Approval.CreateRequest(db.approvals, request, fields, ttl, now).GetOr(db.approvals))
    case Deciding(call, decision, now) => db.(approvals := Approval.Record(db.approvals, call, decision, now).0)
    case Locking(change) => ChangeLock(db, change)
    case Starting(id, attempt, owner, token, images, now) => Start(db, id, attempt, owner, token, images, now).GetOr(db)
  }
}
