/** SQLAlchemyAttemptAuthority.load on the deployment tables: what the supervisor gets authority from, and what that
    authority means in every database that the services can reach. */
module AttemptLoading {
  import opened Wrappers
  import opened UuidText
  import opened CanonicalJson
  import opened ArtifactPolicy
  import opened DeploymentService
  import opened DeploymentSoundness
  import Health = HealthContract
  import Identity = IdentityHistory
  import Approval = ApprovalService
  import Lock = ProductionLock
  import Intents = IntentHash
  import Plans = PlanValidation

  const CI_MAX_AGE := 900
  const BACKUP_MAX_AGE := 1800
  const BACKUP_AUTHORITY := "maoxx-production-backup-authority"

  /** The latest predeploy_backup row; a payload date may be missing. */
  datatype Backup = Backup(passed: bool, producer: string, createdAt: Option<int>, verifiedAt: Option<int>)

  /** What load reads besides the modelled tables: the backup row, the CI verifier's answer (None when it raises), the
      clock, and the order in which the artifact's service map comes out of the database. */
  datatype Outside = Outside(backup: Option<Backup>, ci: Option<CiEvidence>, now: int, images: seq<Item>)

  predicate Complete(db: Db, d: Deployment) {
    && d.artifact.Some? && d.acceptance.Some? && d.binding.Some? && d.consumption.Some? && d.attempt.Some?
    && db.lock.Some?
    && d.binding.value.request in db.approvals.requests && d.binding.value.request in db.approvals.decisions
  }

  /** The stored intent hash is the one recomputed from the rows. */
  predicate HashMatches(id: Uuid, d: Deployment, images: seq<Item>) {
    && d.attempt.Some?
    && var a := d.attempt.value;
       Intents.Payload(a.hashed) == Intents.Payload(HashedFields(id, a.id, a.token, d.intent, images))
  }

  /** The other comparisons of load on its own tables. */
  predicate RowsMatch(db: Db, id: Uuid, d: Deployment, now: int)
    requires Complete(db, d)
  {
    var attempt, artifact, acceptance := d.attempt.value, d.artifact.value, d.acceptance.value;
    var request := db.approvals.requests[d.binding.value.request];
    var decision := db.approvals.decisions[d.binding.value.request];
    && db.lock.value.deployment == id && db.lock.value.token == attempt.token && db.lock.value.owner == Lock.SUPERVISOR
    && acceptance.digest == d.intent.digest && acceptance.validUntil > now
    && artifact.serviceImages.Keys == d.intent.services
    && request.deployment == Some(id) && request.digest == Some(d.intent.digest)
    && decision.decision.Approved? && d.consumption.value.decision == decision.id
  }

  predicate BackupUsable(backup: Option<Backup>, acceptedAt: int, now: int) {
    && backup.Some? && backup.value.passed && backup.value.producer == BACKUP_AUTHORITY
    && backup.value.createdAt.Some? && backup.value.createdAt.value >= acceptedAt
    && backup.value.verifiedAt.Some? && backup.value.verifiedAt.value + BACKUP_MAX_AGE >= now
  }

  predicate CiUsable(ci: Option<CiEvidence>, d: Deployment, now: int)
    requires d.artifact.Some?
  {
    && ci.Some? && ci.value.repository == d.intent.repository && ci.value.targetSha == d.intent.targetSha
    && ci.value.run == d.artifact.value.ci.run && ci.value.verifiedAt + CI_MAX_AGE >= now
  }

  /** A date that load cannot read, reached only when every comparison before it held. */
  predicate Unreadable(backup: Backup, acceptedAt: int) {
    && backup.passed && backup.producer == BACKUP_AUTHORITY
    && (backup.createdAt.None? || (backup.createdAt.value >= acceptedAt && backup.verifiedAt.None?))
  }

  /** load after the hash has been recomputed. */
  function Judge(db: Db, id: Uuid, d: Deployment, outside: Outside, hashMatches: bool): Result<(), string> {
    if !Complete(db, d) || outside.backup.None? then Failure("attempt_authority_incomplete")
    else if outside.ci.None? then Failure("db_disconnected")
    else if !hashMatches || !RowsMatch(db, id, d, outside.now) then Failure("attempt_authority_mismatch")
    else if Unreadable(outside.backup.value, d.acceptance.value.completedAt) then Failure("db_disconnected")
    else if || !BackupUsable(outside.backup, d.acceptance.value.completedAt, outside.now)
            || !CiUsable(outside.ci, d, outside.now)
    then Failure("attempt_authority_mismatch")
    else Success(())
  }

  /** load. */
  function Load(db: Db, attempt: Uuid, outside: Outside): Result<Health.SupervisorAttempt, string> {
    if attempt !in db.attempts || db.attempts[attempt] !in db.deployments then Failure("unknown_execution_attempt")
    else
      var id := db.attempts[attempt];
      var d := db.deployments[id];
      var verdict := Judge(db, id, d, outside, HashMatches(id, d, outside.images));
      if verdict.Failure? then Failure(verdict.error)
      else
        Success(Health.SupervisorAttempt(
          id, attempt, d.attempt.value.token, d.intent.repository, d.intent.targetSha,
          Intents.Payload(d.attempt.value.hashed), d.artifact.value.serviceImages, d.intent.digest, d.intent.revision))
  }

  /** The images are read from the artifact's own row. */
  ghost predicate ReadsImages(db: Db, attempt: Uuid, outside: Outside) {
    attempt in db.attempts && db.attempts[attempt] in db.deployments
      && db.deployments[db.attempts[attempt]].artifact.Some? ==>
      Lists(outside.images, db.deployments[db.attempts[attempt]].artifact.value.serviceImages)
  }

  // ---------------------------------------------------------------- when load succeeds

  lemma HashAlwaysMatches(id: Uuid, d: Deployment, images: seq<Item>)
    requires Local(id, d) && d.attempt.Some? && d.artifact.Some? && Lists(images, d.artifact.value.serviceImages)
    ensures HashMatches(id, d, images)
  {
    var a := d.attempt.value;
    ListingsPermute(a.hashed.serviceImages, images, d.artifact.value.serviceImages);
    Intents.PayloadBindsExactly(a.hashed, HashedFields(id, a.id, a.token, d.intent, images));
  }

  /** All that can still be wrong with an attempt: the lock, the age of the acceptance, the backup, the CI evidence. */
  predicate Live(db: Db, id: Uuid, d: Deployment, outside: Outside) {
    && db.lock.Some? && d.attempt.Some? && d.acceptance.Some? && d.artifact.Some?
    && db.lock.value.deployment == id && db.lock.value.token == d.attempt.value.token
    && d.acceptance.value.validUntil > outside.now
    && BackupUsable(outside.backup, d.acceptance.value.completedAt, outside.now)
    && CiUsable(outside.ci, d, outside.now)
  }

  lemma StoredAttempt(db: Db, attempt: Uuid)
    requires Sound(db) && attempt in db.attempts
    ensures var id := db.attempts[attempt];
      && id in db.deployments && Local(id, db.deployments[id]) && Linked(db, id, db.deployments[id])
      && db.deployments[id].attempt.Some? && db.deployments[id].attempt.value.id == attempt
  {
    assert AttemptAt(db, attempt);
    assert LocalAt(db, db.attempts[attempt]) && LinkedAt(db, db.attempts[attempt]);
  }

  /** load's tests, in whatever order they are made. */
  lemma JudgeCases(db: Db, id: Uuid, d: Deployment, outside: Outside, hashMatches: bool)
    ensures Judge(db, id, d, outside, hashMatches).Success? <==>
      && Complete(db, d) && hashMatches && RowsMatch(db, id, d, outside.now)
      && BackupUsable(outside.backup, d.acceptance.value.completedAt, outside.now)
      && CiUsable(outside.ci, d, outside.now)
  {
  }

  lemma LinkedComplete(db: Db, id: Uuid, d: Deployment)
    requires Local(id, d) && Linked(db, id, d) && d.attempt.Some?
    ensures d.artifact.Some? && d.acceptance.Some? && d.binding.Some? && d.consumption.Some?
    ensures db.lock.Some? ==> Complete(db, d)
  {
  }

  lemma LinkedRowsMatch(db: Db, id: Uuid, d: Deployment, now: int)
    requires Local(id, d) && Linked(db, id, d) && LockSound(db) && Complete(db, d)
    ensures RowsMatch(db, id, d, now)
       <==> && db.lock.value.deployment == id && db.lock.value.token == d.attempt.value.token
            && d.acceptance.value.validUntil > now
  {
    assert d.artifact.value.serviceImages.Keys == d.intent.services;
  }

  /** Liveness, column by column. */
  predicate LiveRows(db: Db, id: Uuid, d: Deployment, outside: Outside) {
    && d.attempt.Some? && d.acceptance.Some? && d.artifact.Some?
    && db.lock.Some? && db.lock.value.deployment == id && db.lock.value.token == d.attempt.value.token
    && d.acceptance.value.validUntil > outside.now
    && outside.backup.Some? && outside.backup.value.passed
    && outside.backup.value.producer == "maoxx-production-backup-authority"
    && outside.backup.value.createdAt.Some?
    && outside.backup.value.createdAt.value >= d.acceptance.value.completedAt
    && outside.backup.value.verifiedAt.Some? && outside.backup.value.verifiedAt.value + 1800 >= outside.now
    && outside.ci.Some? && outside.ci.value.repository == d.intent.repository
    && outside.ci.value.targetSha == d.intent.targetSha && outside.ci.value.run == d.artifact.value.ci.run
    && outside.ci.value.verifiedAt + 900 >= outside.now
  }

  lemma LiveExactly(db: Db, id: Uuid, d: Deployment, outside: Outside)
    ensures Live(db, id, d, outside) <==> LiveRows(db, id, d, outside)
  {
  }

  /** In every reachable database, load succeeds exactly if the attempt is stored, the lock row names its deployment and
      its token, its acceptance is not over, the latest backup passed, came from the backup authority, was made after
      staging was accepted and verified within half an hour, and the CI verifier answered for the intent's repository
      and commit and the artifact's run within a quarter of an hour. The hash, the digests, the service set, the
      request's deployment and digest, the decision and the lock's owner are all compared, but no reachable database
      fails any of those comparisons. */
  lemma LoadsExactlyTheLive(trace: seq<Db>, steps: seq<Step>, start: int, k: nat, attempt: Uuid, outside: Outside)
    requires Run(trace, steps, start) && k < |trace| && ReadsImages(trace[k], attempt, outside)
    ensures var db := trace[k];
      Load(db, attempt, outside).Success? <==>
        && attempt in db.attempts && db.attempts[attempt] in db.deployments
        && LiveRows(db, db.attempts[attempt], db.deployments[db.attempts[attempt]], outside)
  {
    RunSound(trace, steps, start, k);
    SoundLoadsTheLive(trace[k], attempt, outside);
    if attempt in trace[k].attempts && trace[k].attempts[attempt] in trace[k].deployments {
      LiveExactly(trace[k], trace[k].attempts[attempt], trace[k].deployments[trace[k].attempts[attempt]], outside);
    }
  }

  /** Which error stands for what, once the attempt is stored. */
  predicate FailsExactly(db: Db, id: Uuid, d: Deployment, outside: Outside, error: string)
    requires d.attempt.Some? && d.acceptance.Some?
  {
    && (error == "attempt_authority_incomplete" <==> db.lock.None? || outside.backup.None?)
    && (error == "db_disconnected" <==>
          && db.lock.Some? && outside.backup.Some?
          && (outside.ci.None?
              || (&& db.lock.value.deployment == id && db.lock.value.token == d.attempt.value.token
                  && d.acceptance.value.validUntil > outside.now
                  && outside.backup.value.passed
                  && outside.backup.value.producer == "maoxx-production-backup-authority"
                  && (outside.backup.value.createdAt.None?
                      || (outside.backup.value.verifiedAt.None?
                          && outside.backup.value.createdAt.value >= d.acceptance.value.completedAt)))))
    && error in {"attempt_authority_incomplete", "db_disconnected", "attempt_authority_mismatch"}
  }

  /** And why load fails, in every reachable database: the attempt is unknown; there is no lock row or no backup at all;
      the CI verifier raised, or a date of the backup cannot be read although lock and acceptance are in order; or
      something does not match. */
  lemma LoadFailsExactly(trace: seq<Db>, steps: seq<Step>, start: int, k: nat, attempt: Uuid, outside: Outside)
    requires Run(trace, steps, start) && k < |trace| && ReadsImages(trace[k], attempt, outside)
    requires Load(trace[k], attempt, outside).Failure?
    ensures var db, error := trace[k], Load(trace[k], attempt, outside).error;
      && (error == "unknown_execution_attempt" <==> attempt !in db.attempts)
      && (attempt in db.attempts ==>
            db.attempts[attempt] in db.deployments &&
            var id, d := db.attempts[attempt], db.deployments[db.attempts[attempt]];
            d.attempt.Some? && d.acceptance.Some? && FailsExactly(db, id, d, outside, error))
  {
    RunSound(trace, steps, start, k);
    SoundFailsExactly(trace[k], attempt, outside);
  }

  lemma SoundFailsExactly(db: Db, attempt: Uuid, outside: Outside)
    requires Sound(db) && ReadsImages(db, attempt, outside) && Load(db, attempt, outside).Failure?
    ensures Load(db, attempt, outside).error == "unknown_execution_attempt" <==> attempt !in db.attempts
    ensures attempt in db.attempts ==>
      db.attempts[attempt] in db.deployments &&
      var id, d := db.attempts[attempt], db.deployments[db.attempts[attempt]];
      && d.attempt.Some? && d.acceptance.Some?
      && FailsExactly(db, id, d, outside, Load(db, attempt, outside).error)
  {
    if attempt in db.attempts {
      StoredAttempt(db, attempt);
      var id := db.attempts[attempt];
      var d := db.deployments[id];
      LinkedComplete(db, id, d);
      HashAlwaysMatches(id, d, outside.images);
      LinkedFailsExactly(db, id, d, outside);
      assert Load(db, attempt, outside).error == Judge(db, id, d, outside, HashMatches(id, d, outside.images)).error;
    }
  }

  lemma LinkedFailsExactly(db: Db, id: Uuid, d: Deployment, outside: Outside)
    requires Local(id, d) && Linked(db, id, d) && LockSound(db) && d.attempt.Some? && d.acceptance.Some?
    requires Judge(db, id, d, outside, true).Failure?
    ensures FailsExactly(db, id, d, outside, Judge(db, id, d, outside, true).error)
  {
    LinkedComplete(db, id, d);
    if db.lock.Some? {
      LinkedRowsMatch(db, id, d, outside.now);
    }
    assert "attempt_authority_incomplete"[0] != "db_disconnected"[0];
    assert |"attempt_authority_incomplete"| != |"attempt_authority_mismatch"|;
    assert |"attempt_authority_mismatch"| != |"db_disconnected"|;
  }

  lemma SoundLoadsTheLive(db: Db, attempt: Uuid, outside: Outside)
    requires Sound(db) && ReadsImages(db, attempt, outside)
    ensures Load(db, attempt, outside).Success? <==>
      && attempt in db.attempts && db.attempts[attempt] in db.deployments
      && Live(db, db.attempts[attempt], db.deployments[db.attempts[attempt]], outside)
  {
    if attempt in db.attempts {
      StoredAttempt(db, attempt);
      LinkedLoadsTheLive(db, attempt, outside);
    }
  }

  lemma LinkedLoadsTheLive(db: Db, attempt: Uuid, outside: Outside)
    requires attempt in db.attempts && db.attempts[attempt] in db.deployments && LockSound(db)
    requires var id := db.attempts[attempt];
      Local(id, db.deployments[id]) && Linked(db, id, db.deployments[id]) && db.deployments[id].attempt.Some?
    requires ReadsImages(db, attempt, outside)
    ensures Load(db, attempt, outside).Success?
       <==> Live(db, db.attempts[attempt], db.deployments[db.attempts[attempt]], outside)
  {
    var id := db.attempts[attempt];
    var d := db.deployments[id];
    JudgeCases(db, id, d, outside, HashMatches(id, d, outside.images));
    LinkedComplete(db, id, d);
    HashAlwaysMatches(id, d, outside.images);
    if db.lock.Some? {
      LinkedRowsMatch(db, id, d, outside.now);
    }
  }

  // ---------------------------------------------------------------- what authority means

  /** The approval behind a deployment's attempt. */
  predicate GenuinelyApproved(db: Db, id: Uuid, d: Deployment) {
    && d.consumption.Some?
    && var c := d.consumption.value;
       && c.request in db.approvals.requests && c.request in db.approvals.decisions
       && var r, decision := db.approvals.requests[c.request], db.approvals.decisions[c.request];
          && decision.id == c.decision && decision.decision.Approved?
          && r.deployment == Some(id) && r.digest == Some(d.intent.digest) && r.user == d.intent.user
          && decision.mapping.Some? && Genuine(db.directory, decision.actor, decision.mapping.value)
          && decision.actor != r.user
          && decision.decidedAt < r.expiresAt && c.consumedAt < r.expiresAt
  }

  lemma LoadedHoldsLock(db: Db, attempt: Uuid, outside: Outside)
    requires Load(db, attempt, outside).Success?
    ensures attempt in db.attempts && db.attempts[attempt] in db.deployments && db.lock.Some?
    ensures var id, loaded := db.attempts[attempt], Load(db, attempt, outside).value;
      && db.lock.value.deployment == id
      && db.deployments[id].attempt.Some?
      && db.deployments[id].acceptance.Some? && db.deployments[id].acceptance.value.validUntil > outside.now
      && loaded.attemptId == attempt && loaded.deploymentId == id
      && loaded.artifactDigest == db.deployments[id].intent.digest
  {
  }

  /** Authority implies a genuine approval, although load looks neither at the approver nor at the expiry: whoever the
      supervisor is given authority for, the attempt's deployment was approved for exactly this digest by a mapped
      human other than its requester, strictly before the request expired, and staging accepted it within a day. */
  lemma AuthorityMeansApproval(trace: seq<Db>, steps: seq<Step>, start: int, k: nat, attempt: Uuid, outside: Outside)
    requires Run(trace, steps, start) && k < |trace| && Load(trace[k], attempt, outside).Success?
    ensures var db, loaded := trace[k], Load(trace[k], attempt, outside).value;
      && loaded.attemptId == attempt && loaded.deploymentId in db.deployments
      && GenuinelyApproved(db, loaded.deploymentId, db.deployments[loaded.deploymentId])
      && db.deployments[loaded.deploymentId].intent.digest == loaded.artifactDigest
      && db.deployments[loaded.deploymentId].acceptance.Some?
      && outside.now < db.deployments[loaded.deploymentId].acceptance.value.completedAt + MAX_VALIDITY
  {
    RunSound(trace, steps, start, k);
    LoadedHoldsLock(trace[k], attempt, outside);
    ApprovalBehind(trace[k], trace[k].attempts[attempt]);
  }

  lemma ApprovalBehind(db: Db, id: Uuid)
    requires Sound(db) && id in db.deployments && db.deployments[id].attempt.Some?
    ensures GenuinelyApproved(db, id, db.deployments[id])
    ensures db.deployments[id].acceptance.Some?
    ensures var a := db.deployments[id].acceptance.value; a.validUntil <= a.completedAt + MAX_VALIDITY
  {
    assert LocalAt(db, id) && LinkedAt(db, id);
    var request := db.deployments[id].consumption.value.request;
    assert Approval.DecisionSound(db.approvals, request);
    assert ActorAt(db, request);
  }

  /** No approval is used twice: different attempts have different deployments, requests and decisions. */
  lemma DistinctAttemptsDistinctDecisions(trace: seq<Db>, steps: seq<Step>, start: int, k: nat, a: Uuid, b: Uuid)
    requires Run(trace, steps, start) && k < |trace|
    requires a in trace[k].attempts && b in trace[k].attempts && a != b
    ensures var db := trace[k];
      && db.attempts[a] in db.deployments && db.attempts[b] in db.deployments && db.attempts[a] != db.attempts[b]
      && var x, y := db.deployments[db.attempts[a]].consumption, db.deployments[db.attempts[b]].consumption;
         x.Some? && y.Some? && x.value.request != y.value.request && x.value.decision != y.value.decision
  {
    RunSound(trace, steps, start, k);
    var db := trace[k];
    assert AttemptAt(db, a) && AttemptAt(db, b);
    ApprovalBehind(db, db.attempts[a]);
    ApprovalBehind(db, db.attempts[b]);
    var x, y := db.deployments[db.attempts[a]].consumption.value, db.deployments[db.attempts[b]].consumption.value;
    assert Approval.DecisionSound(db.approvals, x.request) && Approval.DecisionSound(db.approvals, y.request);
  }

  // ---------------------------------------------------------------- an attempt is loaded as itself

  lemma LoadedOfRows(db: Db, attempt: Uuid, outside: Outside)
    requires Load(db, attempt, outside).Success?
    ensures attempt in db.attempts && db.attempts[attempt] in db.deployments
    ensures var id := db.attempts[attempt];
      var d := db.deployments[id];
      && d.attempt.Some? && d.artifact.Some?
      && Load(db, attempt, outside).value == Health.SupervisorAttempt(
           id, attempt, d.attempt.value.token, d.intent.repository, d.intent.targetSha,
           Intents.Payload(d.attempt.value.hashed), d.artifact.value.serviceImages, d.intent.digest, d.intent.revision)
  {
  }

  lemma LoadedIsKept(a: Db, b: Db, attempt: Uuid, first: Outside, second: Outside)
    requires Extends(a, b) && Load(a, attempt, first).Success? && Load(b, attempt, second).Success?
    ensures Load(a, attempt, first) == Load(b, attempt, second)
  {
    LoadedOfRows(a, attempt, first);
    LoadedOfRows(b, attempt, second);
    assert AttemptKept(a, b, attempt) && DeploymentKept(a, b, a.attempts[attempt]);
  }

  /** Whoever loads an attempt, and whenever, gets the same one: deployment, token, commit, hash, images and digest
      never differ between two calls that were given authority. */
  lemma LoadedIsStable(
    trace: seq<Db>, steps: seq<Step>, start: int, i: nat, j: nat, attempt: Uuid, first: Outside, second: Outside)
    requires Run(trace, steps, start) && i <= j < |trace|
    requires Load(trace[i], attempt, first).Success? && Load(trace[j], attempt, second).Success?
    ensures Load(trace[i], attempt, first) == Load(trace[j], attempt, second)
  {
    RunExtends(trace, steps, start, i, j);
    LoadedIsKept(trace[i], trace[j], attempt, first, second);
  }

  // ---------------------------------------------------------------- validate_plan

  /** One digest flows end to end: on an attempt that load returned, validate_plan's own rejections cannot fire, every
      image ends in the intent's digest, and every service is an approved one. */
  lemma LoadedPlanIsValid(trace: seq<Db>, steps: seq<Step>, start: int, k: nat, attempt: Uuid, outside: Outside)
    requires Run(trace, steps, start) && k < |trace| && Load(trace[k], attempt, outside).Success?
    ensures var loaded := Load(trace[k], attempt, outside).value;
      Plans.ValidateAttempt(loaded).Success? && forall s <- loaded.serviceImages.Keys :: !s.Unapproved?
  {
    RunSound(trace, steps, start, k);
    var db := trace[k];
    var id := db.attempts[attempt];
    assert LocalAt(db, id);
    PlanOfLocal(id, db.deployments[id], Load(db, attempt, outside).value);
  }

  lemma PlanOfLocal(id: Uuid, d: Deployment, loaded: Health.SupervisorAttempt)
    requires Local(id, d) && d.artifact.Some?
    requires loaded.targetSha == d.intent.targetSha && loaded.artifactDigest == d.intent.digest
    requires loaded.serviceImages == d.artifact.value.serviceImages
    ensures Plans.ValidateAttempt(loaded).Success? && forall s <- loaded.serviceImages.Keys :: !s.Unapproved?
  {
    var some :| some in d.intent.services;
    assert some in loaded.serviceImages;
  }

  // ---------------------------------------------------------------- one live attempt, dead epochs

  /** At any moment at most one attempt has authority, whatever backups, CI answers and clocks load is given. */
  lemma OneLiveAttempt(
    trace: seq<Db>, steps: seq<Step>, start: int, k: nat, a: Uuid, b: Uuid, seenByA: Outside, seenByB: Outside)
    requires Run(trace, steps, start) && k < |trace|
    requires Load(trace[k], a, seenByA).Success? && Load(trace[k], b, seenByB).Success?
    ensures a == b
  {
    RunSound(trace, steps, start, k);
    SoundOneLive(trace[k], a, b, seenByA, seenByB);
  }

  lemma SoundOneLive(db: Db, a: Uuid, b: Uuid, seenByA: Outside, seenByB: Outside)
    requires Sound(db) && Load(db, a, seenByA).Success? && Load(db, b, seenByB).Success?
    ensures a == b
  {
    assert AttemptAt(db, a) && AttemptAt(db, b);
    LoadedHoldsLock(db, a, seenByA);
    LoadedHoldsLock(db, b, seenByB);
  }

  predicate LockLives(trace: seq<Db>, i: nat, j: nat)
    requires i <= j < |trace|
  {
    forall k | i <= k <= j :: trace[k].lock.Some?
  }

  lemma LockTokenNeverFalls(db: Db, change: Lock.Step)
    requires db.lock.Some? && ChangeLock(db, change).lock.Some?
    ensures db.lock.value.token <= ChangeLock(db, change).lock.value.token
  {
  }

  lemma TokenNeverFalls(a: Db, b: Db, step: Step)
    requires Next(a, b, step) && a.lock.Some? && b.lock.Some?
    ensures a.lock.value.token <= b.lock.value.token
  {
    if step.Locking? {
      LockTokenNeverFalls(a, step.operation);
    } else {
      assert b.lock == a.lock;
    }
  }

  lemma {:induction false} TokenClimbs(trace: seq<Db>, steps: seq<Step>, i: nat, j: nat)
    requires Path(trace, steps) && i <= j < |trace| && LockLives(trace, i, j)
    ensures trace[i].lock.value.token <= trace[j].lock.value.token
  {
    if i < j {
      TokenClimbs(trace, steps, i, j - 1);
      assert StepAt(trace, steps, j - 1);
      TokenNeverFalls(trace[j - 1], trace[j], steps[j - 1]);
    }
  }

  /** A stored attempt that the lock row's token has passed. */
  predicate Fenced(db: Db, attempt: Uuid) {
    && attempt in db.attempts && db.attempts[attempt] in db.deployments && db.lock.Some?
    && db.deployments[db.attempts[attempt]].attempt.Some?
    && db.lock.value.token > db.deployments[db.attempts[attempt]].attempt.value.token
  }

  lemma FencedOnPath(trace: seq<Db>, steps: seq<Step>, i: nat, j: nat, attempt: Uuid, outside: Outside)
    requires Path(trace, steps) && Sound(trace[0]) && i <= j < |trace| && LockLives(trace, i, j)
    requires Fenced(trace[i], attempt)
    ensures Load(trace[j], attempt, outside).Failure?
  {
    TokenClimbs(trace, steps, i, j);
    PathExtends(trace, steps, i, j);
    FencedStays(trace[i], trace[j], attempt, outside);
  }

  lemma FencedStays(a: Db, b: Db, attempt: Uuid, outside: Outside)
    requires Fenced(a, attempt) && Extends(a, b) && b.lock.Some? && a.lock.value.token <= b.lock.value.token
    ensures Load(b, attempt, outside).Failure?
  {
    assert AttemptKept(a, b, attempt) && DeploymentKept(a, b, a.attempts[attempt]);
  }

  /** A dead epoch stays dead: once the lock row's token exceeds an attempt's, the attempt is refused for as long as
      the row lives, whatever else happens. */
  lemma DeadEpochStaysDead(
    trace: seq<Db>, steps: seq<Step>, start: int, i: nat, j: nat, attempt: Uuid, outside: Outside)
    requires Run(trace, steps, start) && i <= j < |trace| && LockLives(trace, i, j)
    requires Fenced(trace[i], attempt)
    ensures Load(trace[j], attempt, outside).Failure?
  {
    EmptySound(start);
    FencedOnPath(trace, steps, i, j, attempt, outside);
  }

  // ---------------------------------------------------------------- and what a release does to it

  const SHORT_LEASE := 5

  /** The lock row that one acquisition after a release, or one takeover after that, leaves behind. */
  function Climbed(id: Uuid, token: nat, now: int): Lock.Lock
    requires token > 0
  {
    Lock.Lock(id, Lock.SUPERVISOR, token, now, now, now + SHORT_LEASE,
              if token == 1 then None else Some((token - 1) as nat))
  }

  /** The database with nothing but lock row and clock changed. */
  function Relocked(db: Db, lock: Lock.Lock, clock: int): Db {
    db.(lock := Some(lock), clock := clock)
  }

  lemma Reacquires(db: Db, id: Uuid)
    requires id in db.deployments && (db.lock.Some? ==> db.lock.value.owner == Lock.SUPERVISOR)
    ensures var released := db.(lock := None);
      && (db.lock.Some? ==>
            ChangeLock(db, Lock.Releasing(db.lock.value.deployment, Lock.SUPERVISOR, db.lock.value.token)) == released)
      && ChangeLock(released, Lock.Acquiring(id, Lock.SUPERVISOR, db.clock, SHORT_LEASE))
           == Relocked(db, Climbed(id, 1, db.clock), db.clock)
  {
  }

  lemma TakesOver(db: Db, id: Uuid, token: nat)
    requires id in db.deployments && token > 0
    requires db.lock == Some(Climbed(id, token, db.clock - SHORT_LEASE))
    ensures var stamped := db.(lock := Some(db.lock.value.(reconciledToken := Some(token))));
      && ChangeLock(db, Lock.Reconciling) == stamped
      && ChangeLock(stamped, Lock.Acquiring(id, Lock.SUPERVISOR, db.clock, SHORT_LEASE))
           == Relocked(db, Climbed(id, token + 1, db.clock), db.clock)
  {
  }

  /** The database of one release and `token` acquisitions by the same deployment, five seconds apart. */
  function AtEpoch(db: Db, id: Uuid, token: nat): Db
    requires token > 0
  {
    var clock := db.clock + SHORT_LEASE * (token - 1);
    Relocked(db, Climbed(id, token, clock), clock)
  }

  predicate Relockable(db: Db, id: Uuid) {
    && id in db.deployments && Identity.Indexed(db.directory)
    && (db.lock.Some? ==> db.lock.value.owner == Lock.SUPERVISOR)
  }

  lemma LeadsToFirstEpoch(db: Db, id: Uuid)
    requires Relockable(db, id)
    ensures Leads(db, AtEpoch(db, id, 1))
  {
    var released := db.(lock := None);
    LeadsNowhere(db);
    Reacquires(db, id);
    if db.lock.Some? {
      LeadsOn(db, db, Locking(Lock.Releasing(db.lock.value.deployment, Lock.SUPERVISOR, db.lock.value.token)));
    }
    LeadsOn(db, released, Locking(Lock.Acquiring(id, Lock.SUPERVISOR, db.clock, SHORT_LEASE)));
  }

  lemma LeadsOneEpochOn(db: Db, id: Uuid, token: nat)
    requires Relockable(db, id) && token > 0 && Leads(db, AtEpoch(db, id, token))
    ensures Leads(db, AtEpoch(db, id, token + 1))
  {
    var b := AtEpoch(db, id, token);
    var later := b.(clock := b.clock + SHORT_LEASE);
    LeadsOn(db, b, Tick(SHORT_LEASE));
    TakesOver(later, id, token);
    LeadsOn(db, later, Locking(Lock.Reconciling));
    LeadsOn(db, ChangeLock(later, Lock.Reconciling),
            Locking(Lock.Acquiring(id, Lock.SUPERVISOR, later.clock, SHORT_LEASE)));
  }

  /** One release, and every token can be had again by every deployment, five seconds per takeover. */
  lemma {:induction false} LeadsToAnyEpoch(db: Db, id: Uuid, token: nat)
    requires Relockable(db, id) && token > 0
    ensures Leads(db, AtEpoch(db, id, token))
  {
    if token == 1 {
      LeadsToFirstEpoch(db, id);
    } else {
      LeadsToAnyEpoch(db, id, token - 1);
      LeadsOneEpochOn(db, id, token - 1);
    }
  }

  /** What an attempt needs besides the lock: an acceptance that is not over, a usable backup, usable CI evidence. */
  predicate Usable(d: Deployment, outside: Outside) {
    && d.acceptance.Some? && d.artifact.Some?
    && d.acceptance.value.validUntil > outside.now
    && BackupUsable(outside.backup, d.acceptance.value.completedAt, outside.now)
    && CiUsable(outside.ci, d, outside.now)
  }

  /** The database that the stored attempt's revival leads to: only lock row and clock differ. */
  function Revived(db: Db, attempt: Uuid): Db
    requires attempt in db.attempts && db.attempts[attempt] in db.deployments
  {
    var id := db.attempts[attempt];
    if db.deployments[id].attempt.None? || db.deployments[id].attempt.value.token == 0 then db
    else AtEpoch(db, id, db.deployments[id].attempt.value.token)
  }

  lemma LeadsToRevived(db: Db, attempt: Uuid)
    requires attempt in db.attempts && Relockable(db, db.attempts[attempt])
    requires var a := db.deployments[db.attempts[attempt]].attempt; a.Some? && a.value.token > 0
    ensures Leads(db, Revived(db, attempt))
  {
    var id := db.attempts[attempt];
    LeadsToAnyEpoch(db, id, db.deployments[id].attempt.value.token);
  }

  lemma StoredIsRelockable(db: Db, attempt: Uuid)
    requires Sound(db) && attempt in db.attempts
    ensures var id := db.attempts[attempt];
      && Relockable(db, id)
      && db.deployments[id].attempt.Some? && db.deployments[id].attempt.value.token > 0
      && db.deployments[id].acceptance.Some? && db.deployments[id].artifact.Some?
  {
    StoredAttempt(db, attempt);
  }

  /** In every reachable database, whoever holds the lock and whatever the epoch of a stored attempt: some further
      transactions, a release among them if the lock is held, lead to a database in which load succeeds exactly if the
      attempt is usable. Only lock row and clock have changed, and five seconds per epoch have passed. */
  lemma ReleaseRevivesAnyEpoch(
    trace: seq<Db>, steps: seq<Step>, start: int, k: nat, attempt: Uuid, outside: Outside)
    requires Run(trace, steps, start) && k < |trace| && attempt in trace[k].attempts
    requires ReadsImages(trace[k], attempt, outside)
    ensures trace[k].attempts[attempt] in trace[k].deployments
    ensures var d, db := trace[k].deployments[trace[k].attempts[attempt]], Revived(trace[k], attempt);
      && d.attempt.Some? && Leads(trace[k], db)
      && db == trace[k].(lock := db.lock, clock := trace[k].clock + SHORT_LEASE * (d.attempt.value.token - 1))
      && (Load(db, attempt, outside).Success? <==> Usable(d, outside))
  {
    RunSound(trace, steps, start, k);
    StoredIsRelockable(trace[k], attempt);
    LeadsToRevived(trace[k], attempt);
    RevivedLoads(trace[k], attempt, outside);
  }

  lemma RevivedLoads(db: Db, attempt: Uuid, outside: Outside)
    requires Sound(db) && attempt in db.attempts && ReadsImages(db, attempt, outside)
    requires db.attempts[attempt] in db.deployments
    ensures Load(Revived(db, attempt), attempt, outside).Success?
       <==> Usable(db.deployments[db.attempts[attempt]], outside)
  {
    StoredIsRelockable(db, attempt);
    LoadsAtItsEpoch(db, Revived(db, attempt), attempt, outside);
  }

  lemma LoadsAtItsEpoch(a: Db, b: Db, attempt: Uuid, outside: Outside)
    requires Sound(a) && attempt in a.attempts && ReadsImages(a, attempt, outside) && a.clock <= b.clock
    requires a.attempts[attempt] in a.deployments && a.deployments[a.attempts[attempt]].attempt.Some?
    requires var token := a.deployments[a.attempts[attempt]].attempt.value.token;
      token > 0 && b == Relocked(a, Climbed(a.attempts[attempt], token, b.clock), b.clock)
    ensures Load(b, attempt, outside).Success? <==> Usable(a.deployments[a.attempts[attempt]], outside)
  {
    OutsideKeeps(a, b);
    SoundLoadsTheLive(b, attempt, outside);
  }

  /** A path on which the lock row is never away. */
  ghost predicate LeadsHolding(a: Db, b: Db) {
    exists trace, steps :: Path(trace, steps) && trace[0] == a && trace[|steps|] == b && LockLives(trace, 0, |steps|)
  }

  lemma UsableStays(a: Db, b: Db, attempt: Uuid, outside: Outside)
    requires Sound(a) && Leads(a, b) && attempt in a.attempts && Load(b, attempt, outside).Success?
    ensures a.attempts[attempt] in a.deployments && Usable(a.deployments[a.attempts[attempt]], outside)
  {
    LeadsExtends(a, b);
    UsableBefore(a, b, attempt, outside);
  }

  lemma UsableBefore(a: Db, b: Db, attempt: Uuid, outside: Outside)
    requires Sound(a) && Extends(a, b) && attempt in a.attempts && Load(b, attempt, outside).Success?
    ensures a.attempts[attempt] in a.deployments && Usable(a.deployments[a.attempts[attempt]], outside)
  {
    StoredIsRelockable(a, attempt);
    assert AttemptKept(a, b, attempt) && DeploymentKept(a, b, a.attempts[attempt]);
    LoadedIsUsable(b, attempt, outside);
  }

  lemma LoadedIsUsable(db: Db, attempt: Uuid, outside: Outside)
    requires Load(db, attempt, outside).Success?
    ensures attempt in db.attempts && db.attempts[attempt] in db.deployments
    ensures Usable(db.deployments[db.attempts[attempt]], outside)
  {
    var id := db.attempts[attempt];
    JudgeCases(db, id, db.deployments[id], outside, HashMatches(id, db.deployments[id], outside.images));
  }

  /** So a fenced attempt is dead exactly until the row is released: while the row lives no transactions bring it
      back, and with a release some do, provided only that the attempt is usable. */
  lemma DeadExactlyUntilReleased(
    trace: seq<Db>, steps: seq<Step>, start: int, k: nat, attempt: Uuid, outside: Outside)
    requires Run(trace, steps, start) && k < |trace| && Fenced(trace[k], attempt)
    requires ReadsImages(trace[k], attempt, outside)
    ensures forall db | LeadsHolding(trace[k], db) :: Load(db, attempt, outside).Failure?
    ensures (exists db :: Leads(trace[k], db) && Load(db, attempt, outside).Success?)
       <==> Usable(trace[k].deployments[trace[k].attempts[attempt]], outside)
  {
    RunSound(trace, steps, start, k);
    forall db | LeadsHolding(trace[k], db) ensures Load(db, attempt, outside).Failure? {
      FencedWhileHeld(trace[k], db, attempt, outside);
    }
    ReleaseRevivesAnyEpoch(trace, steps, start, k, attempt, outside);
    forall db | Leads(trace[k], db) && Load(db, attempt, outside).Success?
      ensures Usable(trace[k].deployments[trace[k].attempts[attempt]], outside)
    {
      UsableStays(trace[k], db, attempt, outside);
    }
  }

  lemma FencedWhileHeld(a: Db, b: Db, attempt: Uuid, outside: Outside)
    requires Sound(a) && Fenced(a, attempt) && LeadsHolding(a, b)
    ensures Load(b, attempt, outside).Failure?
  {
    var trace, steps :| Path(trace, steps) && trace[0] == a && trace[|steps|] == b && LockLives(trace, 0, |steps|);
    FencedOnPath(trace, steps, 0, |steps|, attempt, outside);
  }
}
