/** What each deployment transaction commits, in rows, numbers and texts: exactly when, and exactly which rows. Every
    statement is about sound databases, which every run keeps to; the one about starting is also given for the steps of
    a run. */
module DeploymentContracts {
  import opened Wrappers
  import opened UuidText
  import opened CanonicalJson
  import opened DeployStates
  import opened ArtifactPolicy
  import opened DeploymentService
  import opened DeploymentSoundness
  import Health = HealthContract
  import Identity = IdentityHistory
  import Approval = ApprovalService
  import Lock = ProductionLock
  import Intents = IntentHash
  import Plans = PlanValidation

  predicate Latest(d: Deployment, state: DeployState) {
    d.log != [] && d.log[|d.log| - 1] == state
  }

  /** Where a shaped log stands, and what may come next there. */
  lemma ShapedNext(kind: Kind, log: seq<DeployState>, to: DeployState)
    requires Shaped(kind, log)
    ensures to.ArtifactRecorded? ==> (Legal(At(log), to) <==> log[|log| - 1].IntentCreated?)
    ensures to.StagingDeploying? ==> (Legal(At(log), to) <==> log[|log| - 1].ArtifactRecorded?)
    ensures to.StagingValidated? || to.StagingFailed? ==> (Legal(At(log), to) <==> log[|log| - 1].StagingDeploying?)
    ensures to == PendingState(kind) ==> (Legal(At(log), to) <==> log[|log| - 1].StagingValidated?)
    ensures to == DeployingState(kind) ==> (Legal(At(log), to) <==> log[|log| - 1] == PendingState(kind))
    ensures |log| == 1 <==> log[|log| - 1].IntentCreated?
    ensures |log| == 2 <==> log[|log| - 1].ArtifactRecorded?
    ensures |log| == 3 <==> log[|log| - 1].StagingDeploying?
    ensures |log| == 4 <==> log[|log| - 1].StagingValidated? || log[|log| - 1].StagingFailed?
    ensures |log| == 5 <==> log[|log| - 1] == PendingState(kind)
  {
    assert At(log) == Some(log[|log| - 1]);
  }

  // ---------------------------------------------------------------- intent

  /** The fields of an intent, text by text. */
  ghost predicate Acceptable(f: Fields) {
    && OwnerAndName(f.repository) && !EndsIn(f.repository, ".git")
    && |f.targetSha| == 40 && Plans.HexDigits(f.targetSha)
    && Digest(f.digest) && Digest(f.config)
    && 1 <= |f.key| <= 200 && Word(f.key, {'_', '.', '-', ':'})
    && f.risk != High
    && (f.risk == Medium ==>
          f.revision.Some? && f.revision.value != "" && f.runbook.Some? && f.runbook.value != "")
    && f.services != []
    && (forall i, j :: 0 <= i < j < |f.services| ==> f.services[i] != f.services[j])
    && forall i :: 0 <= i < |f.services| ==> f.services[i] == Health.Api || f.services[i] == Health.FeishuWorker
  }

  predicate Digest(s: string) {
    |s| == 71 && s[..7] == "sha256:" && Plans.HexDigits(s[7..])
  }

  lemma AcceptableExactly(f: Fields)
    ensures ValidFields(f) <==> Acceptable(f)
  {
    RepositoriesExactly(f.repository);
    Plans.HexDigitsAt(f.targetSha);
    Plans.DigestExactly(f.digest);
    Plans.DigestExactly(f.config);
    KeysExactly(f.key);
    assert forall i :: 0 <= i < |f.services| ==> f.services[i] in f.services;
  }

  /** The requester's open mapping, and whom it names. */
  lemma ResolvesExactly(d: Identity.Directory, s: Identity.Subject)
    requires Identity.Sound(d)
    ensures Identity.Resolve(d, s).Success? <==> s in d.active
    ensures s in d.active ==>
      var key := Identity.Key(s, d.active[s]);
      && key in d.rows && d.rows[key].validTo.None?
      && d.rows[key].principal in d.principals && d.principals[d.rows[key].principal].user.Some?
      && Identity.Resolve(d, s)
           == Success((d.principals[d.rows[key].principal].user.value, d.rows[key].principal, key))
  {
    assert Identity.History(d, s);
  }

  /** create_deployment_intent stores exactly what it was given, under the user, principal and mapping of the
      requester's open identity; a key that is taken yields the stored intent only if all thirteen fields agree. */
  lemma CreatesIntentExactly(db: Db, id: Uuid, requester: Identity.Subject, f: Fields)
    requires Sound(db)
    ensures var created := CreateIntent(db, id, requester, f);
      var allowed := requester in db.directory.active && Acceptable(f);
      && (created.Success? ==> allowed)
      && (allowed ==>
            var key := Identity.Key(requester, db.directory.active[requester]);
            && key in db.directory.rows && db.directory.rows[key].principal in db.directory.principals
            && db.directory.principals[db.directory.rows[key].principal].user.Some?
            && var principal := db.directory.rows[key].principal;
               var intent := Intent(
                 db.directory.principals[principal].user.value, principal, key, f.kind, f.repository, f.targetSha,
                 f.digest, (set s | s in f.services), f.risk, f.revision, f.runbook, f.config, f.key);
               if f.key in db.intentKeys then
                 && db.intentKeys[f.key] in db.deployments
                 && (created == Success(db) <==> db.deployments[db.intentKeys[f.key]].intent == intent)
                 && (created.Success? ==> created.value == db)
               else
                 && (created.Success? <==> id !in db.deployments)
                 && (created.Success? ==>
                       created.value == db.(
                         deployments := db.deployments[
                           id := Deployment(intent, [IntentCreated], None, None, None, None, None)],
                         intentKeys := db.intentKeys[f.key := id])))
  {
    AcceptableExactly(f);
    ResolvesExactly(db.directory, requester);
    assert KeyAt(db, f.key);
    assert [] + [IntentCreated] == [IntentCreated];
  }

  // ---------------------------------------------------------------- artifact and staging

  /** record_artifact stores the artifact that was named, for the intent's own commit, repository and digest, with an
      image pinned to that digest and a conclusive CI run of that commit, once, right after the intent. */
  lemma RecordsArtifactExactly(
    db: Db, id: Uuid, repository: string, targetSha: string, digest: string, image: string, run: nat, ci: CiEvidence)
    requires Sound(db)
    ensures var recorded := RecordArtifact(db, id, repository, targetSha, digest, image, run, ci);
      var allowed :=
        && Digest(digest) && Plans.PinsDigest(image, digest)
        && id in db.deployments
        && repository == db.deployments[id].intent.repository && targetSha == db.deployments[id].intent.targetSha
        && digest == db.deployments[id].intent.digest
        && ci.conclusive && ci.repository == repository && ci.targetSha == targetSha && ci.run == run;
      && (recorded.Success? ==> allowed)
      && (allowed ==>
            var d := db.deployments[id];
            if d.artifact.Some? then
              recorded ==
                if && d.artifact.value.image == image && d.artifact.value.ci.run == ci.run
                   && d.artifact.value.ci.conclusive == ci.conclusive
                then Success(db) else Failure("artifact_replay_conflict")
            else
              && (recorded.Success? <==> Latest(d, IntentCreated))
              && (recorded.Success? ==>
                    recorded.value == db.(deployments := db.deployments[id := d.(
                      artifact := Some(Artifact(
                        repository, targetSha, digest, image, map s | s in d.intent.services :: image, ci)),
                      log := d.log + [ArtifactRecorded])])))
  {
    ArtifactsPinned(digest, image);
    assert LocalAt(db, id);
    if id in db.deployments {
      ShapedNext(db.deployments[id].intent.kind, db.deployments[id].log, ArtifactRecorded);
    }
  }

  lemma ArtifactsPinned(digest: string, image: string)
    ensures ImmutableArtifact(digest, image) <==> Digest(digest) && Plans.PinsDigest(image, digest)
  {
    Plans.DigestExactly(digest);
    if Digest(digest) && Plans.PinsDigest(image, digest) {
      Plans.PinnedIsImmutable(image, digest);
    }
    if ImmutableArtifact(digest, image) {
      Plans.ImmutableIsPinned(image, digest);
    }
  }

  /** begin_staging_deployment and record_staging_failure append their state at their place and nowhere else. */
  lemma StagesExactly(db: Db, id: Uuid)
    requires Sound(db)
    ensures BeginStaging(db, id).Success? <==>
      id in db.deployments
      && (Latest(db.deployments[id], ArtifactRecorded) || Latest(db.deployments[id], StagingDeploying))
    ensures BeginStaging(db, id).Success? ==>
      var d := db.deployments[id];
      BeginStaging(db, id).value ==
        if Latest(d, StagingDeploying) then db
        else db.(deployments := db.deployments[id := d.(log := d.log + [StagingDeploying])])
    ensures FailStaging(db, id).Success? <==> id in db.deployments && Latest(db.deployments[id], StagingDeploying)
    ensures FailStaging(db, id).Success? ==>
      var d := db.deployments[id];
      FailStaging(db, id).value == db.(deployments := db.deployments[id := d.(log := d.log + [StagingFailed])])
  {
    assert LocalAt(db, id);
    if id in db.deployments {
      ShapedNext(db.deployments[id].intent.kind, db.deployments[id].log, StagingDeploying);
      ShapedNext(db.deployments[id].intent.kind, db.deployments[id].log, StagingFailed);
    }
  }

  /** record_staging_acceptance stores what was accepted, by whom, and until when: `validity` seconds from now, at
      most a day, for exactly the repository, commit, digest and configuration of the intent. */
  lemma AcceptsStagingExactly(db: Db, id: Uuid, s: Staged, validity: int, now: int)
    requires Sound(db)
    ensures var accepted := AcceptStaging(db, id, s, validity, now);
      var allowed :=
        && 1 <= validity <= 86400 && |s.acceptedBy| == 64 && Plans.HexDigits(s.acceptedBy)
        && id in db.deployments && db.deployments[id].artifact.Some?
        && s.repository == db.deployments[id].intent.repository && s.targetSha == db.deployments[id].intent.targetSha
        && s.digest == db.deployments[id].intent.digest && s.config == db.deployments[id].intent.config;
      && (accepted.Success? ==> allowed)
      && (allowed ==>
            var d := db.deployments[id];
            if d.acceptance.Some? then
              accepted ==
                if d.acceptance.value.suite == s.suite && d.acceptance.value.acceptedBy == s.acceptedBy
                then Success(db) else Failure("staging_acceptance_replay_conflict")
            else
              && (accepted.Success? <==> Latest(d, StagingDeploying))
              && (accepted.Success? ==>
                    accepted.value == db.(deployments := db.deployments[id := d.(
                      acceptance := Some(Acceptance(
                        s.repository, s.targetSha, s.digest, s.suite, s.config, s.acceptedBy, now, now + validity)),
                      log := d.log + [StagingValidated])])))
  {
    Plans.HexDigitsAt(s.acceptedBy);
    assert LocalAt(db, id);
    if id in db.deployments {
      ShapedNext(db.deployments[id].intent.kind, db.deployments[id].log, StagingValidated);
    }
  }

  // ---------------------------------------------------------------- approval

  /** create_bound_production_approval stores a new request of the requester for exactly this deployment and digest,
      which is over `ttl` seconds from now, at most a day, and its binding, once, right after staging was accepted. */
  lemma BindsExactly(db: Db, id: Uuid, request: Uuid, key: string, ttl: int, now: int)
    requires Sound(db)
    ensures var bound := BindApproval(db, id, request, key, ttl, now);
      var allowed :=
        && 1 <= |key| <= 200 && Word(key, {'_', '.', '-', ':'}) && 1 <= ttl <= 86400
        && id in db.deployments && db.deployments[id].artifact.Some?;
      && (bound.Success? ==> allowed)
      && (allowed ==>
            var d := db.deployments[id];
            if d.binding.Some? then
              && d.binding.value.request in db.approvals.requests
              && bound ==
                   if db.approvals.requests[d.binding.value.request].key == key then Success(db)
                   else Failure("approval_binding_replay_conflict")
            else
              && (bound.Success? <==>
                    && Latest(d, StagingValidated)
                    && key !in db.approvals.requestKeys && request !in db.approvals.requests)
              && (bound.Success? ==> bound.value == Bound(db, id, request, key, ttl, now)))
  {
    KeysExactly(key);
    assert LocalAt(db, id) && LinkedAt(db, id);
    if id in db.deployments {
      var d := db.deployments[id];
      ShapedNext(d.intent.kind, d.log, PendingState(d.intent.kind));
      RequesterKnown(db, d);
    }
  }

  /** The database with the bound request, its binding and the pending state. */
  function Bound(db: Db, id: Uuid, request: Uuid, key: string, ttl: int, now: int): Db
    requires id in db.deployments
  {
    var d := db.deployments[id];
    var deploys := d.intent.kind.Deploy?;
    var action := if deploys then Approval.ProductionDeploy else Approval.RollbackProduction;
    db.(
      approvals := db.approvals.(
        requests := db.approvals.requests[request := Approval.Request(
          d.intent.user, action, d.intent.repository, None, d.intent.targetSha, Approval.Production, Some(id),
          Some(d.intent.digest), key, now, now + ttl)],
        requestKeys := db.approvals.requestKeys[key := request]),
      deployments := db.deployments[id := d.(
        binding := Some(Binding(
          request, d.intent.repository, d.intent.targetSha, action, d.intent.digest, d.intent.user)),
        log := d.log + [if deploys then ProductionApprovalPending else RollbackApprovalPending])])
  }

  lemma RequesterKnown(db: Db, d: Deployment)
    requires Genuine(db.directory, d.intent.user, d.intent.mapping)
    ensures KnownHuman(db.directory, d.intent.user)
  {
    var p := db.directory.rows[d.intent.mapping].principal;
    assert p in db.directory.principals.Keys;
  }

  // ---------------------------------------------------------------- execution

  /** All that start_production_deployment asks for, row by row. */
  predicate MayStart(db: Db, id: Uuid, attempt: Uuid, owner: string, token: nat, now: int) {
    && owner == "maoxx-production-deployment-supervisor" && attempt !in db.attempts
    && db.lock.Some? && db.lock.value.deployment == id && db.lock.value.owner == owner
    && db.lock.value.token == token && now < db.lock.value.leaseExpiresAt
    && id in db.deployments
    && var d := db.deployments[id];
       && Latest(d, if d.intent.kind.Deploy? then ProductionApprovalPending else RollbackApprovalPending)
       && d.binding.Some? && d.binding.value.request in db.approvals.requests
       && d.binding.value.request in db.approvals.decisions
       && var r, decision :=
            db.approvals.requests[d.binding.value.request], db.approvals.decisions[d.binding.value.request];
          && r.deployment == Some(id) && r.digest == Some(d.intent.digest) && now < r.expiresAt
          && decision.decision.Approved? && decision.decidedAt < r.expiresAt
          && decision.actor != d.intent.user
  }

  /** The database with the consumption of the approval, the attempt and the deploying state. */
  function Started(db: Db, id: Uuid, attempt: Uuid, owner: string, token: nat, images: seq<Item>, now: int): Db
    requires id in db.deployments && db.deployments[id].binding.Some?
    requires db.deployments[id].binding.value.request in db.approvals.decisions
  {
    var d := db.deployments[id];
    var request := d.binding.value.request;
    db.(
      deployments := db.deployments[id := d.(
        log := d.log + [if d.intent.kind.Deploy? then ProductionDeploying else RollbackDeploying],
        consumption := Some(Consumption(request, db.approvals.decisions[request].id, now)),
        attempt := Some(Attempt(attempt, owner, token, Intents.Bound(
          id, attempt, token, d.intent.repository, d.intent.targetSha, images, d.intent.digest, d.intent.revision))))],
      attempts := db.attempts[attempt := id])
  }

  lemma StartExactly(db: Db, id: Uuid, attempt: Uuid, owner: string, token: nat, images: seq<Item>, now: int)
    requires Sound(db)
    ensures var after := Start(db, id, attempt, owner, token, images, now).GetOr(db);
      after == if MayStart(db, id, attempt, owner, token, now) then Started(db, id, attempt, owner, token, images, now)
               else db
  {
    assert LocalAt(db, id) && LinkedAt(db, id);
    if id in db.deployments {
      var d := db.deployments[id];
      ShapedNext(d.intent.kind, d.log, DeployingState(d.intent.kind));
    }
  }

  /** Whether the step stored a first attempt for the deployment. */
  predicate StoresAttempt(a: Db, b: Db, id: Uuid) {
    && id in b.deployments && b.deployments[id].attempt.Some?
    && (id in a.deployments ==> a.deployments[id].attempt.None?)
  }

  /** In every run, starting stores an attempt if and only if the owner is the supervisor, the lock row names this
      deployment, owner and token and its lease still runs, the bound request is for this deployment and digest and not
      over, its decision is an approval from before that by somebody else, the log stands at the pending state, and the
      attempt's id is free; the rows it stores are these, and otherwise nothing changes. */
  lemma StartsExactly(trace: seq<Db>, steps: seq<Step>, start: int, k: nat)
    requires Run(trace, steps, start) && k < |steps| && steps[k].Starting?
    ensures var a, b, s := trace[k], trace[k + 1], steps[k];
      && (StoresAttempt(a, b, s.id) <==> MayStart(a, s.id, s.attempt, s.owner, s.token, s.now))
      && b == if MayStart(a, s.id, s.attempt, s.owner, s.token, s.now)
              then Started(a, s.id, s.attempt, s.owner, s.token, s.images, s.now) else a
  {
    RunSound(trace, steps, start, k);
    assert StepAt(trace, steps, k);
    var s := steps[k];
    StartExactly(trace[k], s.id, s.attempt, s.owner, s.token, s.images, s.now);
    if MayStart(trace[k], s.id, s.attempt, s.owner, s.token, s.now) {
      assert LocalAt(trace[k], s.id);
      ShapedNext(trace[k].deployments[s.id].intent.kind, trace[k].deployments[s.id].log, IntentCreated);
    }
  }
}
