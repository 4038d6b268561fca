/** The deployment service as it works: rows are added to the session one after the other, and a refused step rolls the
    session back to where the transaction began. Each method has exactly the effect of its transaction function. */
module DeploymentSession {
  import opened Wrappers
  import opened UuidText
  import opened CanonicalJson
  import opened DeployStates
  import opened ArtifactPolicy
  import opened DeploymentService
  import opened DeploymentSoundness
  import opened DeploymentContracts
  import Identity = IdentityHistory
  import Approval = ApprovalService
  import Lock = ProductionLock

  // Each transaction keeps the coupled invariant, whether it commits or not.

  lemma IntentKeeps(db: Db, id: Uuid, requester: Identity.Subject, f: Fields)
    requires Sound(db)
    ensures Sound(CreateIntent(db, id, requester, f).GetOr(db))
  {
    if CreateIntent(db, id, requester, f).Success? {
      CreateIntentKeeps(db, id, requester, f);
    }
  }

  lemma ArtifactKeeps(
    db: Db, id: Uuid, repository: string, targetSha: string, digest: string, image: string, run: nat, ci: CiEvidence)
    requires Sound(db)
    ensures Sound(RecordArtifact(db, id, repository, targetSha, digest, image, run, ci).GetOr(db))
  {
    if RecordArtifact(db, id, repository, targetSha, digest, image, run, ci).Success? {
      RecordArtifactKeeps(db, id, repository, targetSha, digest, image, run, ci);
    }
  }

  lemma StagingKeeps(db: Db, id: Uuid)
    requires Sound(db)
    ensures Sound(BeginStaging(db, id).GetOr(db)) && Sound(FailStaging(db, id).GetOr(db))
  {
    if id in db.deployments && Append(db.deployments[id], StagingDeploying).Success? {
      StagingStateKeeps(db, id, StagingDeploying);
    }
    if id in db.deployments && Append(db.deployments[id], StagingFailed).Success? {
      StagingStateKeeps(db, id, StagingFailed);
    }
  }

  lemma AcceptanceKeeps(db: Db, id: Uuid, s: Staged, validity: int, now: int)
    requires Sound(db)
    ensures Sound(AcceptStaging(db, id, s, validity, now).GetOr(db))
  {
    if AcceptStaging(db, id, s, validity, now).Success? {
      AcceptStagingKeeps(db, id, s, validity, now);
    }
  }

  lemma BindingKeeps(db: Db, id: Uuid, request: Uuid, key: string, ttl: int, now: int)
    requires Sound(db)
    ensures Sound(BindApproval(db, id, request, key, ttl, now).GetOr(db))
  {
    if BindApproval(db, id, request, key, ttl, now).Success? {
      BindApprovalKeeps(db, id, request, key, ttl, now);
    }
  }

  lemma StartingKeeps(db: Db, id: Uuid, attempt: Uuid, owner: string, token: nat, images: seq<Item>, now: int)
    requires Sound(db) && now <= db.clock && ImagesRead(db, id, images)
    ensures Sound(Start(db, id, attempt, owner, token, images, now).GetOr(db))
  {
    if Start(db, id, attempt, owner, token, images, now).Success? {
      StartKeeps(db, id, attempt, owner, token, images, now);
    }
  }

  class Session {
    var deployments: map<Uuid, Deployment>
    var intentKeys: map<string, Uuid>
    var attempts: map<Uuid, Uuid>
    var approvals: Approval.Approvals
    var lock: Option<Lock.Lock>
    var directory: Identity.Directory
    var resolved: set<(nat, Identity.Key)>
    var clock: int

    function View(): Db
      reads this
    {
      Db(deployments, intentKeys, attempts, approvals, lock, directory, resolved, clock)
    }

    constructor (start: int)
      ensures View() == Empty(start) && Sound(View())
    {
      deployments, intentKeys, attempts, approvals := map[], map[], map[], Approval.NO_APPROVALS;
      lock, directory, resolved, clock := None, Identity.EMPTY, {}, start;
      new;
      EmptySound(start);
    }

    /** _append_state_event. */
    method AppendStateEvent(id: Uuid, to: DeployState) returns (legal: bool)
      requires id in deployments
      modifies this`deployments
      ensures legal == Append(old(deployments[id]), to).Success?
      ensures deployments ==
        if legal then old(deployments)[id := Append(old(deployments[id]), to).value] else old(deployments)
    {
      var d := deployments[id];
      if !Legal(At(d.log), to) {
        return false;
      }
      deployments := deployments[id := d.(log := d.log + [to])];
      legal := true;
    }

    method CreateDeploymentIntent(id: Uuid, requester: Identity.Subject, f: Fields) returns (r: Result<Uuid, string>)
      requires Identity.Indexed(directory)
      modifies this`deployments, this`intentKeys
      ensures var spec := CreateIntent(old(View()), id, requester, f);
        View() == spec.GetOr(old(View())) && (r.Success? <==> spec.Success?)
      ensures r.Success? ==> r.value in deployments && f.key in intentKeys && intentKeys[f.key] == r.value
      ensures Sound(old(View())) ==> Sound(View())
    {
      if Sound(View()) {
        IntentKeeps(View(), id, requester, f);
      }
      var resolved := Identity.Resolve(directory, requester);
      if resolved.Failure? {
        return Failure("unknown_or_ambiguous_requester_identity");
      }
      if !ValidFields(f) {
        return Failure("invalid_intent");
      }
      var intent := IntentOf(resolved.value, f);
      if f.key in intentKeys {
        var existing := intentKeys[f.key];
        if existing !in deployments || deployments[existing].intent != intent {
          return Failure("deployment idempotency conflict");
        }
        return Success(existing);
      }
      if id in deployments {
        return Failure("unique_violation");
      }
      ghost var began := deployments;
      var empty := Deployment(intent, [], None, None, None, None, None);
      deployments := deployments[id := empty];
      var legal := AppendStateEvent(id, IntentCreated);
      assert legal;
      intentKeys := intentKeys[f.key := id];
      assert deployments == began[id := Append(empty, IntentCreated).value];
      r := Success(id);
    }

    method RecordDeploymentArtifact(
      id: Uuid, repository: string, targetSha: string, digest: string, image: string, run: nat, ci: CiEvidence)
      returns (r: Result<Artifact, string>)
      modifies this`deployments
      ensures var spec := RecordArtifact(old(View()), id, repository, targetSha, digest, image, run, ci);
        View() == spec.GetOr(old(View())) && (r.Success? <==> spec.Success?)
      ensures r.Success? ==> id in deployments && deployments[id].artifact == Some(r.value)
      ensures Sound(old(View())) ==> Sound(View())
    {
      if Sound(View()) {
        ArtifactKeeps(View(), id, repository, targetSha, digest, image, run, ci);
      }
      if !ImmutableArtifact(digest, image) {
        return Failure("invalid_artifact");
      }
      if id !in deployments {
        return Failure("unknown_deployment");
      }
      var d := deployments[id];
      if repository != d.intent.repository || targetSha != d.intent.targetSha || digest != d.intent.digest {
        return Failure("artifact_binding_mismatch");
      }
      if !ValidCi(ci, repository, targetSha, run) {
        return Failure("invalid_ci_evidence");
      }
      var artifact := ArtifactOf(d.intent, repository, targetSha, digest, image, ci);
      if d.artifact.Some? {
        if !SameArtifact(d.artifact.value, artifact) {
          return Failure("artifact_replay_conflict");
        }
        return Success(d.artifact.value);
      }
      var began := deployments;
      deployments := deployments[id := d.(artifact := Some(artifact))];
      var legal := AppendStateEvent(id, ArtifactRecorded);
      if !legal {
        deployments := began;
        return Failure("illegal deployment transition");
      }
      assert deployments == began[id := Append(d.(artifact := Some(artifact)), ArtifactRecorded).value];
      r := Success(artifact);
    }

    method BeginStagingDeployment(id: Uuid) returns (r: Result<(), string>)
      modifies this`deployments
      ensures var spec := BeginStaging(old(View()), id);
        View() == spec.GetOr(old(View())) && (r.Success? <==> spec.Success?)
      ensures Sound(old(View())) ==> Sound(View())
    {
      if Sound(View()) {
        StagingKeeps(View(), id);
      }
      if id !in deployments {
        return Failure("unknown_deployment");
      }
      if At(deployments[id].log) == Some(StagingDeploying) {
        return Success(());
      }
      var legal := AppendStateEvent(id, StagingDeploying);
      r := if legal then Success(()) else Failure("illegal deployment transition");
    }

    method RecordStagingFailure(id: Uuid) returns (r: Result<(), string>)
      modifies this`deployments
      ensures var spec := FailStaging(old(View()), id);
        View() == spec.GetOr(old(View())) && (r.Success? <==> spec.Success?)
      ensures Sound(old(View())) ==> Sound(View())
    {
      if Sound(View()) {
        StagingKeeps(View(), id);
      }
      if id !in deployments {
        return Failure("unknown_deployment");
      }
      var legal := AppendStateEvent(id, StagingFailed);
      r := if legal then Success(()) else Failure("illegal deployment transition");
    }

    method RecordStagingAcceptance(id: Uuid, s: Staged, validity: int, now: int) returns (r: Result<Acceptance, string>)
      modifies this`deployments
      ensures var spec := AcceptStaging(old(View()), id, s, validity, now);
        View() == spec.GetOr(old(View())) && (r.Success? <==> spec.Success?)
      ensures r.Success? ==> id in deployments && deployments[id].acceptance == Some(r.value)
      ensures Sound(old(View())) ==> Sound(View())
    {
      if Sound(View()) {
        AcceptanceKeeps(View(), id, s, validity, now);
      }
      if validity < 1 || validity > MAX_VALIDITY {
        return Failure("invalid staging acceptance validity");
      }
      if !ValidFingerprint(s.acceptedBy) {
        return Failure("invalid staging actor fingerprint");
      }
      if id !in deployments || deployments[id].artifact.None? {
        return Failure("missing_artifact");
      }
      var d := deployments[id];
      if || s.repository != d.intent.repository || s.targetSha != d.intent.targetSha || s.digest != d.intent.digest
         || d.artifact.value.digest != s.digest || s.config != d.intent.config {
        return Failure("staging_binding_mismatch");
      }
      if d.acceptance.Some? {
        var a := d.acceptance.value;
        if Staged(a.repository, a.targetSha, a.digest, a.suite, a.config, a.acceptedBy) != s {
          return Failure("staging_acceptance_replay_conflict");
        }
        return Success(a);
      }
      var began := deployments;
      var acceptance :=
        Acceptance(s.repository, s.targetSha, s.digest, s.suite, s.config, s.acceptedBy, now, now + validity);
      deployments := deployments[id := d.(acceptance := Some(acceptance))];
      var legal := AppendStateEvent(id, StagingValidated);
      if !legal {
        deployments := began;
        return Failure("illegal deployment transition");
      }
      assert deployments == began[id := Append(d.(acceptance := Some(acceptance)), StagingValidated).value];
      r := Success(acceptance);
    }

    method CreateBoundProductionApproval(id: Uuid, request: Uuid, key: string, ttl: int, now: int)
      returns (r: Result<Uuid, string>)
      modifies this`deployments, this`approvals
      ensures var spec := BindApproval(old(View()), id, request, key, ttl, now);
        View() == spec.GetOr(old(View())) && (r.Success? <==> spec.Success?)
      ensures r.Success? ==>
        && id in deployments && deployments[id].binding.Some? && deployments[id].binding.value.request == r.value
        && r.value in approvals.requests && approvals.requests[r.value].key == key
      ensures Sound(old(View())) ==> Sound(View())
    {
      if Sound(View()) {
        BindingKeeps(View(), id, request, key, ttl, now);
      }
      if !ValidKey(key) {
        return Failure("invalid approval idempotency key");
      }
      if ttl < 1 || ttl > Approval.MAX_TTL {
        return Failure("invalid approval ttl");
      }
      if id !in deployments || deployments[id].artifact.None? {
        return Failure("missing_immutable_deployment_intent");
      }
      var d := deployments[id];
      if !KnownHuman(directory, d.intent.user) {
        return Failure("unknown_or_ambiguous_human_identity");
      }
      if d.binding.Some? {
        var bound := d.binding.value.request;
        if bound !in approvals.requests || approvals.requests[bound].key != key {
          return Failure("approval_binding_replay_conflict");
        }
        return Success(bound);
      }
      if key in approvals.requestKeys {
        return Failure("precreated_approval_attachment_forbidden");
      }
      var began, beganApprovals := deployments, approvals;
      var inserted := Approval.Insert(approvals, request, BoundRequest(id, d.intent, key, ttl, now));
      if inserted.Failure? {
        return Failure(inserted.error);
      }
      approvals := inserted.value;
      var binding := Binding(request, d.intent.repository, d.intent.targetSha, ActionOf(d.intent.kind), d.intent.digest,
                             d.intent.user);
      deployments := deployments[id := d.(binding := Some(binding))];
      var legal := AppendStateEvent(id, PendingState(d.intent.kind));
      if !legal {
        deployments, approvals := began, beganApprovals;
        return Failure("illegal deployment transition");
      }
      assert deployments == began[id := Append(d.(binding := Some(binding)), PendingState(d.intent.kind)).value];
      r := Success(request);
    }

    /** The transaction itself, up to its commit or rollback. */
    method PrepareExecution(id: Uuid, attempt: Uuid, owner: string, token: nat, images: seq<Item>, now: int)
      returns (r: Result<Attempt, string>)
      modifies this`deployments, this`attempts
      ensures var spec := Start(old(View()), id, attempt, owner, token, images, now);
        View() == spec.GetOr(old(View())) && (r.Success? <==> spec.Success?)
      ensures r.Success? ==> id in deployments && deployments[id].attempt == Some(r.value)
    {
      if owner != Lock.SUPERVISOR {
        return Failure("unknown_or_ambiguous_executor_identity");
      }
      if id !in deployments {
        return Failure("unknown_deployment");
      }
      var d := deployments[id];
      if d.attempt.Some? {
        return Success(d.attempt.value);
      }
      if d.binding.None? {
        return Failure("missing_approval");
      }
      var request := d.binding.value.request;
      if || request !in approvals.requests || request !in approvals.decisions
         || !HoldsLock(View(), id, owner, token, now) {
        return Failure("deployment_lock_or_approval_invalid");
      }
      var decision := approvals.decisions[request];
      if !Approves(approvals.requests[request], decision, id, d.intent, now) {
        return Failure("approval_binding_or_separation_invalid");
      }
      var began := deployments;
      var legal := AppendStateEvent(id, DeployingState(d.intent.kind));
      if !legal {
        return Failure("illegal deployment transition");
      }
      if d.artifact.None? || attempt in attempts {
        deployments := began;
        return Failure("concurrent_deployment_attempt");
      }
      var row := Attempt(attempt, owner, token, HashedFields(id, attempt, token, d.intent, images));
      deployments := deployments[id := deployments[id].(consumption := Some(Consumption(request, decision.id, now)))];
      deployments := deployments[id := deployments[id].(attempt := Some(row))];
      attempts := attempts[attempt := id];
      assert deployments == began[id := Append(d, DeployingState(d.intent.kind)).value.(
        consumption := Some(Consumption(request, decision.id, now)), attempt := Some(row))];
      r := Success(row);
    }

    method StartProductionDeployment(id: Uuid, attempt: Uuid, owner: string, token: nat, images: seq<Item>, now: int)
      returns (r: Result<Attempt, string>)
      modifies this`deployments, this`attempts
      ensures var spec := Start(old(View()), id, attempt, owner, token, images, now);
        View() == spec.GetOr(old(View())) && (r.Success? <==> spec.Success?)
      ensures r.Success? ==> id in deployments && deployments[id].attempt == Some(r.value)
      ensures old(Sound(View())) ==>
        View() == if old(MayStart(View(), id, attempt, owner, token, now))
                  then Started(old(View()), id, attempt, owner, token, images, now) else old(View())
      ensures old(Sound(View()) && now <= clock && ImagesRead(View(), id, images)) ==> Sound(View())
    {
      ghost var began := View();
      if Sound(began) {
        StartExactly(began, id, attempt, owner, token, images, now);
      }
      r := PrepareExecution(id, attempt, owner, token, images, now);
      if Sound(began) && now <= clock && ImagesRead(began, id, images) {
        StartingKeeps(began, id, attempt, owner, token, images, now);
      }
    }
  }
}
