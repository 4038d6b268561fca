/** Every service call takes effect at most once: replaying a committed call, at any later moment of a run, changes
    nothing. */
module ServiceReplays {
  import opened Wrappers
  import opened UuidText
  import opened DeployStates
  import opened DeploymentService
  import opened DeploymentSoundness
  import Identity = IdentityHistory
  import Approval = ApprovalService

  /** The calls with an idempotency of their own; locks, identities and the clock are meant to move on. */
  predicate IsServiceCall(step: Step) {
    !step.Tick? && !step.ChangeDirectory? && !step.Resolving? && !step.Locking?
  }

  /** The database shows that the call has taken effect, or can no longer take any. */
  predicate Settled(db: Db, step: Step)
    requires IsServiceCall(step)
  {
    match step
    case CreatingIntent(_, _, f) => f.key in db.intentKeys
    case RecordingArtifact(id, _, _, _, _, _, _) => id in db.deployments && db.deployments[id].artifact.Some?
    case BeginningStaging(id) => id in db.deployments && |db.deployments[id].log| >= 3
    case FailingStaging(id) => id in db.deployments && |db.deployments[id].log| >= 4
    case AcceptingStaging(id, _, _, _) => id in db.deployments && db.deployments[id].acceptance.Some?
    case BindingApproval(id, _, _, _, _) => id in db.deployments && db.deployments[id].binding.Some?
    case Requesting(_, asked, _, _) => asked.key in db.approvals.requestKeys
    case Deciding(call, _, _) => call.event in db.approvals.events
    case Starting(id, _, _, _, _, _) => id in db.deployments && db.deployments[id].attempt.Some?
  }

  lemma IntentSettles(db: Db, id: Uuid, requester: Identity.Subject, f: Fields)
    requires Identity.Indexed(db.directory) && CreateIntent(db, id, requester, f).Success?
    ensures f.key in CreateIntent(db, id, requester, f).value.intentKeys
  {
  }

  lemma StagingSettles(db: Db, id: Uuid, to: DeployState)
    requires LocalAt(db, id) && id in db.deployments && Append(db.deployments[id], to).Success?
    ensures to.StagingDeploying? ==> |db.deployments[id].log| == 2
    ensures to.StagingFailed? ==> |db.deployments[id].log| == 3
  {
    var log := db.deployments[id].log;
    assert At(log) == Some(log[|log| - 1]);
  }

  lemma RequestSettles(a: Approval.Approvals, id: Uuid, r: Approval.Request, ttl: int, now: int)
    requires Approval.CreateRequest(a, id, r, ttl, now).Success?
    ensures r.key in Approval.CreateRequest(a, id, r, ttl, now).value.requestKeys
  {
  }

  lemma DecisionSettles(a: Approval.Approvals, call: Approval.Call, id: nat, now: int)
    requires Approval.Sound(a) && Approval.Record(a, call, id, now).0 != a
    ensures call.event in Approval.Record(a, call, id, now).0.events
  {
    Approval.RecordsExactly(a, call, id, now);
  }

  lemma StartSettles(db: Db, step: Step)
    requires step.Starting? && Identity.Indexed(db.directory) && Apply(db, step) != db
    ensures Settled(Apply(db, step), step)
  {
  }

  lemma RowSettles(db: Db, step: Step)
    requires step.RecordingArtifact? || step.AcceptingStaging? || step.BindingApproval?
    requires Identity.Indexed(db.directory) && Apply(db, step) != db
    ensures Settled(Apply(db, step), step)
  {
  }

  lemma CommittedSettles(db: Db, step: Step)
    requires Sound(db) && IsServiceCall(step) && Apply(db, step) != db
    ensures Settled(Apply(db, step), step)
  {
    match step
    case CreatingIntent(id, requester, f) => IntentSettles(db, id, requester, f);
    case BeginningStaging(id) => StagingSettles(db, id, StagingDeploying);
    case FailingStaging(id) => StagingSettles(db, id, StagingFailed);
    case Requesting(request, asked, ttl, now) => RequestSettles(db.approvals, request, asked, ttl, now);
    case Deciding(call, decision, now) => DecisionSettles(db.approvals, call, decision, now);
    case Starting(_, _, _, _, _, _) => StartSettles(db, step);
    case _ => RowSettles(db, step);
  }

  lemma SettledStays(a: Db, b: Db, step: Step)
    requires Sound(a) && Sound(b) && Extends(a, b) && IsServiceCall(step) && Settled(a, step)
    ensures Settled(b, step)
  {
    match step
    case CreatingIntent(_, _, f) => assert KeyKept(a, b, f.key);
    case RecordingArtifact(id, _, _, _, _, _, _) => assert DeploymentKept(a, b, id);
    case BeginningStaging(id) => assert DeploymentKept(a, b, id);
    case FailingStaging(id) => assert DeploymentKept(a, b, id);
    case AcceptingStaging(id, _, _, _) => assert DeploymentKept(a, b, id);
    case BindingApproval(id, _, _, _, _) => assert DeploymentKept(a, b, id);
    case Starting(id, _, _, _, _, _) => assert DeploymentKept(a, b, id);
    case Requesting(_, asked, _, _) => RequestKeyStays(a.approvals, b.approvals, asked.key);
    case Deciding(call, _, _) => EventStays(a.approvals, b.approvals, call.event);
  }

  lemma RequestKeyStays(a: Approval.Approvals, b: Approval.Approvals, key: string)
    requires Approval.Sound(a) && Approval.Sound(b) && ApprovalsGrown(a, b) && key in a.requestKeys
    ensures key in b.requestKeys
  {
    assert Approval.KeyKnown(a, key);
    assert RequestKept(a, b, a.requestKeys[key]);
    assert Approval.RequestIndexed(b, a.requestKeys[key]);
  }

  lemma EventStays(a: Approval.Approvals, b: Approval.Approvals, event: string)
    requires Approval.Sound(a) && Approval.Sound(b) && ApprovalsGrown(a, b) && event in a.events
    ensures event in b.events
  {
    assert Approval.EventKnown(a, event);
    assert DecisionKept(a, b, a.events[event]);
    assert Approval.DecisionSound(b, a.events[event]);
  }

  lemma StagingIsInert(db: Db, id: Uuid)
    requires LocalAt(db, id) && id in db.deployments
    ensures |db.deployments[id].log| >= 3 ==> BeginStaging(db, id).GetOr(db) == db
    ensures |db.deployments[id].log| >= 4 ==> FailStaging(db, id).GetOr(db) == db
  {
    ShapedPast(db.deployments[id].intent.kind, db.deployments[id].log);
  }

  lemma DecisionIsInert(a: Approval.Approvals, call: Approval.Call, id: nat, now: int)
    requires Approval.Sound(a) && call.event in a.events
    ensures Approval.Record(a, call, id, now).0 == a
  {
    Approval.RecordsExactly(a, call, id, now);
  }

  lemma SettledIsInert(db: Db, step: Step)
    requires Sound(db) && IsServiceCall(step) && Settled(db, step)
    ensures Apply(db, step) == db
  {
    match step
    case BeginningStaging(id) => StagingIsInert(db, id);
    case FailingStaging(id) => StagingIsInert(db, id);
    case Deciding(call, decision, now) => DecisionIsInert(db.approvals, call, decision, now);
    case _ => {}
  }

  /** Past its place a staging state cannot be appended. */
  lemma ShapedPast(kind: Kind, log: seq<DeployState>)
    requires Shaped(kind, log)
    ensures |log| >= 3 && At(log) != Some(StagingDeploying) ==> !Legal(At(log), StagingDeploying)
    ensures |log| >= 4 ==> !Legal(At(log), StagingFailed)
  {
    assert At(log) == Some(log[|log| - 1]);
  }

  lemma CommittedMomentSettles(trace: seq<Db>, steps: seq<Step>, start: int, i: nat)
    requires Run(trace, steps, start) && i < |steps| && IsServiceCall(steps[i]) && trace[i + 1] != trace[i]
    ensures Settled(trace[i + 1], steps[i])
  {
    RunSound(trace, steps, start, i);
    assert StepAt(trace, steps, i);
    CommittedSettles(trace[i], steps[i]);
  }

  lemma LaterMomentSettled(trace: seq<Db>, steps: seq<Step>, start: int, i: nat, j: nat, step: Step)
    requires Run(trace, steps, start) && i <= j < |trace| && IsServiceCall(step) && Settled(trace[i], step)
    ensures Settled(trace[j], step)
  {
    RunSound(trace, steps, start, i);
    RunSound(trace, steps, start, j);
    RunExtends(trace, steps, start, i, j);
    SettledStays(trace[i], trace[j], step);
  }

  /** The transaction leaves the database as it is. */
  predicate Inert(db: Db, step: Step) {
    Identity.Indexed(db.directory) && Apply(db, step) == db
  }

  /** Replaying a call that once committed, at any later moment and after any other transactions, changes nothing:
      intents, artifacts, staging results, bindings, requests, decisions and attempts all happen at most once. */
  lemma ReplayChangesNothing(trace: seq<Db>, steps: seq<Step>, start: int, i: nat, j: nat)
    requires Run(trace, steps, start) && i < j < |trace| && IsServiceCall(steps[i]) && trace[i + 1] != trace[i]
    ensures Inert(trace[j], steps[i])
  {
    CommittedMomentSettles(trace, steps, start, i);
    LaterMomentSettled(trace, steps, start, i + 1, j, steps[i]);
    RunSound(trace, steps, start, j);
    SettledIsInert(trace[j], steps[i]);
  }
}
