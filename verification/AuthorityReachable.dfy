/** The authority that the loading theorems speak of can be had: every valid intent can come to a live attempt. */
module AuthorityReachable {
  import opened Wrappers
  import opened UuidText
  import opened CanonicalJson
  import opened ApprovalText
  import opened DeployStates
  import opened ArtifactPolicy
  import opened DeploymentService
  import opened DeploymentSoundness
  import opened AttemptLoading
  import Health = HealthContract
  import Identity = IdentityHistory
  import Approval = ApprovalService
  import Lock = ProductionLock

  ghost predicate Reached(db: Db) {
    Leads(Empty(0), db)
  }

  lemma ReachNext(db: Db, step: Step)
    requires Reached(db) && Identity.Indexed(db.directory) && Timely(db, step)
    ensures Reached(Apply(db, step))
  {
    LeadsOn(Empty(0), db, step);
  }

  // ---------------------------------------------------------------- the story: two people, one deployment

  const REQUESTER := Identity.Subject("tenant", "requester")
  const APPROVER := Identity.Subject("tenant", "approver")
  const DEPLOYMENT: Uuid := 7
  const REQUEST: Uuid := 70
  const ATTEMPT: Uuid := 77
  const DECISION := 700
  const TESTER := Hex(0, 64)

  function Person(user: nat, key: string): Identity.Principal {
    Identity.Principal(Identity.Human, key, Some(user))
  }

  function People(): Identity.Directory {
    Identity.Directory(
      map[1 := Person(1, "r"), 2 := Person(2, "a")],
      map[Identity.Key(REQUESTER, 1) := Identity.OpenRow(1, 0), Identity.Key(APPROVER, 1) := Identity.OpenRow(2, 0)],
      map[REQUESTER := 1, APPROVER := 1])
  }

  /** The directory, and the approver's own mapping as the worker will have resolved it. */
  function Prepared(): Db {
    Empty(0).(directory := People(), resolved := {(2, Identity.Key(APPROVER, 1))})
  }

  lemma PeopleReached()
    ensures Reached(Prepared())
  {
    var a := Empty(0);
    LeadsNowhere(a);
    var r, s := Person(1, "r"), Person(2, "a");
    var b := a.(directory := Identity.Directory(map[1 := r], map[], map[]));
    assert Apply(a, ChangeDirectory(Identity.Provisioning(1, Identity.Human, "r", Some(1)))) == b;
    ReachNext(a, ChangeDirectory(Identity.Provisioning(1, Identity.Human, "r", Some(1))));
    var c := a.(directory := Identity.Directory(map[1 := r, 2 := s], map[], map[]));
    assert Apply(b, ChangeDirectory(Identity.Provisioning(2, Identity.Human, "a", Some(2)))) == c;
    ReachNext(b, ChangeDirectory(Identity.Provisioning(2, Identity.Human, "a", Some(2))));
    AssignedReached(c);
    var d := Empty(0).(directory := People());
    assert Identity.Resolve(d.directory, APPROVER) == Success((2, 2, Identity.Key(APPROVER, 1)));
    assert Apply(d, Resolving(APPROVER)) == Prepared();
    ReachNext(d, Resolving(APPROVER));
  }

  lemma AssignedReached(c: Db)
    requires Reached(c)
    requires c == Empty(0).(
      directory := Identity.Directory(map[1 := Person(1, "r"), 2 := Person(2, "a")], map[], map[]))
    ensures Reached(Empty(0).(directory := People()))
  {
    var d := c.(directory := c.directory.(
      rows := map[Identity.Key(REQUESTER, 1) := Identity.OpenRow(1, 0)], active := map[REQUESTER := 1]));
    assert Apply(c, ChangeDirectory(Identity.Assigning(REQUESTER, 1, 0, false))) == d;
    ReachNext(c, ChangeDirectory(Identity.Assigning(REQUESTER, 1, 0, false)));
    assert Identity.Key(APPROVER, 1) != Identity.Key(REQUESTER, 1) by {
      assert REQUESTER.openId[0] != APPROVER.openId[0];
    }
    assert Apply(d, ChangeDirectory(Identity.Assigning(APPROVER, 2, 0, false))) == Empty(0).(directory := People());
    ReachNext(d, ChangeDirectory(Identity.Assigning(APPROVER, 2, 0, false)));
  }

  function TheIntent(f: Fields): Intent {
    IntentOf((1, 1, Identity.Key(REQUESTER, 1)), f)
  }

  function Fresh(f: Fields): Deployment {
    Deployment(TheIntent(f), [] + [IntentCreated], None, None, None, None, None)
  }

  function TheCi(f: Fields): CiEvidence {
    CiEvidence(f.repository, f.targetSha, 1, true, 0)
  }

  function WithArtifact(f: Fields, image: string): Deployment {
    var intent := TheIntent(f);
    Fresh(f).(log := Fresh(f).log + [ArtifactRecorded],
              artifact := Some(ArtifactOf(intent, f.repository, f.targetSha, f.digest, image, TheCi(f))))
  }

  function InStaging(f: Fields, image: string): Deployment {
    WithArtifact(f, image).(log := WithArtifact(f, image).log + [StagingDeploying])
  }

  function Accepted(f: Fields, image: string): Deployment {
    InStaging(f, image).(
      log := InStaging(f, image).log + [StagingValidated],
      acceptance := Some(Acceptance(f.repository, f.targetSha, f.digest, "suite", f.config, TESTER, 0, 900)))
  }

  function Bound(f: Fields, image: string): Deployment {
    Accepted(f, image).(
      log := Accepted(f, image).log + [PendingState(f.kind)],
      binding := Some(Binding(REQUEST, f.repository, f.targetSha, ActionOf(f.kind), f.digest, 1)))
  }

  function With(f: Fields, d: Deployment): Db {
    Prepared().(deployments := map[DEPLOYMENT := d], intentKeys := map[f.key := DEPLOYMENT])
  }

  lemma IntentReached(f: Fields)
    requires ValidFields(f)
    ensures Reached(With(f, Fresh(f)))
  {
    PeopleReached();
    var db := Prepared();
    assert Identity.Resolve(db.directory, REQUESTER) == Success((1, 1, Identity.Key(REQUESTER, 1)));
    assert Append(Deployment(TheIntent(f), [], None, None, None, None, None), IntentCreated) == Success(Fresh(f));
    assert Apply(db, CreatingIntent(DEPLOYMENT, REQUESTER, f)) == With(f, Fresh(f));
    ReachNext(db, CreatingIntent(DEPLOYMENT, REQUESTER, f));
  }

  lemma ArtifactRecords(f: Fields, image: string)
    requires ImmutableArtifact(f.digest, image)
    ensures RecordArtifact(With(f, Fresh(f)), DEPLOYMENT, f.repository, f.targetSha, f.digest, image, 1, TheCi(f))
         == Success(With(f, WithArtifact(f, image)))
  {
    var db := With(f, Fresh(f));
    assert db.deployments[DEPLOYMENT := WithArtifact(f, image)] == map[DEPLOYMENT := WithArtifact(f, image)];
  }

  lemma ArtifactReached(f: Fields, image: string)
    requires ValidFields(f) && ImmutableArtifact(f.digest, image)
    ensures Reached(With(f, WithArtifact(f, image)))
  {
    IntentReached(f);
    ArtifactRecords(f, image);
    ReachNext(With(f, Fresh(f)),
              RecordingArtifact(DEPLOYMENT, f.repository, f.targetSha, f.digest, image, 1, TheCi(f)));
  }

  lemma StagingBegins(f: Fields, image: string)
    ensures BeginStaging(With(f, WithArtifact(f, image)), DEPLOYMENT) == Success(With(f, InStaging(f, image)))
  {
    var db := With(f, WithArtifact(f, image));
    assert db.deployments[DEPLOYMENT := InStaging(f, image)] == map[DEPLOYMENT := InStaging(f, image)];
  }

  lemma StagingReached(f: Fields, image: string)
    requires ValidFields(f) && ImmutableArtifact(f.digest, image)
    ensures Reached(With(f, InStaging(f, image)))
  {
    ArtifactReached(f, image);
    StagingBegins(f, image);
    ReachNext(With(f, WithArtifact(f, image)), BeginningStaging(DEPLOYMENT));
  }

  function TheStaged(f: Fields): Staged {
    Staged(f.repository, f.targetSha, f.digest, "suite", f.config, TESTER)
  }

  lemma StagingAccepts(f: Fields, image: string)
    ensures AcceptStaging(With(f, InStaging(f, image)), DEPLOYMENT, TheStaged(f), 900, 0)
         == Success(With(f, Accepted(f, image)))
  {
    assert forall i :: 0 <= i < 64 ==> TESTER[i] in TESTER;
    var db := With(f, InStaging(f, image));
    assert db.deployments[DEPLOYMENT := Accepted(f, image)] == map[DEPLOYMENT := Accepted(f, image)];
  }

  lemma AcceptedReached(f: Fields, image: string)
    requires ValidFields(f) && ImmutableArtifact(f.digest, image)
    ensures Reached(With(f, Accepted(f, image)))
  {
    StagingReached(f, image);
    StagingAccepts(f, image);
    ReachNext(With(f, InStaging(f, image)), AcceptingStaging(DEPLOYMENT, TheStaged(f), 900, 0));
  }

  function TheRequest(f: Fields): Approval.Request {
    BoundRequest(DEPLOYMENT, TheIntent(f), "approval", 900, 0)
  }

  function Asked(f: Fields): Approval.Approvals {
    Approval.NO_APPROVALS.(requests := map[REQUEST := TheRequest(f)], requestKeys := map["approval" := REQUEST])
  }

  function TheCall(): Approval.Call {
    Approval.Call(Command(Approved, REQUEST), "event", 2, "approver", Some(Identity.Key(APPROVER, 1)))
  }

  function Answered(f: Fields): Approval.Approvals {
    Asked(f).(decisions := map[REQUEST := Approval.RowOf(TheCall(), DECISION, 0)],
              decisionIds := map[DECISION := REQUEST], events := map["event" := REQUEST])
  }

  lemma ApprovalBinds(f: Fields, image: string)
    ensures BindApproval(With(f, Accepted(f, image)), DEPLOYMENT, REQUEST, "approval", 900, 0)
         == Success(With(f, Bound(f, image)).(approvals := Asked(f)))
  {
    var db := With(f, Accepted(f, image));
    assert KnownHuman(db.directory, 1) by {
      assert 1 in db.directory.principals.Keys;
    }
    assert Legal(At(Accepted(f, image).log), PendingState(f.kind));
    assert Approval.Insert(db.approvals, REQUEST, TheRequest(f)) == Success(Asked(f));
    assert db.deployments[DEPLOYMENT := Bound(f, image)] == map[DEPLOYMENT := Bound(f, image)];
  }

  lemma BoundReached(f: Fields, image: string)
    requires ValidFields(f) && ImmutableArtifact(f.digest, image)
    ensures Reached(With(f, Bound(f, image)).(approvals := Asked(f)))
  {
    AcceptedReached(f, image);
    ApprovalBinds(f, image);
    ReachNext(With(f, Accepted(f, image)), BindingApproval(DEPLOYMENT, REQUEST, "approval", 900, 0));
  }

  function TheLock(): Lock.Lock {
    Lock.Lock(DEPLOYMENT, Lock.SUPERVISOR, 1, 0, 0, 900, None)
  }

  lemma ReadyReached(f: Fields, image: string)
    requires ValidFields(f) && ImmutableArtifact(f.digest, image)
    ensures Reached(With(f, Bound(f, image)).(approvals := Answered(f), lock := Some(TheLock())))
  {
    BoundReached(f, image);
    var db := With(f, Bound(f, image)).(approvals := Asked(f));
    var decided := db.(approvals := Answered(f));
    assert Approval.Record(db.approvals, TheCall(), DECISION, 0).0 == Answered(f);
    assert Timely(db, Deciding(TheCall(), DECISION, 0));
    assert Apply(db, Deciding(TheCall(), DECISION, 0)) == decided;
    ReachNext(db, Deciding(TheCall(), DECISION, 0));
    var step := Locking(Lock.Acquiring(DEPLOYMENT, Lock.SUPERVISOR, 0, 900));
    assert Apply(decided, step) == decided.(lock := Some(TheLock()));
    ReachNext(decided, step);
  }

  /** A listing of the service map of an artifact. */
  lemma ListingOf(services: set<Health.Service>, image: string) returns (images: seq<Item>)
    requires forall s <- services :: !s.Unapproved?
    ensures Lists(images, map s | s in services :: image)
  {
    images := [];
    if Health.Api in services {
      images := images + [Item("api", image)];
    }
    if Health.FeishuWorker in services {
      images := images + [Item("feishu-worker", image)];
    }
    assert "api"[0] != "feishu-worker"[0];
    var listed := map s | s in services :: image;
    forall s <- listed.Keys ensures Item(ServiceName(s), listed[s]) in images {
    }
    forall item <- images ensures exists s <- listed.Keys :: item == Item(ServiceName(s), listed[s]) {
      var s := if item.key == "api" then Health.Api else Health.FeishuWorker;
      assert s in listed.Keys && item == Item(ServiceName(s), listed[s]);
    }
  }

  lemma StartSucceeds(f: Fields, image: string, images: seq<Item>)
    requires ValidFields(f)
    ensures var db := With(f, Bound(f, image)).(approvals := Answered(f), lock := Some(TheLock()));
      var after := Apply(db, Starting(DEPLOYMENT, ATTEMPT, Lock.SUPERVISOR, 1, images, 0));
      && ATTEMPT in after.attempts && after.attempts[ATTEMPT] == DEPLOYMENT
      && DEPLOYMENT in after.deployments && after.lock == Some(TheLock())
      && after.deployments[DEPLOYMENT].attempt.Some? && after.deployments[DEPLOYMENT].attempt.value.token == 1
      && after.deployments[DEPLOYMENT].artifact == Bound(f, image).artifact
      && after.deployments[DEPLOYMENT].acceptance == Bound(f, image).acceptance
      && after.deployments[DEPLOYMENT].intent == TheIntent(f)
  {
    assert Legal(At(Bound(f, image).log), DeployingState(f.kind));
    assert 2 != TheIntent(f).user;
  }

  /** For every valid intent and every immutable image of its digest there is a run of the services after which load
      hands the supervisor an attempt for it. */
  lemma AuthorityIsReachable(f: Fields, image: string) returns (db: Db, outside: Outside)
    requires ValidFields(f) && ImmutableArtifact(f.digest, image)
    ensures Reached(db) && ReadsImages(db, ATTEMPT, outside)
    ensures Load(db, ATTEMPT, outside).Success?
    ensures Load(db, ATTEMPT, outside).value.targetSha == f.targetSha
  {
    ReadyReached(f, image);
    var ready := With(f, Bound(f, image)).(approvals := Answered(f), lock := Some(TheLock()));
    var images := ListingOf(TheIntent(f).services, image);
    var step := Starting(DEPLOYMENT, ATTEMPT, Lock.SUPERVISOR, 1, images, 0);
    assert Timely(ready, step);
    db := Apply(ready, step);
    ReachNext(ready, step);
    StartSucceeds(f, image, images);
    outside := Outside(Some(Backup(true, BACKUP_AUTHORITY, Some(0), Some(0))), Some(TheCi(f)), 0, images);
    LoadsWhenReached(db, outside);
  }

  lemma LoadsWhenReached(db: Db, outside: Outside)
    requires Reached(db) && ReadsImages(db, ATTEMPT, outside) && ATTEMPT in db.attempts
    requires db.attempts[ATTEMPT] in db.deployments
    requires Live(db, db.attempts[ATTEMPT], db.deployments[db.attempts[ATTEMPT]], outside)
    ensures Load(db, ATTEMPT, outside).Success?
  {
    var trace, steps :| Path(trace, steps) && trace[0] == Empty(0) && trace[|steps|] == db;
    assert Run(trace, steps, 0);
    LoadsExactlyTheLive(trace, steps, 0, |steps|, ATTEMPT, outside);
  }
}
