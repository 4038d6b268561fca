/** The Docker runtime's side of the health contract: what observe makes of the containers it finds, when one
    poll of the full contract succeeds, and how verify_health repeats that poll until the deadline. */
module DockerHealth {
  import opened Wrappers
  import opened HealthContract

  const HEALTH_POLL_SECONDS := 5

  /** The labels under com.maoxx. that the runtime reads. */
  datatype LabelKey =
    | DeploymentId
    | ExecutionAttemptId
    | TargetSha
    | ImageDigest
    | FencingEpoch
    | IntentHash

  const LABEL_KEYS := {DeploymentId, ExecutionAttemptId, TargetSha, ImageDigest, FencingEpoch, IntentHash}

  /** A container status, lower-cased. */
  datatype Status = Created | Restarting | Removing | Paused | Settled(text: string)

  /** A label value, by what it prints: an id or an epoch, or other text. */
  datatype Label = Number(n: nat) | Text(text: string)

  datatype Container = Container(
    status: Status,
    running: bool,
    oomKilled: Option<bool>,
    health: Option<string>,
    labels: map<LabelKey, Label>,
    configuredImage: string,
    imageId: string,
    restartCount: int)

  datatype ImageDetail = ImageDetail(id: string, repoDigests: set<string>)

  datatype Row = Row(service: Service, container: string)

  /** What the process listing says: it failed, it was no JSON list, or its rows. */
  datatype Listing = CommandFailed | NoList | Rows(rows: seq<Row>)

  datatype Snapshot = Snapshot(
    state: RuntimeState, bound: bool, transitional: bool, containers: map<Service, Container>)

  // ---------------------------------------------------------------- observe

  function Selected(rows: seq<Row>, services: set<Service>): (selected: map<Service, string>)
    ensures selected.Keys <= services
  {
    if rows == [] then map[]
    else
      var last := rows[|rows| - 1];
      var selected := Selected(rows[..|rows| - 1], services);
      if last.service in services then selected[last.service := last.container] else selected
  }

  function Inspected(selected: map<Service, string>, details: map<string, Container>): map<Service, Container> {
    map service | service in selected && selected[service] in details :: details[selected[service]]
  }

  predicate Transitional(c: Container) {
    !c.status.Settled?
  }

  datatype Binding = Binding(
    deploymentId: Option<Label>, attemptId: Option<Label>, fencingEpoch: Option<Label>, intentHash: Option<Label>)

  function Get(labels: map<LabelKey, Label>, key: LabelKey): Option<Label> {
    if key in labels then Some(labels[key]) else None
  }

  function BindingOf(c: Container): Binding {
    Binding(Get(c.labels, DeploymentId), Get(c.labels, ExecutionAttemptId),
            Get(c.labels, FencingEpoch), Get(c.labels, IntentHash))
  }

  function ExpectedBinding(attempt: SupervisorAttempt): Binding {
    Binding(Some(Number(attempt.deploymentId)), Some(Number(attempt.attemptId)),
            Some(Number(attempt.fencingEpoch)), Some(Text(attempt.intentHash)))
  }

  /** observe: the listing is reduced to the attempt's services (a later row of a service wins), each container
      is inspected, and a container that cannot be inspected is dropped. */
  function Observe(attempt: SupervisorAttempt, listing: Listing, details: map<string, Container>): Snapshot {
    if listing.CommandFailed? then Snapshot(Unknown, false, true, map[])
    else
      var services := attempt.serviceImages.Keys;
      var rows := if listing.Rows? then listing.rows else [];
      var found := Inspected(Selected(rows, services), details);
      var bindings := set service | service in found :: BindingOf(found[service]);
      var bound := bindings == {ExpectedBinding(attempt)};
      var transitional := exists service <- found.Keys :: Transitional(found[service]);
      var running := |found| == |services| && forall service <- found.Keys :: found[service].running;
      var state :=
        if |found| == 0 then NotStarted
        else if transitional then Unknown
        else if !bound then Unknown
        else if !running then Failed
        else CompletedHealthUnknown;
      Snapshot(state, bound, transitional, found)
  }

  lemma SubsetOfSameSize<T>(a: set<T>, b: set<T>)
    requires a <= b && |a| == |b|
    ensures a == b
  {
    if x :| x in b && x !in a {
      assert a <= b - {x};
      SmallerSubset(a, b - {x});
    }
  }

  lemma {:induction false} SmallerSubset<T>(a: set<T>, b: set<T>)
    requires a <= b
    ensures |a| <= |b|
  {
    if x :| x in a {
      SmallerSubset(a - {x}, b - {x});
    }
  }

  /** Every container of the snapshot belongs to the attempt and carries its binding. */
  predicate AllBound(attempt: SupervisorAttempt, containers: map<Service, Container>) {
    forall service <- containers.Keys :: BindingOf(containers[service]) == ExpectedBinding(attempt)
  }

  lemma BoundMeansAllBound(attempt: SupervisorAttempt, found: map<Service, Container>)
    requires |found| != 0
    ensures (set service | service in found :: BindingOf(found[service])) == {ExpectedBinding(attempt)}
       <==> AllBound(attempt, found)
  {
    var bindings := set service | service in found :: BindingOf(found[service]);
    assert forall service <- found.Keys :: BindingOf(found[service]) in bindings;
    var some :| some in found;
    assert BindingOf(found[some]) in bindings;
    if AllBound(attempt, found) {
      assert forall b <- bindings :: b == ExpectedBinding(attempt);
    }
  }

  /** Label by label: the container belongs to this deployment, attempt, epoch and hash. */
  predicate Labelled(attempt: SupervisorAttempt, c: Container) {
    && {DeploymentId, ExecutionAttemptId, FencingEpoch, IntentHash} <= c.labels.Keys
    && c.labels[DeploymentId] == Number(attempt.deploymentId)
    && c.labels[ExecutionAttemptId] == Number(attempt.attemptId)
    && c.labels[FencingEpoch] == Number(attempt.fencingEpoch)
    && c.labels[IntentHash] == Text(attempt.intentHash)
  }

  lemma LabelledExactly(attempt: SupervisorAttempt, c: Container)
    ensures BindingOf(c) == ExpectedBinding(attempt) <==> Labelled(attempt, c)
  {
  }

  /** Docker alone never reports Healthy or InProgress; it reports "completed, health unknown" exactly when every
      service of the attempt has an inspected, running, settled container labelled for this deployment, attempt,
      epoch and hash; and it reports "failed" exactly when what it found is labelled so and settled but not all of
      it is there and running. */
  lemma ObservesExactly(attempt: SupervisorAttempt, listing: Listing, details: map<string, Container>)
    ensures var seen := Observe(attempt, listing, details);
      && !seen.state.Healthy? && !seen.state.InProgress?
      && seen.containers.Keys <= attempt.serviceImages.Keys
      && (seen.state.CompletedHealthUnknown?
          <==> && seen.containers != map[]
               && seen.containers.Keys == attempt.serviceImages.Keys
               && forall service <- seen.containers.Keys ::
                 && Labelled(attempt, seen.containers[service])
                 && seen.containers[service].running && seen.containers[service].status.Settled?)
      && (seen.state.Failed?
          <==> && seen.containers != map[]
               && (forall service <- seen.containers.Keys ::
                     Labelled(attempt, seen.containers[service]) && seen.containers[service].status.Settled?)
               && (seen.containers.Keys != attempt.serviceImages.Keys
                   || exists service <- seen.containers.Keys :: !seen.containers[service].running))
      && (seen.state.NotStarted? <==> !listing.CommandFailed? && seen.containers == map[])
      && (seen.transitional
          <==> listing.CommandFailed? || exists service <- seen.containers.Keys ::
                 !seen.containers[service].status.Settled?)
  {
    var seen := Observe(attempt, listing, details);
    var found := seen.containers;
    forall service <- found.Keys
      ensures BindingOf(found[service]) == ExpectedBinding(attempt) <==> Labelled(attempt, found[service])
    {
      LabelledExactly(attempt, found[service]);
    }
    if !listing.CommandFailed? && |found| != 0 {
      BoundMeansAllBound(attempt, found);
      assert |found| == |found.Keys|;
      if |found| == |attempt.serviceImages.Keys| {
        SubsetOfSameSize(found.Keys, attempt.serviceImages.Keys);
      }
    }
  }

  // ---------------------------------------------------------------- one poll of the contract

  /** Everything the host answers during one poll, with the three clock readings the poll takes. */
  datatype Poll =
    | Broken // a command timed out: an exception that is no SupervisorError
    | Answered(
        listing: Listing,
        details: map<string, Container>,
        observedAt: int,
        images: map<string, ImageDetail>,
        http: bool,
        database: bool,
        worker: bool,
        migration: Option<string>,
        judgedAt: int,
        completedAt: int)

  /** Why a poll failed. The first two are SupervisorErrors and are caught, anything else is not. */
  datatype HealthError = TimeoutOrUnknown | MandatoryCheckFailed | Foreign

  function ExpectedLabel(attempt: SupervisorAttempt, key: LabelKey): Label {
    match key
    case DeploymentId => Number(attempt.deploymentId)
    case ExecutionAttemptId => Number(attempt.attemptId)
    case TargetSha => Text(attempt.targetSha)
    case ImageDigest => Text(attempt.artifactDigest)
    case FencingEpoch => Number(attempt.fencingEpoch)
    case IntentHash => Text(attempt.intentHash)
  }

  /** The container runs exactly the pinned image and is labelled for this attempt. */
  predicate Immutable(attempt: SupervisorAttempt, service: Service, c: Container, images: map<string, ImageDetail>)
    requires service in attempt.serviceImages
  {
    var expected := attempt.serviceImages[service];
    && c.configuredImage == expected
    && expected in images && expected in images[expected].repoDigests && c.imageId == images[expected].id
    && forall key <- LABEL_KEYS :: Get(c.labels, key) == Some(ExpectedLabel(attempt, key))
  }

  /** A container without a health check of its own counts as healthy. */
  predicate Sound(c: Container) {
    c.running && c.oomKilled == Some(false) && c.restartCount == 0 && (c.health.None? || c.health.value == "healthy")
  }

  /** The host's answers about the attempt's containers are all as the contract wants them. */
  predicate ContainersFulfil(
    attempt: SupervisorAttempt, poll: Poll, containers: map<Service, Container>, deadline: int)
    requires poll.Answered? && attempt.serviceImages.Keys <= containers.Keys
  {
    && (forall service <- attempt.serviceImages.Keys ::
          && Sound(containers[service])
          && Immutable(attempt, service, containers[service], poll.images))
    && (Api in attempt.serviceImages ==> poll.http && poll.database)
    && (FeishuWorker in attempt.serviceImages ==> poll.worker)
    && (attempt.migrationRevision.None? || poll.migration == attempt.migrationRevision)
    && poll.judgedAt < deadline
  }

  /** The whole contract, said at once: what the host must have answered for one poll to succeed. */
  predicate Fulfils(attempt: SupervisorAttempt, poll: Poll, deadline: int)
    requires poll.Answered?
  {
    var seen := Observe(attempt, poll.listing, poll.details);
    && poll.observedAt < deadline
    && seen.state.CompletedHealthUnknown?
    && attempt.serviceImages.Keys <= seen.containers.Keys
    && ContainersFulfil(attempt, poll, seen.containers, deadline)
  }

  /** Field by field, a container that runs this deployment: up and settled, never killed or restarted, healthy if
      it has a health check, on the pinned image, and labelled with exactly this deployment, attempt, commit,
      digest, epoch and hash. */
  predicate Deployed(attempt: SupervisorAttempt, service: Service, c: Container, images: map<string, ImageDetail>)
    requires service in attempt.serviceImages
  {
    var image := attempt.serviceImages[service];
    && c.running && c.status.Settled? && c.oomKilled == Some(false) && c.restartCount == 0
    && (c.health == None || c.health == Some("healthy"))
    && c.configuredImage == image
    && image in images && c.imageId == images[image].id && image in images[image].repoDigests
    && {DeploymentId, ExecutionAttemptId, TargetSha, ImageDigest, FencingEpoch, IntentHash} <= c.labels.Keys
    && c.labels[DeploymentId] == Number(attempt.deploymentId)
    && c.labels[ExecutionAttemptId] == Number(attempt.attemptId)
    && c.labels[TargetSha] == Text(attempt.targetSha)
    && c.labels[ImageDigest] == Text(attempt.artifactDigest)
    && c.labels[FencingEpoch] == Number(attempt.fencingEpoch)
    && c.labels[IntentHash] == Text(attempt.intentHash)
  }

  /** The contract of one poll, written out: it was asked and judged in time, every service of the attempt runs deployed
      and there is one, the probes of the services answered, and the database is at the expected revision. */
  predicate Contract(attempt: SupervisorAttempt, poll: Poll, deadline: int)
    requires poll.Answered?
  {
    var containers := Observe(attempt, poll.listing, poll.details).containers;
    && poll.observedAt < deadline && poll.judgedAt < deadline
    && attempt.serviceImages != map[] && containers.Keys == attempt.serviceImages.Keys
    && (forall service <- attempt.serviceImages.Keys ::
          Deployed(attempt, service, containers[service], poll.images))
    && (Api in attempt.serviceImages ==> poll.http && poll.database)
    && (FeishuWorker in attempt.serviceImages ==> poll.worker)
    && (attempt.migrationRevision == None || poll.migration == attempt.migrationRevision)
  }

  lemma DeployedExactly(attempt: SupervisorAttempt, service: Service, c: Container, images: map<string, ImageDetail>)
    requires service in attempt.serviceImages
    ensures Deployed(attempt, service, c, images) <==>
      Sound(c) && Immutable(attempt, service, c, images) && !Transitional(c)
    ensures Deployed(attempt, service, c, images) ==> Labelled(attempt, c)
  {
    if Immutable(attempt, service, c, images) {
      assert forall key <- LABEL_KEYS :: Get(c.labels, key) == Some(ExpectedLabel(attempt, key));
      assert {DeploymentId, ExecutionAttemptId, TargetSha} <= LABEL_KEYS;
      assert {ImageDigest, FencingEpoch, IntentHash} <= LABEL_KEYS;
    }
  }

  /** A poll succeeds exactly if the host met the contract field by field. */
  lemma FulfilledExactly(attempt: SupervisorAttempt, poll: Poll, deadline: int)
    requires poll.Answered?
    ensures Fulfils(attempt, poll, deadline) <==> Contract(attempt, poll, deadline)
  {
    var containers := Observe(attempt, poll.listing, poll.details).containers;
    ObservesExactly(attempt, poll.listing, poll.details);
    forall service <- attempt.serviceImages.Keys | service in containers
      ensures Deployed(attempt, service, containers[service], poll.images) <==>
        && Sound(containers[service]) && Immutable(attempt, service, containers[service], poll.images)
        && !Transitional(containers[service])
      ensures Deployed(attempt, service, containers[service], poll.images) ==> Labelled(attempt, containers[service])
    {
      DeployedExactly(attempt, service, containers[service], poll.images);
    }
  }

  /** Which container stands for a service: the one that the last row of the service names, if it can be inspected. */
  predicate Names(rows: seq<Row>, details: map<string, Container>, service: Service, i: int)
    requires 0 <= i < |rows|
  {
    && rows[i].service == service && rows[i].container in details
    && forall j :: i < j < |rows| ==> rows[j].service != service
  }

  lemma {:induction false} SelectedExactly(rows: seq<Row>, services: set<Service>, service: Service)
    ensures service in Selected(rows, services) <==>
      service in services && exists i :: 0 <= i < |rows| && rows[i].service == service
    ensures forall i :: 0 <= i < |rows| && service in services && rows[i].service == service
                        && (forall j :: i < j < |rows| ==> rows[j].service != service) ==>
      service in Selected(rows, services) && Selected(rows, services)[service] == rows[i].container
  {
    if rows != [] {
      var n := |rows| - 1;
      SelectedExactly(rows[..n], services, service);
      assert forall i :: 0 <= i < n ==> rows[..n][i] == rows[i];
      if i: nat :| i < n && rows[i].service == service {
        assert rows[..n][i].service == service;
      }
    }
  }

  lemma ContainersExactly(
    attempt: SupervisorAttempt, listing: Listing, details: map<string, Container>, service: Service, c: Container)
    ensures var containers := Observe(attempt, listing, details).containers;
      service in containers && containers[service] == c <==>
        && listing.Rows? && service in attempt.serviceImages
        && exists i :: 0 <= i < |listing.rows| && Names(listing.rows, details, service, i)
                       && details[listing.rows[i].container] == c
  {
    if listing.Rows? && service in attempt.serviceImages {
      var rows := listing.rows;
      SelectedExactly(rows, attempt.serviceImages.Keys, service);
      if exists i :: 0 <= i < |rows| && rows[i].service == service {
        var last := LastRow(rows, service);
      }
    }
  }

  lemma {:induction false} LastRow(rows: seq<Row>, service: Service) returns (i: nat)
    requires exists i :: 0 <= i < |rows| && rows[i].service == service
    ensures i < |rows| && rows[i].service == service && forall j :: i < j < |rows| ==> rows[j].service != service
  {
    var n := |rows| - 1;
    if rows[n].service == service {
      i := n;
    } else {
      var k :| 0 <= k < |rows| && rows[k].service == service;
      assert rows[..n][k].service == service;
      i := LastRow(rows[..n], service);
      assert forall j :: i < j < n ==> rows[j] == rows[..n][j];
    }
  }

  /** A poll that succeeds saw every service of the attempt deployed. */
  lemma FulfilledMeansBound(attempt: SupervisorAttempt, poll: Poll, deadline: int)
    requires poll.Answered? && Fulfils(attempt, poll, deadline)
    ensures var containers := Observe(attempt, poll.listing, poll.details).containers;
      && attempt.serviceImages != map[] && containers.Keys == attempt.serviceImages.Keys
      && forall service <- attempt.serviceImages.Keys ::
           Deployed(attempt, service, containers[service], poll.images)
  {
    FulfilledExactly(attempt, poll, deadline);
  }

  predicate AllTrue(checks: map<Check, bool>) {
    forall name <- checks.Keys :: checks[name]
  }

  predicate Revised(attempt: SupervisorAttempt, c: Container) {
    Get(c.labels, TargetSha) == Some(Text(attempt.targetSha))
  }

  lemma ImmutableRevised(attempt: SupervisorAttempt, service: Service, c: Container, images: map<string, ImageDetail>)
    requires service in attempt.serviceImages && Immutable(attempt, service, c, images)
    ensures Revised(attempt, c)
  {
    assert TargetSha in LABEL_KEYS;
  }

  /** What the loop over the services knows when it starts on one of them. */
  datatype Finding = Finding(sound: bool, immutable: bool, revised: bool)

  function Find(attempt: SupervisorAttempt, poll: Poll, service: Service, c: Container): Finding
    requires poll.Answered? && service in attempt.serviceImages
  {
    Finding(Sound(c), Immutable(attempt, service, c, poll.images), Revised(attempt, c))
  }

  /** The value of each check once the services of `found` are entered: what the dictionary means. */
  predicate Judged(poll: Poll, found: map<Service, Finding>, name: Check)
    requires poll.Answered?
  {
    match name
    case ArtifactDigest => forall s <- found.Keys :: found[s].immutable
    case RevisionSha => forall s <- found.Keys :: found[s].revised
    case Alive(s) => s in found && found[s].sound
    case Ready(s) => s in found && found[s].sound
    case Live(s) => s in found && found[s].sound
    case ApiHttp => Api in found && poll.http
    case ApiDependencyDb => Api in found && poll.database
    case WorkerConnected => FeishuWorker in found && poll.worker
    case _ => false
  }

  predicate Living(name: Check) {
    name.Alive? || name.Ready? || name.Live?
  }

  /** The dictionary after the services of `found`: its keys are the required ones and those of these services. */
  ghost predicate Filled(services: set<Service>, poll: Poll, found: map<Service, Finding>, checks: map<Check, bool>)
    requires poll.Answered?
  {
    && (forall name :: name in checks <==> Required(services, name) || (Living(name) && name.service in found))
    && (forall name :: name in checks ==> checks[name] == Judged(poll, found, name))
  }

  method InitialChecks(services: set<Service>, poll: Poll) returns (checks: map<Check, bool>)
    requires poll.Answered?
    ensures Filled(services, poll, map[], checks)
  {
    RequiredExactly(services);
    checks := map name | name in RequiredHealthChecks(services) :: false;
    checks := checks[ArtifactDigest := true];
    checks := checks[RevisionSha := true];
  }

  function Enter(poll: Poll, checks: map<Check, bool>, service: Service, f: Finding): map<Check, bool>
    requires poll.Answered? && ArtifactDigest in checks && RevisionSha in checks
  {
    var all := checks[Alive(service) := f.sound][Ready(service) := f.sound][Live(service) := f.sound]
                     [ArtifactDigest := checks[ArtifactDigest] && f.immutable]
                     [RevisionSha := checks[RevisionSha] && f.revised];
    match service
    case Api => all[ApiHttp := poll.http][ApiDependencyDb := poll.database]
    case FeishuWorker => all[WorkerConnected := poll.worker]
    case Unapproved(_) => all
  }

  predicate Touched(service: Service, name: Check) {
    match name
    case ArtifactDigest => true
    case RevisionSha => true
    case Alive(s) => s == service
    case Ready(s) => s == service
    case Live(s) => s == service
    case ApiHttp => service.Api?
    case ApiDependencyDb => service.Api?
    case WorkerConnected => service.FeishuWorker?
    case _ => false
  }

  predicate Touch(poll: Poll, service: Service, f: Finding, name: Check, was: bool)
    requires poll.Answered?
  {
    match name
    case ArtifactDigest => was && f.immutable
    case RevisionSha => was && f.revised
    case ApiHttp => poll.http
    case ApiDependencyDb => poll.database
    case WorkerConnected => poll.worker
    case _ => f.sound
  }

  lemma EnterAt(poll: Poll, checks: map<Check, bool>, service: Service, f: Finding, name: Check)
    requires poll.Answered? && ArtifactDigest in checks && RevisionSha in checks
    ensures var next := Enter(poll, checks, service, f);
      && (name in next <==> name in checks || Touched(service, name))
      && (name in next && Touched(service, name) ==>
            next[name] == Touch(poll, service, f, name, name in checks && checks[name]))
      && (name in next && !Touched(service, name) ==> next[name] == checks[name])
  {
  }

  lemma JudgedNext(poll: Poll, found: map<Service, Finding>, service: Service, f: Finding, name: Check)
    requires poll.Answered? && service !in found
    ensures Judged(poll, found[service := f], name) ==
      if Touched(service, name) then Touch(poll, service, f, name, Judged(poll, found, name))
      else Judged(poll, found, name)
  {
    var later := found[service := f];
    assert later.Keys == found.Keys + {service};
    match name
    case ArtifactDigest => {}
    case RevisionSha => {}
    case _ => {}
  }

  lemma EnterFills(
    services: set<Service>, poll: Poll, found: map<Service, Finding>, checks: map<Check, bool>, service: Service,
    f: Finding)
    requires poll.Answered? && service in services && service !in found && Filled(services, poll, found, checks)
    ensures ArtifactDigest in checks && RevisionSha in checks
    ensures Filled(services, poll, found[service := f], Enter(poll, checks, service, f))
  {
    assert Required(services, ArtifactDigest) && Required(services, RevisionSha);
    var next, later := Enter(poll, checks, service, f), found[service := f];
    forall name
      ensures name in next <==> Required(services, name) || (Living(name) && name.service in later)
      ensures name in next ==> next[name] == Judged(poll, later, name)
    {
      EnterAt(poll, checks, service, f, name);
      JudgedNext(poll, found, service, f, name);
      assert Touched(service, name) ==>
        Required(services, name) || (Living(name) && name.service == service);
    }
  }

  /** The loop of _health_cycle_once over the services. */
  method FillChecks(attempt: SupervisorAttempt, poll: Poll, containers: map<Service, Container>)
    returns (checks: map<Check, bool>, restarted: bool, ghost found: map<Service, Finding>)
    requires poll.Answered? && containers.Keys == attempt.serviceImages.Keys
    ensures found == map s | s in containers :: Find(attempt, poll, s, containers[s])
    ensures Filled(containers.Keys, poll, found, checks)
    ensures restarted <==> exists s <- containers.Keys :: containers[s].restartCount != 0
  {
    var services := attempt.serviceImages.Keys;
    checks := InitialChecks(services, poll);
    restarted, found := false, map[];
    var todo := services;
    while todo != {}
      invariant todo <= services
      invariant found.Keys == services - todo
      invariant forall s <- found.Keys :: found[s] == Find(attempt, poll, s, containers[s])
      invariant Filled(services, poll, found, checks)
      invariant restarted <==> exists s <- services - todo :: containers[s].restartCount != 0
    {
      var service :| service in todo;
      checks := FillService(attempt, poll, containers[service], service, services, found, checks);
      found := found[service := Find(attempt, poll, service, containers[service])];
      restarted := restarted || containers[service].restartCount != 0;
      todo := todo - {service};
    }
  }

  /** One turn of that loop: the assignments to the dictionary in their order. */
  method FillService(
    attempt: SupervisorAttempt, poll: Poll, c: Container, service: Service, services: set<Service>,
    ghost found: map<Service, Finding>, before: map<Check, bool>)
    returns (checks: map<Check, bool>)
    requires poll.Answered? && service in attempt.serviceImages && service in services && service !in found
    requires Filled(services, poll, found, before)
    ensures Filled(services, poll, found[service := Find(attempt, poll, service, c)], checks)
  {
    var f := Find(attempt, poll, service, c);
    EnterFills(services, poll, found, before, service, f);
    checks := before[Alive(service) := f.sound];
    checks := checks[Ready(service) := f.sound];
    checks := checks[Live(service) := f.sound];
    checks := checks[ArtifactDigest := before[ArtifactDigest] && f.immutable];
    checks := checks[RevisionSha := before[RevisionSha] && f.revised];
    if service.Api? {
      checks := checks[ApiHttp := poll.http];
      checks := checks[ApiDependencyDb := poll.database];
    }
    if service.FeishuWorker? {
      checks := checks[WorkerConnected := poll.worker];
    }
    assert checks == Enter(poll, before, service, f);
  }

  predicate Closed(name: Check) {
    name.Migration? || name.Smoke? || name.CriticalRegression? || name.VerificationWithinTimeout?
  }

  /** The four checks that are judged after the loop. */
  function Closing(checks: map<Check, bool>, migration: bool, restarted: bool, inTime: bool): map<Check, bool> {
    var all := checks[Migration := migration];
    all[Smoke := forall name <- all.Keys | name.Ready? :: all[name]]
       [CriticalRegression := !restarted]
       [VerificationWithinTimeout := inTime]
  }

  lemma ClosingAllTrue(checks: map<Check, bool>, migration: bool, restarted: bool, inTime: bool)
    ensures AllTrue(Closing(checks, migration, restarted, inTime))
       <==> migration && !restarted && inTime && forall name <- checks.Keys | !Closed(name) :: checks[name]
  {
    var all := Closing(checks, migration, restarted, inTime);
    assert forall name <- checks.Keys | !Closed(name) :: name in all && all[name] == checks[name];
    if AllTrue(all) {
      assert all[Migration] && all[CriticalRegression] && all[VerificationWithinTimeout];
      forall name <- checks.Keys | !Closed(name) ensures checks[name] {
        assert all[name];
      }
    }
  }

  /** The checks of the loop all hold exactly when every finding is good and the probes answered. */
  lemma FilledAllTrue(services: set<Service>, poll: Poll, found: map<Service, Finding>, checks: map<Check, bool>)
    requires poll.Answered? && found.Keys == services && Filled(services, poll, found, checks)
    requires forall s <- services :: found[s].immutable ==> found[s].revised
    ensures (forall name <- checks.Keys | !Closed(name) :: checks[name])
       <==> && (forall s <- services :: found[s].sound && found[s].immutable)
            && (Api in services ==> poll.http && poll.database)
            && (FeishuWorker in services ==> poll.worker)
  {
    assert Required(services, ArtifactDigest) && ArtifactDigest in checks;
    if forall name <- checks.Keys | !Closed(name) :: checks[name] {
      assert checks[ArtifactDigest] == Judged(poll, found, ArtifactDigest);
      forall s <- services ensures found[s].sound {
        assert Living(Alive(s)) && checks[Alive(s)] == Judged(poll, found, Alive(s));
      }
      if Api in services {
        assert Required(services, ApiHttp) && Required(services, ApiDependencyDb);
        assert checks[ApiHttp] && checks[ApiDependencyDb];
      }
      if FeishuWorker in services {
        assert Required(services, WorkerConnected) && checks[WorkerConnected];
      }
    } else {
      var bad :| bad in checks.Keys && !Closed(bad) && !checks[bad];
      assert !Judged(poll, found, bad);
    }
  }

  predicate Approved(services: set<Service>) {
    forall service <- services :: !service.Unapproved?
  }

  /** The keys of the finished dictionary: the required ones, and three for every service of the attempt. */
  ghost predicate Keyed(services: set<Service>, checks: map<Check, bool>) {
    forall name :: name in checks <==> Required(services, name) || (Living(name) && name.service in services)
  }

  /** They are exactly the canonical ones when every service is an approved one. */
  lemma KeyedExactly(services: set<Service>, checks: map<Check, bool>)
    requires Keyed(services, checks)
    ensures checks.Keys == RequiredHealthChecks(services) <==> Approved(services)
  {
    RequiredExactly(services);
    assert forall name :: name in checks <==> name in checks.Keys;
    forall service <- services | service.Unapproved?
      ensures Alive(service) in checks.Keys && !Required(services, Alive(service))
    {
      assert Living(Alive(service)) && Alive(service) in checks;
    }
  }

  /** The cycle is what a poll that fulfilled the contract came to. */
  ghost predicate FromPoll(attempt: SupervisorAttempt, poll: Poll, deadline: int, cycle: HealthCycle) {
    && poll.Answered? && Fulfils(attempt, poll, deadline)
    && Keyed(attempt.serviceImages.Keys, cycle.checks) && AllTrue(cycle.checks)
    && cycle.observedDigest == attempt.artifactDigest && cycle.observedSha == attempt.targetSha
    && cycle.migrationRevision == poll.migration && cycle.completedAt == poll.completedAt
  }

  lemma PassesExactly(attempt: SupervisorAttempt, poll: Poll, deadline: int, cycle: HealthCycle)
    requires FromPoll(attempt, poll, deadline, cycle)
    ensures Passes(attempt, cycle, deadline) <==> poll.completedAt <= deadline && Approved(attempt.serviceImages.Keys)
  {
    KeyedExactly(attempt.serviceImages.Keys, cycle.checks);
  }

  /** _health_cycle_once: the `checks` dictionary starts all false and is filled in service by service. It
      succeeds exactly when the host fulfilled the whole contract; the supervisor's own test then accepts the
      cycle exactly when it was completed in time and every service is an approved one. */
  method HealthCycleOnce(attempt: SupervisorAttempt, poll: Poll, deadline: int)
    returns (r: Result<HealthCycle, HealthError>)
    ensures r.Success? <==> poll.Answered? && Contract(attempt, poll, deadline)
    ensures r.Success? ==> FromPoll(attempt, poll, deadline, r.value)
    ensures r.Success? ==>
      (Passes(attempt, r.value, deadline) <==> poll.completedAt <= deadline && Approved(attempt.serviceImages.Keys))
    ensures r == Failure(Foreign) <==> poll.Broken?
    ensures r == Failure(TimeoutOrUnknown) <==>
      && poll.Answered?
      && (poll.observedAt >= deadline
          || !Observe(attempt, poll.listing, poll.details).state.CompletedHealthUnknown?)
  {
    if poll.Broken? {
      return Failure(Foreign);
    }
    FulfilledExactly(attempt, poll, deadline);
    var seen := Observe(attempt, poll.listing, poll.details);
    if poll.observedAt >= deadline || !seen.state.CompletedHealthUnknown? {
      return Failure(TimeoutOrUnknown);
    }
    ObservesExactly(attempt, poll.listing, poll.details);
    r := JudgeContainers(attempt, poll, seen.containers, deadline);
    if r.Success? {
      PassesExactly(attempt, poll, deadline, r.value);
    }
  }

  method JudgeContainers(attempt: SupervisorAttempt, poll: Poll, containers: map<Service, Container>, deadline: int)
    returns (r: Result<HealthCycle, HealthError>)
    requires poll.Answered? && containers.Keys == attempt.serviceImages.Keys
    ensures r.Success? <==> ContainersFulfil(attempt, poll, containers, deadline)
    ensures r.Success? ==>
      && Keyed(attempt.serviceImages.Keys, r.value.checks) && AllTrue(r.value.checks)
      && r.value.observedDigest == attempt.artifactDigest && r.value.observedSha == attempt.targetSha
      && r.value.migrationRevision == poll.migration && r.value.completedAt == poll.completedAt
    ensures r.Failure? ==> r.error == MandatoryCheckFailed
  {
    ghost var services := attempt.serviceImages.Keys;
    var checks, restarted, found := FillChecks(attempt, poll, containers);
    var migration := attempt.migrationRevision.None? || poll.migration == attempt.migrationRevision;
    var all := Closing(checks, migration, restarted, poll.judgedAt < deadline);
    ClosingAllTrue(checks, migration, restarted, poll.judgedAt < deadline);
    FoundExactly(attempt, poll, containers, found);
    FilledAllTrue(services, poll, found, checks);
    if !AllTrue(all) {
      return Failure(MandatoryCheckFailed);
    }
    r := Success(HealthCycle(all, attempt.artifactDigest, attempt.targetSha, poll.migration, poll.completedAt));
    ClosingKeys(services, checks, migration, restarted, poll.judgedAt < deadline);
    assert forall name :: name in all <==> name in all.Keys;
  }

  lemma ClosingKeys(
    services: set<Service>, checks: map<Check, bool>, migration: bool, restarted: bool, inTime: bool)
    requires forall name :: Required(services, name) ==> name in checks
    ensures Closing(checks, migration, restarted, inTime).Keys == checks.Keys
  {
    assert forall name :: Closed(name) ==> Required(services, name);
  }

  lemma FoundExactly(
    attempt: SupervisorAttempt, poll: Poll, containers: map<Service, Container>, found: map<Service, Finding>)
    requires poll.Answered? && containers.Keys == attempt.serviceImages.Keys
    requires found == map s | s in containers :: Find(attempt, poll, s, containers[s])
    ensures forall s <- containers.Keys :: found[s].immutable ==> found[s].revised
    ensures (forall s <- containers.Keys :: found[s].sound && found[s].immutable)
       <==> forall s <- containers.Keys ::
              Sound(containers[s]) && Immutable(attempt, s, containers[s], poll.images)
    ensures (exists s <- containers.Keys :: containers[s].restartCount != 0)
       ==> !(forall s <- containers.Keys :: found[s].sound)
  {
    forall s <- containers.Keys | found[s].immutable ensures found[s].revised {
      ImmutableRevised(attempt, s, containers[s], poll.images);
    }
  }

  // ---------------------------------------------------------------- polling until the deadline

  /** The error verify_health leaves with after the errors it caught: the last one that is not the timeout, or
      the timeout itself when it caught nothing else. */
  ghost predicate Blames(errors: seq<HealthError>, blamed: HealthError) {
    if blamed.TimeoutOrUnknown? then errors != [] && forall i :: 0 <= i < |errors| ==> errors[i].TimeoutOrUnknown?
    else exists i :: 0 <= i < |errors| && LastReal(errors, i, blamed)
  }

  predicate LastReal(errors: seq<HealthError>, i: nat, e: HealthError)
    requires i < |errors|
  {
    errors[i] == e && forall j :: i < j < |errors| ==> errors[j].TimeoutOrUnknown?
  }

  lemma BlamesOne(errors: seq<HealthError>, a: HealthError, b: HealthError)
    requires Blames(errors, a) && Blames(errors, b)
    ensures a == b
  {
    if !a.TimeoutOrUnknown? && !b.TimeoutOrUnknown? {
      var i :| 0 <= i < |errors| && LastReal(errors, i, a);
      var j :| 0 <= j < |errors| && LastReal(errors, j, b);
    }
  }

  lemma BlamesNext(errors: seq<HealthError>, last: HealthError, e: HealthError)
    requires errors == [] || Blames(errors, last)
    ensures Blames(errors + [e], if !e.TimeoutOrUnknown? || errors == [] then e else last)
  {
    var longer := errors + [e];
    if !e.TimeoutOrUnknown? {
      assert LastReal(longer, |errors|, e);
    } else if errors != [] && !last.TimeoutOrUnknown? {
      var i :| 0 <= i < |errors| && LastReal(errors, i, last);
      assert LastReal(longer, i, last);
    }
  }

  class DockerComposeSupervisorRuntime {
    var now: int

    constructor (start: int)
      ensures now == start
    {
      now := start;
    }

    /** The host answers one poll with anything at all, its clock readings in the order they are taken. */
    method AskHost() returns (poll: Poll)
      modifies this
      ensures old(now) <= now
      ensures poll.Answered? ==> old(now) <= poll.observedAt <= poll.judgedAt <= poll.completedAt <= now
    {
      var answer: Poll := *;
      var a: nat, b: nat, c: nat := *, *, *;
      poll := answer;
      if answer.Answered? {
        poll := answer.(observedAt := now + a, judgedAt := now + a + b, completedAt := now + a + b + c);
      }
      now := now + a + b + c;
    }

    method Sleep(seconds: nat)
      modifies this
      ensures now >= old(now) + seconds
    {
      var woken: int := *;
      now := if woken > now + seconds then woken else now + seconds;
    }

    /** verify_health. `errors` lists the errors it caught, `last` is the poll it ended with. It makes at most two
        polls more than the five second sleeps that fit strictly before the deadline. */
    method VerifyHealth(attempt: SupervisorAttempt, deadline: int)
      returns (r: Result<HealthCycle, HealthError>, errors: seq<HealthError>, last: Poll)
      modifies this
      ensures r.Success? ==>
        && last.Answered? && old(now) <= last.observedAt && FromPoll(attempt, last, deadline, r.value)
        && (Passes(attempt, r.value, deadline) <==>
              last.completedAt <= deadline && Approved(attempt.serviceImages.Keys))
      ensures r == Failure(Foreign) <==> last.Broken?
      ensures r.Failure? && !r.error.Foreign? ==> now >= deadline && Blames(errors, r.error)
      ensures var polls := |errors| + if r.Failure? && !r.error.Foreign? then 0 else 1;
        polls >= 1 && (polls >= 2 ==> HEALTH_POLL_SECONDS * (polls - 2) < deadline - old(now))
    {
      errors := [];
      var lastError := TimeoutOrUnknown;
      while true
        invariant errors != [] ==> Blames(errors, lastError) && !lastError.Foreign?
        invariant now >= old(now) + HEALTH_POLL_SECONDS * |errors|
        invariant errors != [] ==> HEALTH_POLL_SECONDS * (|errors| - 1) < deadline - old(now)
        decreases if now < deadline then deadline - now else 0
      {
        last := AskHost();
        r := HealthCycleOnce(attempt, last, deadline);
        if r.Success? || r.error.Foreign? {
          return;
        }
        BlamesNext(errors, lastError, r.error);
        if !r.error.TimeoutOrUnknown? || errors == [] {
          lastError := r.error;
        }
        errors := errors + [r.error];
        if now >= deadline {
          return Failure(lastError), errors, last;
        }
        Sleep(HEALTH_POLL_SECONDS);
      }
    }
  }
}
