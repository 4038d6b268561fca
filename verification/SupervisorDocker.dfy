/** The supervisor on top of the Docker runtime: runs in which every observation is one that Docker's listing gave, and
    every health cycle comes from a poll that fulfilled the contract. */
module SupervisorDocker {
  import opened Wrappers
  import opened HealthContract
  import opened Journal
  import opened SupervisorProtocol
  import opened SupervisorSafety
  import opened SupervisorVerdicts
  import opened SupervisorHistory
  import Docker = DockerHealth

  /** What the supervisor sees of a snapshot; a failed listing counts as an active client. */
  predicate SeenBy(
    attempt: SupervisorAttempt, view: Snapshot, listing: Docker.Listing, details: map<string, Docker.Container>)
  {
    var seen := Docker.Observe(attempt, listing, details);
    view.state == seen.state && view.transitional == seen.transitional && (listing.CommandFailed? ==> view.clientActive)
  }

  ghost predicate FromDocker(attempt: SupervisorAttempt, view: Snapshot) {
    exists listing, details :: SeenBy(attempt, view, listing, details)
  }

  ghost predicate Polled(attempt: SupervisorAttempt, cycle: HealthCycle, deadline: int) {
    exists poll :: Docker.FromPoll(attempt, poll, deadline, cycle)
  }

  /** The answers that the Docker runtime can give to this step. */
  ghost predicate DockerAnswers(s: System, l: Label)
    requires Enabled(s, l)
  {
    l.Act? ==>
      && (l.answer.Saw? ==> FromDocker(s.attempt, l.answer.view))
      && (l.answer.Polled? && s.procs[l.p].VerifyHealth? ==>
            Polled(s.attempt, l.answer.cycle, s.procs[l.p].deadline))
  }

  /** A run with the Docker runtime. */
  ghost predicate DockerRun(rules: Rules, s: System, ls: seq<Label>) {
    Run(rules, s, ls).Some?
    && (ls != [] ==>
          var n := |ls| - 1;
          DockerRun(rules, s, ls[..n]) && DockerAnswers(Run(rules, s, ls[..n]).value, ls[n]))
  }

  // ---------------------------------------------------------------- Docker never claims HEALTHY

  lemma DockerNeverHealthy(attempt: SupervisorAttempt, view: Snapshot)
    requires FromDocker(attempt, view)
    ensures view.state != Healthy && view.state != InProgress
  {
    var listing, details :| SeenBy(attempt, view, listing, details);
    Docker.ObservesExactly(attempt, listing, details);
  }

  /** So a run with Docker is a run under the rule that observations never claim HEALTHY. */
  lemma {:induction false} DockerRunIsModest(rules: Rules, s: System, ls: seq<Label>)
    requires DockerRun(rules, s, ls)
    ensures Run(rules.(observedHealthy := false), s, ls) == Run(rules, s, ls)
  {
    if ls != [] {
      var n := |ls| - 1;
      DockerRunIsModest(rules, s, ls[..n]);
      if ls[n].Act? && ls[n].answer.Saw? {
        DockerNeverHealthy(Run(rules, s, ls[..n]).value.attempt, ls[n].answer.view);
      }
    }
  }

  // ---------------------------------------------------------------- every pass comes from a poll

  ghost predicate PassPolled(s: System, pass: Pass) {
    Polled(s.attempt, pass.cycle, pass.deadline)
  }

  ghost predicate PolledPc(s: System, pc: Pc) {
    pc.WriteHealthVerdict? && pc.pass.Some? ==> PassPolled(s, pc.pass.value)
  }

  ghost predicate Honest(s: System) {
    && s.journal.Valid()
    && (forall pass <- s.passes :: PassPolled(s, pass))
    && forall p :: 0 <= p < |s.procs| ==> PolledPc(s, s.procs[p])
  }

  lemma HonestWrite(s: System, p: nat, write: Write, died: bool)
    requires Honest(s) && p < |s.procs| && Pending(s.procs[p]).Some?
    ensures Honest(ActWrite(s, p, write, died))
  {
    var t := ActWrite(s, p, write, died);
    assert PolledPc(s, s.procs[p]);
    forall q | 0 <= q < |t.procs| ensures PolledPc(t, t.procs[q]) {
      assert q != p ==> PolledPc(s, s.procs[q]);
    }
    forall pass <- t.passes ensures PassPolled(t, pass) {
      assert pass in s.passes ==> PassPolled(s, pass);
    }
  }

  /** A step of one process that leaves attempt and passes alone. */
  lemma HonestMove(s: System, t: System, p: nat)
    requires Honest(s) && p < |s.procs| && t.journal.Valid() && t.attempt == s.attempt && t.passes == s.passes
    requires |t.procs| == |s.procs| && t.procs == s.procs[p := t.procs[p]] && PolledPc(t, t.procs[p])
    ensures Honest(t)
  {
    forall q | 0 <= q < |t.procs| ensures PolledPc(t, t.procs[q]) {
      assert q != p ==> PolledPc(s, s.procs[q]);
    }
    forall pass <- t.passes ensures PassPolled(t, pass) {
      assert PassPolled(s, pass);
    }
  }

  lemma HonestJudge(s: System, p: nat, answer: Answer)
    requires Honest(s) && p < |s.procs| && Fits(s.procs[p], answer)
    requires Pending(s.procs[p]).None? && !Preparing(s.procs[p]) && !s.procs[p].Loading?
    requires answer.Polled? && s.procs[p].VerifyHealth? ==> Polled(s.attempt, answer.cycle, s.procs[p].deadline)
    ensures Honest(ActJudge(s, p, answer))
  {
    JudgeCases(s, p, answer);
    VerdictPolled(s, p, answer);
    HonestMove(s, ActJudge(s, p, answer), p);
  }

  lemma VerdictPolled(s: System, p: nat, answer: Answer)
    requires p < |s.procs| && Fits(s.procs[p], answer)
    requires Pending(s.procs[p]).None? && !Preparing(s.procs[p]) && !s.procs[p].Loading?
    requires answer.Polled? && s.procs[p].VerifyHealth? ==> Polled(s.attempt, answer.cycle, s.procs[p].deadline)
    ensures PolledPc(s, ActJudge(s, p, answer).procs[p])
  {
  }

  lemma HonestNext(rules: Rules, s: System, l: Label)
    requires Honest(s) && Enabled(s, l) && Allowed(rules, s, l) && DockerAnswers(s, l)
    ensures Honest(Next(s, l))
  {
    match l
    case Act(p, answer) =>
      var pc := s.procs[p];
      if Pending(pc).Some? {
        HonestWrite(s, p, answer.write, answer.DiedWriting?);
      } else if pc.Loading? {
        LoadCases(s, p, pc.op);
        HonestMove(s, Next(s, l), p);
      } else if Preparing(pc) {
        PrepareCases(s, p, answer);
        HonestMove(s, Next(s, l), p);
      } else {
        HonestJudge(s, p, answer);
      }
    case Begin(p, _) => HonestMove(s, Next(s, l), p);
    case Crash(p) => HonestMove(s, Next(s, l), p);
    case _ =>
      forall pass <- s.passes ensures PassPolled(Next(s, l), pass) {
        assert PassPolled(s, pass);
      }
      forall q | 0 <= q < |s.procs| ensures PolledPc(Next(s, l), s.procs[q]) {
        assert PolledPc(s, s.procs[q]);
      }
  }

  lemma {:induction false} HonestRun(rules: Rules, s: System, ls: seq<Label>)
    requires Honest(s) && DockerRun(rules, s, ls)
    ensures Honest(Run(rules, s, ls).value)
  {
    if ls != [] {
      var n := |ls| - 1;
      HonestRun(rules, s, ls[..n]);
      HonestNext(rules, Run(rules, s, ls[..n]).value, ls[n]);
    }
  }

  // ---------------------------------------------------------------- what HEALTHY means with Docker

  /** The poll behind a journalled pass: it met the contract field by field, with every service deployed as this attempt
      wants it, and the cycle met all that the supervisor itself asks of it. */
  ghost predicate Witnessed(attempt: SupervisorAttempt, pass: Pass, poll: Docker.Poll) {
    && Docker.FromPoll(attempt, poll, pass.deadline, pass.cycle) && poll.completedAt <= pass.deadline
    && Docker.Contract(attempt, poll, pass.deadline) && Meets(attempt, pass.cycle, pass.deadline)
    && var containers := Docker.Observe(attempt, poll.listing, poll.details).containers;
       && containers.Keys == attempt.serviceImages.Keys
       && forall service <- attempt.serviceImages.Keys ::
            Docker.Deployed(attempt, service, containers[service], poll.images)
  }

  lemma PolledPassIsWitnessed(attempt: SupervisorAttempt, pass: Pass) returns (poll: Docker.Poll)
    requires Polled(attempt, pass.cycle, pass.deadline) && Passes(attempt, pass.cycle, pass.deadline)
    ensures Witnessed(attempt, pass, poll)
  {
    poll :| Docker.FromPoll(attempt, poll, pass.deadline, pass.cycle);
    Docker.FulfilledExactly(attempt, poll, pass.deadline);
    MeetsExactly(attempt, pass.cycle, pass.deadline);
  }

  /** With the Docker runtime, whatever operations, crashes, short writes and file losses occur: HEALTHY is returned
      only after a journalled pass whose poll found every container bound to exactly this deployment, attempt, epoch
      and hash, with every required check met within the health window. */
  lemma HealthyMeansBoundContainers(
      rules: Rules, attempt: SupervisorAttempt, processes: nat, now: int, ls: seq<Label>, p: nat)
    returns (pass: Pass, poll: Docker.Poll)
    requires DockerRun(rules, Init(attempt, processes, now), ls)
    requires p < |Run(rules, Init(attempt, processes, now), ls).value.procs|
    requires Run(rules, Init(attempt, processes, now), ls).value.procs[p] == Return(State(Healthy))
    ensures pass in Run(rules, Init(attempt, processes, now), ls).value.passes
    ensures pass.deadline in Run(rules, Init(attempt, processes, now), ls).value.deadlines
    ensures Witnessed(attempt, pass, poll)
  {
    var s := Init(attempt, processes, now);
    DockerRunIsModest(rules, s, ls);
    EarnedRun(rules.(observedHealthy := false), s, ls);
    WindowedRun(rules, s, ls, false);
    AttemptFixed(rules, s, ls);
    HonestRun(rules, s, ls);
    var t := Run(rules, s, ls).value;
    assert HealthyPc(t, t.procs[p]);
    pass := t.passes[0];
    assert SoundPass(t, pass) && PassPolled(t, pass);
    poll := PolledPassIsWitnessed(attempt, pass);
  }

  // ---------------------------------------------------------------- and that HEALTHY can be had

  /** A step that some run with the Docker runtime may take. */
  ghost predicate DockerMay(s: System, l: Label) {
    Enabled(s, l) && Allowed(ANYTHING, s, l) && DockerAnswers(s, l)
  }

  /** What such steps lead to is in the set again. */
  ghost predicate Closed(reach: System -> bool) {
    forall s, l :: reach(s) && DockerMay(s, l) ==> reach(Next(s, l))
  }

  lemma ReachesNext(reach: System -> bool, s: System, l: Label)
    requires Closed(reach) && reach(s) && Enabled(s, l) && Allowed(ANYTHING, s, l) && DockerAnswers(s, l)
    ensures reach(Next(s, l))
  {
    assert DockerMay(s, l);
  }

  /** Process 0 stands at pc, and the journal reads well and ends in a newline. */
  predicate Clear(s: System, pc: Pc) {
    && s.procs != [] && s.procs[0] == pc && s.results == {}
    && s.journal.terminated && !Corrupt(s.journal)
  }

  lemma ReachesWrite(reach: System -> bool, s: System, pc: Pc) returns (t: System)
    requires Closed(reach) && reach(s) && Clear(s, pc) && Pending(pc).Some?
    ensures reach(t) && Clear(t, AfterWrite(pc)) && t.attempt == s.attempt
    ensures t.journal.lines == s.journal.lines + [Entry(Record(Pending(pc).value.0, s.now, Pending(pc).value.1))]
  {
    t := ActWrite(s, 0, Full, false);
    ReachesNext(reach, s, Act(0, Wrote(Full)));
  }

  lemma ReachesCompletion(reach: System -> bool, s: System) returns (t: System)
    requires Closed(reach) && reach(s) && AtSubmit(s)
    ensures reach(t) && Clear(t, WriteCompleted) && t.attempt == s.attempt
  {
    t := Next(s, Act(0, Ok));
    ReachesNext(reach, s, Act(0, Ok));
  }

  /** The reload of _health_locked finds the anchor. */
  lemma AnchorFound(s: System) returns (t: System, deadline: int)
    requires Clear(s, LoadAnchor) && s.journal.lines != []
    requires var last := s.journal.lines[|s.journal.lines| - 1]; last.Entry? && last.record.event == HealthStarted
    ensures Fits(s.procs[0], Ok) && Enabled(s, Act(0, Ok)) && t == Next(s, Act(0, Ok))
    ensures Clear(t, VerifyHealth(deadline)) && t.attempt == s.attempt
  {
    var records := CleanPrefix(s.journal.lines);
    AnchorExists(records, |records| - 1);
    t := Next(s, Act(0, Ok));
    assert t == ActLoadAnchor(s, 0);
    deadline := t.procs[0].deadline;
  }

  lemma ReachesAnchor(reach: System -> bool, s: System) returns (t: System)
    requires Closed(reach) && reach(s) && Clear(s, WriteCompleted)
    ensures reach(t) && Clear(t, LoadAnchor) && t.attempt == s.attempt && t.journal.lines != []
    ensures var last := t.journal.lines[|t.journal.lines| - 1]; last.Entry? && last.record.event == HealthStarted
  {
    t := ReachesWrite(reach, s, WriteCompleted);
    t := ReachesWrite(reach, t, WriteHealthStarted);
  }

  lemma ReachesVerification(reach: System -> bool, s: System) returns (t: System, deadline: int)
    requires Closed(reach) && reach(s) && Clear(s, WriteCompleted)
    ensures reach(t) && Clear(t, VerifyHealth(deadline)) && t.attempt == s.attempt
  {
    var u := ReachesAnchor(reach, s);
    t, deadline := AnchorFound(u);
    ReachesNext(reach, u, Act(0, Ok));
  }

  lemma PassJudged(s: System, deadline: int, cycle: HealthCycle) returns (t: System)
    requires Clear(s, VerifyHealth(deadline)) && Passes(s.attempt, cycle, deadline)
    ensures Enabled(s, Act(0, Answer.Polled(cycle))) && t == Next(s, Act(0, Answer.Polled(cycle)))
    ensures Clear(t, WriteHealthVerdict(Some(Pass(cycle, deadline))))
  {
    t := Next(s, Act(0, Answer.Polled(cycle)));
    assert t == ActJudge(s, 0, Answer.Polled(cycle));
  }

  lemma ReachesPass(reach: System -> bool, s: System, deadline: int, cycle: HealthCycle) returns (t: System)
    requires Closed(reach) && reach(s) && Clear(s, VerifyHealth(deadline))
    requires Polled(s.attempt, cycle, deadline) && Passes(s.attempt, cycle, deadline)
    ensures reach(t) && Clear(t, WriteHealthVerdict(Some(Pass(cycle, deadline))))
  {
    t := PassJudged(s, deadline, cycle);
    ReachesNext(reach, s, Act(0, Answer.Polled(cycle)));
  }

  lemma ReachesReturn(reach: System -> bool, s: System) returns (t: System)
    requires Closed(reach) && reach(s) && Clear(s, RecordResult(Healthy, HealthSource))
    ensures reach(t) && t.procs != [] && t.procs[0] == Return(State(Healthy))
  {
    t := Next(s, Act(0, Ok));
    ReachesNext(reach, s, Act(0, Ok));
  }

  lemma ReachesResult(reach: System -> bool, s: System, pass: Pass) returns (t: System)
    requires Closed(reach) && reach(s) && Clear(s, WriteHealthVerdict(Some(pass)))
    ensures reach(t) && Clear(t, RecordResult(Healthy, HealthSource))
  {
    t := ReachesWrite(reach, s, WriteHealthVerdict(Some(pass)));
    t := ReachesWrite(reach, t, WriteTerminal(Healthy, HealthSource));
  }

  lemma ReachesHealthy(reach: System -> bool, s: System, pass: Pass) returns (t: System)
    requires Closed(reach) && reach(s) && Clear(s, WriteHealthVerdict(Some(pass)))
    ensures reach(t) && t.procs != [] && t.procs[0] == Return(State(Healthy))
  {
    t := ReachesResult(reach, s, pass);
    t := ReachesReturn(reach, t);
  }

  // ---------------------------------------------------------------- a host that fulfils the contract

  function SoundContainer(attempt: SupervisorAttempt, service: Service): Docker.Container
    requires service in attempt.serviceImages
  {
    Docker.Container(
      Docker.Settled("running"), true, Some(false), None,
      map key | key in Docker.LABEL_KEYS :: Docker.ExpectedLabel(attempt, key),
      attempt.serviceImages[service], "id", 0)
  }

  /** A host on which every service runs as it should. Which container a row names is of no account. */
  function SoundPoll(attempt: SupervisorAttempt, deadline: int): Docker.Poll {
    Docker.Answered(
      Docker.Rows([Docker.Row(Api, "a"), Docker.Row(FeishuWorker, "w")]),
      (if Api in attempt.serviceImages then map["a" := SoundContainer(attempt, Api)] else map[])
        + (if FeishuWorker in attempt.serviceImages then map["w" := SoundContainer(attempt, FeishuWorker)] else map[]),
      deadline - 1,
      map image | image in attempt.serviceImages.Values :: Docker.ImageDetail("id", {image}),
      true, true, true, attempt.migrationRevision, deadline - 1, deadline - 1)
  }

  function SoundCycle(attempt: SupervisorAttempt, deadline: int): HealthCycle {
    HealthCycle(map name | name in RequiredHealthChecks(attempt.serviceImages.Keys) :: true,
                attempt.artifactDigest, attempt.targetSha, attempt.migrationRevision, deadline - 1)
  }

  lemma SoundSelected(services: set<Service>)
    requires Docker.Approved(services)
    ensures Docker.Selected([Docker.Row(Api, "a"), Docker.Row(FeishuWorker, "w")], services)
         == map s | s in services :: if s.Api? then "a" else "w"
  {
    var rows := [Docker.Row(Api, "a"), Docker.Row(FeishuWorker, "w")];
    assert rows[..1] == [Docker.Row(Api, "a")] && rows[..1][..0] == [];
    assert Docker.Selected([], services) == map[];
    assert Docker.Selected(rows[..1], services) == if Api in services then map[Api := "a"] else map[];
  }

  lemma SoundInspected(attempt: SupervisorAttempt, deadline: int)
    requires Docker.Approved(attempt.serviceImages.Keys)
    ensures var poll := SoundPoll(attempt, deadline);
      Docker.Observe(attempt, poll.listing, poll.details).containers
        == map s | s in attempt.serviceImages :: SoundContainer(attempt, s)
  {
    SoundSelected(attempt.serviceImages.Keys);
    var details := SoundPoll(attempt, deadline).details;
    assert "a" != "w";
    forall s <- attempt.serviceImages.Keys
      ensures var name := if s.Api? then "a" else "w"; name in details && details[name] == SoundContainer(attempt, s)
    {
      assert s == Api || s == FeishuWorker;
    }
  }

  predicate Good(
    attempt: SupervisorAttempt, service: Service, c: Docker.Container, images: map<string, Docker.ImageDetail>)
    requires service in attempt.serviceImages
  {
    && Docker.Sound(c) && !Docker.Transitional(c) && Docker.Labelled(attempt, c)
    && Docker.Immutable(attempt, service, c, images)
  }

  lemma SoundContainerIsGood(attempt: SupervisorAttempt, service: Service, deadline: int)
    requires service in attempt.serviceImages
    ensures Good(attempt, service, SoundContainer(attempt, service), SoundPoll(attempt, deadline).images)
  {
    assert attempt.serviceImages[service] in attempt.serviceImages.Values;
    assert {Docker.DeploymentId, Docker.ExecutionAttemptId} <= Docker.LABEL_KEYS;
    assert {Docker.FencingEpoch, Docker.IntentHash} <= Docker.LABEL_KEYS;
  }

  lemma GoodContainersFulfil(attempt: SupervisorAttempt, poll: Docker.Poll, deadline: int)
    requires poll.Answered? && poll.observedAt < deadline && poll.judgedAt < deadline
    requires poll.http && poll.database && poll.worker && poll.migration == attempt.migrationRevision
    requires attempt.serviceImages != map[]
    requires var containers := Docker.Observe(attempt, poll.listing, poll.details).containers;
      && containers.Keys == attempt.serviceImages.Keys
      && forall s <- containers.Keys :: Good(attempt, s, containers[s], poll.images)
    ensures Docker.Fulfils(attempt, poll, deadline)
  {
    var containers := Docker.Observe(attempt, poll.listing, poll.details).containers;
    assert containers != map[];
    assert forall s <- containers.Keys :: Good(attempt, s, containers[s], poll.images);
    Docker.ObservesExactly(attempt, poll.listing, poll.details);
  }

  lemma SoundHostFulfils(attempt: SupervisorAttempt, deadline: int)
    requires attempt.serviceImages != map[] && Docker.Approved(attempt.serviceImages.Keys)
    ensures Docker.Fulfils(attempt, SoundPoll(attempt, deadline), deadline)
  {
    var poll := SoundPoll(attempt, deadline);
    SoundInspected(attempt, deadline);
    var containers := Docker.Observe(attempt, poll.listing, poll.details).containers;
    forall s <- containers.Keys ensures Good(attempt, s, containers[s], poll.images) {
      SoundContainerIsGood(attempt, s, deadline);
    }
    GoodContainersFulfil(attempt, poll, deadline);
  }

  lemma SoundHostPasses(attempt: SupervisorAttempt, deadline: int)
    requires attempt.serviceImages != map[] && Docker.Approved(attempt.serviceImages.Keys)
    ensures Polled(attempt, SoundCycle(attempt, deadline), deadline)
    ensures Passes(attempt, SoundCycle(attempt, deadline), deadline)
  {
    var services, cycle := attempt.serviceImages.Keys, SoundCycle(attempt, deadline);
    RequiredExactly(services);
    SoundHostFulfils(attempt, deadline);
    assert Docker.Keyed(services, cycle.checks);
    assert Docker.FromPoll(attempt, SoundPoll(attempt, deadline), deadline, cycle);
    Docker.PassesExactly(attempt, SoundPoll(attempt, deadline), deadline, cycle);
  }

  // ---------------------------------------------------------------- runs with Docker, from the start

  lemma {:induction false} UnseeingIsDocker(rules: Rules, s: System, ls: seq<Label>)
    requires Run(rules, s, ls).Some? && Unseeing(ls)
    ensures DockerRun(rules, s, ls)
  {
    if ls != [] {
      var n := |ls| - 1;
      assert forall i :: 0 <= i < n ==> ls[..n][i] == ls[i];
      UnseeingIsDocker(rules, s, ls[..n]);
    }
  }

  /** Some run with the Docker runtime leads from start to s. */
  ghost predicate Reaches(start: System, s: System) {
    exists ls :: DockerRun(ANYTHING, start, ls) && Run(ANYTHING, start, ls) == Some(s)
  }

  ghost function Reachable(start: System): System -> bool {
    (s: System) => Reaches(start, s)
  }

  lemma ReachableClosed(start: System)
    ensures Closed(Reachable(start))
  {
    forall s, l | Reaches(start, s) && DockerMay(s, l) ensures Reaches(start, Next(s, l)) {
      var ls :| DockerRun(ANYTHING, start, ls) && Run(ANYTHING, start, ls) == Some(s);
      RunStep(ANYTHING, start, ls, l);
      assert (ls + [l])[..|ls|] == ls;
      assert DockerRun(ANYTHING, start, ls + [l]);
    }
  }

  /** Some run with the Docker runtime is about to return HEALTHY. */
  ghost predicate MayReturnHealthy(start: System) {
    exists s, p :: Reaches(start, s) && 0 <= p < |s.procs| && s.procs[p] == Return(State(Healthy))
  }

  lemma SoundHostReachesPass(reach: System -> bool, s: System) returns (t: System, pass: Pass)
    requires Closed(reach) && reach(s) && AtSubmit(s)
    requires s.attempt.serviceImages != map[] && Docker.Approved(s.attempt.serviceImages.Keys)
    ensures reach(t) && Clear(t, WriteHealthVerdict(Some(pass)))
  {
    var u := ReachesCompletion(reach, s);
    var v, deadline := ReachesVerification(reach, u);
    SoundHostPasses(s.attempt, deadline);
    t := ReachesPass(reach, v, deadline, SoundCycle(s.attempt, deadline));
    pass := Pass(SoundCycle(s.attempt, deadline), deadline);
  }

  lemma ReachesSubmit(attempt: SupervisorAttempt, processes: nat, now: int) returns (s: System)
    requires processes > 0
    ensures Reaches(Init(attempt, processes, now), s) && AtSubmit(s) && s.attempt == attempt
  {
    var start := Init(attempt, processes, now);
    var ls := FirstExecuteSubmits(ANYTHING, attempt, processes, now);
    UnseeingIsDocker(ANYTHING, start, ls);
    AttemptFixed(ANYTHING, start, ls);
    s := Run(ANYTHING, start, ls).value;
  }

  lemma SoundHostReturnsHealthy(attempt: SupervisorAttempt, processes: nat, now: int)
    requires processes > 0 && attempt.serviceImages != map[] && Docker.Approved(attempt.serviceImages.Keys)
    ensures MayReturnHealthy(Init(attempt, processes, now))
  {
    var start := Init(attempt, processes, now);
    ReachableClosed(start);
    var s := ReachesSubmit(attempt, processes, now);
    var t, pass := SoundHostReachesPass(Reachable(start), s);
    t := ReachesHealthy(Reachable(start), t, pass);
    assert Reaches(start, t) && t.procs[0] == Return(State(Healthy));
  }

  lemma HealthyIsApproved(attempt: SupervisorAttempt, processes: nat, now: int)
    requires MayReturnHealthy(Init(attempt, processes, now))
    ensures attempt.serviceImages != map[] && Docker.Approved(attempt.serviceImages.Keys)
  {
    var start := Init(attempt, processes, now);
    var s, p :| Reaches(start, s) && 0 <= p < |s.procs| && s.procs[p] == Return(State(Healthy));
    var ls :| DockerRun(ANYTHING, start, ls) && Run(ANYTHING, start, ls) == Some(s);
    var pass, poll := HealthyMeansBoundContainers(ANYTHING, attempt, processes, now, ls, p);
    MeetsExactly(attempt, pass.cycle, pass.deadline);
    Docker.PassesExactly(attempt, poll, pass.deadline, pass.cycle);
  }

  /** HEALTHY can be had, and exactly by attempts that name some services and only approved ones: with Docker some run
      from every start comes to return it if and only if that is so. */
  lemma HealthyReachableExactly(attempt: SupervisorAttempt, processes: nat, now: int)
    requires processes > 0
    ensures MayReturnHealthy(Init(attempt, processes, now))
       <==> attempt.serviceImages != map[] && Docker.Approved(attempt.serviceImages.Keys)
  {
    if attempt.serviceImages != map[] && Docker.Approved(attempt.serviceImages.Keys) {
      SoundHostReturnsHealthy(attempt, processes, now);
    }
    if MayReturnHealthy(Init(attempt, processes, now)) {
      HealthyIsApproved(attempt, processes, now);
    }
  }
}
