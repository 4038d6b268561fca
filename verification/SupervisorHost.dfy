/** The supervisor's methods as the source runs them: straight-line effects on the journal file, the evidence
    rows and the host lock, errors propagated with `:-`. Every call is shown to be a path of the protocol. */
module SupervisorHost {
  import opened Wrappers
  import opened HealthContract
  import opened Journal
  import opened SupervisorProtocol
  import opened SupervisorSafety
  import Plans = PlanValidation
  import Gates = ResourceGates

  /** Histories in which anything may have happened that these operations and file losses allow. */
  predicate Lenient(rules: Rules) {
    rules == ANYTHING.(ops := rules.ops, fileLoss := rules.fileLoss)
  }

  /** The journal file was never lost, or only execute was ever called. */
  predicate Protected(rules: Rules) {
    !rules.fileLoss || rules.ops == {Execute}
  }

  /** Disk, database and kernel as process `me` finds them, after any interleaving of other calls. */
  class Host {
    const me: nat
    const attempt: SupervisorAttempt
    var file: File
    var resourceRows: nat
    var marker: bool
    var results: set<(Source, RuntimeState)>
    var now: int
    var holder: Option<nat>
    var submits: nat
    ghost const rules: Rules          // what the history may hold
    ghost const origin: System
    ghost var trace: seq<Label>
    ghost var system: System
    ghost var at: Pc                  // where this process stands in the protocol
    ghost var past: set<seq<Label>>   // the traces there have been so far

    /** The host as process `me` finds it when `system` is what the run `trace` of other calls led to. */
    constructor (
      me: nat, system: System, ghost rules: Rules, ghost processes: nat, ghost start: int, ghost trace: seq<Label>)
      requires me < |system.procs| && Lenient(rules)
      requires Run(rules, Init(system.attempt, processes, start), trace) == Some(system)
      ensures Valid() && this.me == me && at == system.procs[me] && this.system == system && this.trace == trace
      ensures this.rules == rules
    {
      this.me, attempt := me, system.attempt;
      file, resourceRows, marker, results := system.journal, system.resourceRows, system.marker, system.results;
      now, holder, submits := system.now, system.holder, system.submits;
      this.rules, origin := rules, Init(system.attempt, processes, start);
      this.trace, this.system := trace, system;
      at, past := system.procs[me], {trace};
      new;
      ExclusiveRun(rules, origin, trace);
    }

    ghost predicate Valid()
      reads this
    {
      && (exists processes: nat, start: int :: origin == Init(attempt, processes, start))
      && Lenient(rules) && Run(rules, origin, trace) == Some(system)
      && me < |system.procs| && system.procs[me] == at
      && Same(system)
      && trace in past && (forall t <- past :: t <= trace)
      && file.Valid()
      && system.attempt == attempt
    }

    ghost predicate Same(s: System)
      reads this
    {
      && s.journal == file && s.resourceRows == resourceRows && s.marker == marker && s.results == results
      && s.now == now && s.holder == holder && s.submits == submits
    }

    /** Every trace there had been is still a prefix of the present one. */
    twostate predicate Continues()
      reads this
    {
      old(past) <= past
    }

    /** Rows, marker and submissions are as they were. */
    twostate predicate Spares()
      reads this
    {
      resourceRows == old(resourceRows) && marker == old(marker) && submits == old(submits)
    }

    /** Book-keeping: the effect just carried out on the fields is this label of the protocol. */
    ghost method Note(l: Label)
      requires Lenient(rules) && Run(rules, origin, trace) == Some(system) && me < |system.procs|
      requires exists processes: nat, start: int :: origin == Init(attempt, processes, start)
      requires system.attempt == attempt
      requires trace in past && forall t <- past :: t <= trace
      requires Enabled(system, l) && Allowed(rules, system, l) && (l.Act? ==> l.p == me) && !l.Crash?
      requires Same(Next(system, l))
      modifies this`trace, this`system, this`at, this`past
      ensures Valid()
      ensures trace == old(trace) + [l] && system == Next(old(system), l) && Continues()
    {
      if l.Act? {
        EffectFrame(system, me, l.answer);
      }
      RunStep(rules, origin, trace, l);
      system := Next(system, l);
      trace := trace + [l];
      past := past + {trace};
      at := system.procs[me];
    }

    /** A step that reads and decides, and changes nothing durable. */
    ghost method Decide(answer: Answer)
      requires Valid() && Fits(at, answer) && Same(Effect(system, me, answer))
      modifies this`trace, this`system, this`at, this`past
      ensures Valid() && Continues()
      ensures system == Effect(old(system), me, answer)
    {
      Note(Act(me, answer));
    }

    /** Only the holder is inside a call. */
    lemma IsExclusive()
      requires Valid()
      ensures Exclusive(system)
    {
      ExclusiveRun(rules, origin, trace);
    }

    /** Unless the file was lost and reconcile or takeover could write into what was left. */
    lemma AtMostOnce()
      requires Valid() && Protected(rules)
      ensures submits <= 1
    {
      var processes: nat, start: int :| origin == Init(attempt, processes, start);
      if rules.fileLoss {
        AtMostOneMutationDespiteFileLoss(rules, attempt, processes, start, trace);
      } else {
        AtMostOneMutationWithoutFileLoss(rules, attempt, processes, start, trace);
      }
    }

    ghost predicate LastOutcome(outcome: Outcome)
      reads this
    {
      system.outcomes != [] && system.outcomes[|system.outcomes| - 1] == outcome
    }

    method Elapse()
      requires Valid()
      modifies this`now, this`trace, this`system, this`at, this`past
      ensures Valid() && Continues() && at == old(at)
      ensures system == old(system).(now := now) && old(now) <= now
    {
      var seconds: nat := *;
      now := now + seconds;
      Note(Tick(seconds));
    }
  }

  /** Where an operation goes after a successful load. */
  ghost function Loaded(op: Op, file: File, records: seq<Record>): Pc {
    match op
    case Reconcile => WriteReconStarted
    case Takeover => WriteTakeoverStarted
    case Execute =>
      if TerminalRecords(records) != [] then
        var state := TerminalState(records);
        if state.Success? then Return(State(state.value)) else Raising(state.error)
      else if HasEvent(file.lines, MutationSubmitted) then WriteReconStarted
      else if records == [] then CheckMarker
      else WriteAccepted
  }

  /** The deadline that _health_locked reads off the journal, if there is an anchor for it. */
  function DeadlineOf(file: File): Result<Option<int>, string> {
    match Load(file)
    case Failure(code) => Failure(code)
    case Success(records) =>
      var anchor := Anchor(records);
      Success(if anchor == None then None else Some(anchor.value + HEALTH_DEADLINE_SECONDS))
  }

  lemma AnchorStep(s: System, p: nat)
    requires p < |s.procs| && s.procs[p].LoadAnchor? && s.journal.Valid()
    ensures var t := Effect(s, p, Ok);
      && t == s.(procs := s.procs[p := t.procs[p]], deadlines := t.deadlines)
      && t.procs[p] == match DeadlineOf(s.journal) {
           case Failure(code) => Raising(code)
           case Success(deadline) => if deadline == None then WriteAnchorMissing else VerifyHealth(deadline.value)
         }
  {
    assert Effect(s, p, Ok) == ActLoadAnchor(s, p);
  }

  lemma LoadStep(s: System, p: nat, op: Op)
    requires p < |s.procs| && s.procs[p] == Loading(op) && s.journal.Valid()
    ensures Effect(s, p, Ok) == Goto(s, p, match Load(s.journal)
      case Failure(code) => Raising(code)
      case Success(records) => Loaded(op, s.journal, records))
  {
    assert Effect(s, p, Ok) == ActLoad(s, p, op);
  }

  lemma ResultStep(rules: Rules, s: System, p: nat, answer: Answer)
    requires p < |s.procs| && s.procs[p].RecordResult? && s.journal.Valid() && Lenient(rules)
    requires answer == Ok || answer == Raise || answer == CommittedThenRaised
    ensures Fits(s.procs[p], answer) && Enabled(s, Act(p, answer)) && Allowed(rules, s, Act(p, answer))
    ensures var pc := s.procs[p];
      var key := (pc.source, pc.state);
      Next(s, Act(p, answer)) ==
        Goto(s, p, if answer == Ok && key !in s.results then Return(State(pc.state)) else WriteDbDisconnected).(
          results := if answer == Raise then s.results else s.results + {key})
  {
    var pc := s.procs[p];
    assert Effect(s, p, answer) == ActJudge(s, p, answer);
    if (pc.source, pc.state) in s.results {
      assert s.results + {(pc.source, pc.state)} == s.results;
    }
  }

  class DurableExecutionJournal {
    const host: Host

    constructor (host: Host)
      ensures this.host == host
    {
      this.host := host;
    }

    /** Appends one record. However much of the write reached the disk, the file only grows by it. */
    method Append(event: Event, detail: Detail) returns (r: Result<(), string>)
      requires host.Valid() && Pending(host.at) == Some((event, detail))
      modifies host
      ensures host.Valid() && host.Continues() && host.Spares()
      ensures exists write :: host.file == Journal.Append(old(host.file), Record(event, host.now, detail), write)
                              && (r.Success? ==> write != Nothing)
      ensures host.at == if r.Success? then AfterWrite(old(host.at)) else Raising("journal_write_failed")
      ensures r.Failure? ==> r.error == "journal_write_failed"
    {
      host.Elapse();
      var write: Write := *;
      var died: bool := *;
      died := died || write == Nothing;
      host.file := Journal.Append(host.file, Record(event, host.now, detail), write);
      host.Note(Act(host.me, if died then DiedWriting(write) else Wrote(write)));
      r := if died then Failure("journal_write_failed") else Success(());
    }

    method Load() returns (r: Result<seq<Record>, string>)
      ensures r == Journal.Load(host.file)
    {
      r := Journal.Load(host.file);
    }

    /** The reload inside _health_locked, and the deadline it yields. */
    method LoadDeadline() returns (r: Result<Option<int>, string>)
      requires host.Valid() && host.at.LoadAnchor?
      modifies host
      ensures host.Valid() && host.Continues() && host.Spares() && host.file == old(host.file)
      ensures host.at ==
        if r.Failure? then Raising(r.error)
        else if r.value == None then WriteAnchorMissing
        else VerifyHealth(r.value.value)
    {
      AnchorStep(host.system, host.me);
      host.Decide(Ok);
      r := DeadlineOf(host.file);
    }
  }

  class HostExecutionLock {
    const host: Host
    var fd: Option<nat>

    constructor (host: Host)
      ensures this.host == host && fd == None
    {
      this.host := host;
      fd := None;
    }

    method Enter(ghost op: Op) returns (r: Result<(), string>)
      requires host.Valid() && host.at.Idle? && fd == None && op in host.rules.ops
      modifies host, this
      ensures host.Valid() && host.Continues() && host.Spares()
      ensures r.Success? <==> old(host.holder) == None
      ensures host.file == old(host.file)
      ensures r.Success? ==> fd != None && host.holder == Some(host.me) && host.at == Loading(op)
      ensures r.Failure? ==>
        r.error == "host_execution_lock_busy" && fd == None && host.trace == old(host.trace) && host.at.Idle?
    {
      var descriptor: nat := *;
      fd := Some(descriptor);
      if host.holder != None {
        fd := None;
        return Failure("host_execution_lock_busy");
      }
      host.holder := Some(host.me);
      host.Note(Begin(host.me, op));
      r := Success(());
    }

    method Exit()
      requires host.Valid() && fd != None && (host.at.Return? || host.at.Raising?)
      modifies host, this
      ensures host.Valid() && host.Continues() && host.Spares()
      ensures fd == None && host.holder == None && host.at.Idle?
      ensures host.LastOutcome(
        if old(host.at).Return? then Returned(old(host.at).verdict) else Raised(old(host.at).code))
    {
      host.IsExclusive();
      ghost var outcome := if host.at.Return? then Returned(host.at.verdict) else Raised(host.at.code);
      assert Effect(host.system, host.me, Ok) == SupervisorProtocol.Exit(host.system, host.me, outcome);
      host.holder := None;
      fd := None;
      host.Note(Act(host.me, Ok));
    }
  }

  /** The rows of the attempt in PostgreSQL; any call may fail, before or after its commit. */
  class AttemptAuthority {
    const host: Host

    constructor (host: Host)
      ensures this.host == host
    {
      this.host := host;
    }

    /** authority.load and journal.load, which every operation starts with. */
    method LoadAttempt(journal: DurableExecutionJournal) returns (r: Result<seq<Record>, string>)
      requires host.Valid() && host.at.Loading? && journal.host == host
      modifies host
      ensures host.Valid() && host.Continues() && host.Spares() && host.file == old(host.file)
      ensures r.Success? ==> Journal.Load(host.file) == r
      ensures r.Failure? ==> host.at == Raising(r.error)
      ensures r.Success? ==> host.at == Loaded(old(host.at).op, host.file, r.value)
    {
      var available: bool := *;
      if !available {
        host.Decide(Raise);
        return Failure("authority");
      }
      LoadStep(host.system, host.me, host.at.op);
      host.Decide(Ok);
      r := journal.Load();
    }

    method RecordResource() returns (r: Result<(), string>)
      requires host.Valid() && host.at.RecordResource?
      modifies host
      ensures host.Valid() && host.Continues()
      ensures r.Success? ==> host.resourceRows == old(host.resourceRows) + 1
      ensures host.at == if r.Success? then RecordMarker else WriteDbDisconnected
    {
      var answer: Answer := *;
      answer := if answer == Raise || answer == CommittedThenRaised then answer else Ok;
      if answer != Raise {
        host.resourceRows := host.resourceRows + 1;
      }
      host.Note(Act(host.me, answer));
      r := if answer == Ok then Success(()) else Failure("database");
    }

    method RecordMutationSubmitted() returns (r: Result<(), string>)
      requires host.Valid() && host.at.RecordMarker?
      modifies host
      ensures host.Valid() && host.Continues()
      ensures r.Success? ==> host.marker
      ensures host.at == if r.Success? then WriteSubmitted else WriteDbDisconnected
    {
      var answer: Answer := *;
      answer := if answer == Raise || answer == CommittedThenRaised then answer else Ok;
      if answer != Raise && !host.marker {
        host.marker := true;
      }
      host.Note(Act(host.me, answer));
      r := if answer == Ok then Success(()) else Failure("database");
    }

    method MutationSubmitted() returns (r: Result<bool, string>)
      requires host.Valid() && host.at.CheckMarker?
      modifies host
      ensures host.Valid() && host.Continues() && host.Spares()
      ensures r.Success? ==> r.value == old(host.marker)
      ensures host.at ==
        if r.Failure? then Raising(r.error)
        else if r.value then Raising("journal_missing_after_db_submission")
        else WriteAccepted
    {
      var available: bool := *;
      r := if available then Success(host.marker) else Failure("database");
      host.Decide(if available then Ok else Raise);
    }

    method RecordRuntimeResult(state: RuntimeState, source: Source) returns (r: Result<(), string>)
      requires host.Valid() && host.at == RecordResult(state, source)
      modifies host
      ensures host.Valid() && host.Continues() && host.Spares()
      ensures r.Success? ==> (source, state) !in old(host.results) && (source, state) in host.results
      ensures host.at == if r.Success? then Return(State(state)) else WriteDbDisconnected
    {
      var answer: Answer := *;
      answer := if answer == Raise || answer == CommittedThenRaised then answer else Ok;
      var key := (source, state);
      r := if answer == Ok && key !in host.results then Success(()) else Failure("database");
      if answer != Raise {
        host.results := host.results + {key};
      }
      ResultStep(host.rules, host.system, host.me, answer);
      host.Note(Act(host.me, answer));
    }
  }

  /** Docker and the resource collector: any answer, or an error. What compose resolves and what the collector measures
      is not known before the call, but it is what the plan and the window are judged by. */
  class SupervisorRuntime {
    const host: Host
    const compose: Plans.Compose
    const window: Gates.Window

    constructor (host: Host)
      ensures this.host == host
    {
      var compose: Plans.Compose := *;
      var window: Gates.Window := *;
      this.host, this.compose, this.window := host, compose, window;
    }

    /** Plan and window let a mutation go ahead. */
    predicate Accepts()
      reads host
    {
      Plans.ValidatePlan(host.attempt, compose).Success? && Gates.Gate(window).Success?
    }

    method ValidatePlan() returns (r: Result<(), string>)
      requires host.Valid() && host.at.ValidatePlan?
      modifies host
      ensures host.Valid() && host.Continues() && host.Spares()
      ensures r.Success? <==> Plans.ValidatePlan(host.attempt, compose).Success?
      ensures host.at == if r.Success? then CollectResources else Raising(r.error)
    {
      var valid := Plans.ValidatePlan(host.attempt, compose);
      host.Decide(if valid.Success? then Ok else Raise);
      r := if valid.Success? then Success(()) else Failure("plan");
    }

    /** collect, and require_fresh on what it gave. */
    method CollectFreshResources() returns (r: Result<(), string>)
      requires host.Valid() && host.at.CollectResources?
      modifies host
      ensures host.Valid() && host.Continues() && host.Spares()
      ensures r.Success? <==> Gates.Gate(window).Success?
      ensures host.at == if r.Success? then RecordResource else Raising(r.error)
    {
      var usable := Gates.Gate(window);
      host.Decide(if usable.Success? then Ok else Raise);
      r := if usable.Success? then Success(()) else Failure("resources");
    }

    method Submit() returns (r: Result<(), string>)
      requires host.Valid() && host.at.Submit?
      modifies host
      ensures host.Valid() && host.Continues()
      ensures host.submits == old(host.submits) + 1
      ensures host.at ==
        if r.Success? then WriteCompleted
        else if r.error == "docker_mutation_failed" then WriteMutationFailed
        else WriteReconStarted
    {
      var answer: Answer := *;
      answer := if answer == Raise || answer == DockerRefused then answer else Ok;
      host.submits := host.submits + 1;
      host.Note(Act(host.me, answer));
      r := if answer == Ok then Success(())
      else Failure(if answer == DockerRefused then "docker_mutation_failed" else "lost");
    }

    method Observe() returns (r: Result<RuntimeState, string>)
      requires host.Valid() && host.at.Observe?
      modifies host
      ensures host.Valid() && host.Continues() && host.Spares()
      ensures host.at == if r.Success? then WriteReconResult(r.value) else Raising(r.error)
    {
      var answered: bool := *;
      var view: Snapshot := *;
      host.Decide(if answered then Saw(view, false) else Raise);
      r := if answered then Success(view.state) else Failure("runtime");
    }

    method ObserveFirst() returns (r: Result<Snapshot, string>)
      requires host.Valid() && host.at.ObserveFirst?
      modifies host
      ensures host.Valid() && host.Continues() && host.Spares()
      ensures host.at ==
        if r.Failure? then Raising(r.error)
        else if Quiet(r.value) then ObserveSecond(r.value)
        else WriteTakeoverResult(false, Unknown)
    {
      var answered: bool := *;
      var view: Snapshot := *;
      host.Decide(if answered then Saw(view, false) else Raise);
      r := if answered then Success(view) else Failure("runtime");
    }

    /** The second observation and, only where the source asks for them, the events in between. */
    method ObserveAgain(first: Snapshot) returns (r: Result<(RuntimeState, bool), string>)
      requires host.Valid() && host.at == ObserveSecond(first)
      modifies host
      ensures host.Valid() && host.Continues() && host.Spares()
      ensures host.at == if r.Success? then WriteTakeoverResult(r.value.1, r.value.0) else Raising(r.error)
    {
      host.Elapse();
      var answered: bool := *;
      var second: Snapshot := *;
      var events := false;
      if answered && Quiet(second) && first.fingerprint == second.fingerprint {
        answered := *;
        events := *;
      }
      host.Decide(if answered then Saw(second, events) else Raise);
      r := if answered then Success((second.state, SafeTakeover(first, second, events))) else Failure("runtime");
    }

    /** verify_health, and whether the supervisor accepts the cycle it returned. */
    method VerifyHealth(deadline: int) returns (passed: Option<bool>)
      requires host.Valid() && host.at == Pc.VerifyHealth(deadline)
      modifies host
      ensures host.Valid() && host.Continues() && host.Spares()
      ensures passed == None ==> host.at == WriteHealthError
      ensures passed != None ==> host.at.WriteHealthVerdict? && host.at.pass.Some? == passed.value
    {
      var answered: bool := *;
      var cycle: HealthCycle := *;
      host.Decide(if answered then Polled(cycle) else Raise);
      passed := if answered then Some(Passes(host.attempt, cycle, deadline)) else None;
    }
  }

  /** What the caller of a finished call has seen. */
  function Reported(r: Result<RuntimeState, string>): Outcome {
    match r
    case Success(state) => Returned(State(state))
    case Failure(code) => Raised(code)
  }

  class ProductionDeploymentSupervisor {
    const host: Host
    const journal: DurableExecutionJournal
    const authority: AttemptAuthority
    const runtime: SupervisorRuntime
    const hostLock: HostExecutionLock

    ghost predicate Wired() {
      journal.host == host && authority.host == host && runtime.host == host && hostLock.host == host
    }

    constructor (host: Host)
      ensures Wired() && this.host == host && fresh(hostLock) && hostLock.fd == None
    {
      this.host := host;
      journal := new DurableExecutionJournal(host);
      authority := new AttemptAuthority(host);
      runtime := new SupervisorRuntime(host);
      hostLock := new HostExecutionLock(host);
    }

    /** A call in progress ends the way the protocol says: at Return with its value, or at Raising. */
    ghost predicate Ends(r: Result<RuntimeState, string>)
      reads host
    {
      host.at == if r.Success? then Return(State(r.value)) else Raising(r.error)
    }

    method RecordResultOrUnknown(state: RuntimeState, source: Source) returns (r: Result<RuntimeState, string>)
      requires Wired() && host.Valid() && host.at == RecordResult(state, source)
      modifies host
      ensures host.Valid() && host.Continues() && host.Spares() && Ends(r)
      ensures r.Success? ==> r.value == state || r.value == Unknown
    {
      var recorded := authority.RecordRuntimeResult(state, source);
      if recorded.Failure? {
        var _ :- journal.Append(DbDisconnected, NoDetail);
        return Success(Unknown);
      }
      r := Success(state);
    }

    method Conclude(state: RuntimeState, source: Source) returns (r: Result<RuntimeState, string>)
      requires Wired() && host.Valid() && host.at == WriteTerminal(state, source)
      modifies host
      ensures host.Valid() && host.Continues() && host.Spares() && Ends(r)
    {
      var _ :- journal.Append(AttemptTerminal, StateDetail(state));
      r := RecordResultOrUnknown(state, source);
    }

    method RecordVerdict(passed: bool) returns (r: Result<RuntimeState, string>)
      requires Wired() && host.Valid() && host.at.WriteHealthVerdict? && host.at.pass.Some? == passed
      modifies host
      ensures host.Valid() && host.Continues() && host.Spares() && Ends(r)
    {
      var state := if passed then Healthy else Failed;
      var _ :- journal.Append(if passed then HealthPassed else HealthFailed, StateDetail(state));
      r := Conclude(state, HealthSource);
    }

    method PollHealth(deadline: int) returns (r: Result<RuntimeState, string>)
      requires Wired() && host.Valid() && host.at == Pc.VerifyHealth(deadline)
      modifies host
      ensures host.Valid() && host.Continues() && host.Spares() && Ends(r)
    {
      var passed := runtime.VerifyHealth(deadline);
      if passed == None {
        var _ :- journal.Append(HealthFailed, ErrorDetail);
        r := RecordVerdict(false);
      } else {
        r := RecordVerdict(passed.value);
      }
    }

    method ConcludeUnanchored() returns (r: Result<RuntimeState, string>)
      requires Wired() && host.Valid() && host.at.WriteAnchorMissing?
      modifies host
      ensures host.Valid() && host.Continues() && host.Spares() && Ends(r)
    {
      var _ :- journal.Append(HealthFailed, ErrorDetail);
      r := Conclude(Failed, HealthSource);
    }

    method HealthLocked() returns (r: Result<RuntimeState, string>)
      requires Wired() && host.Valid() && host.at.WriteHealthStarted?
      modifies host
      ensures host.Valid() && host.Continues() && host.Spares() && Ends(r)
    {
      var _ :- journal.Append(HealthStarted, NoDetail);
      var deadline :- journal.LoadDeadline();
      if deadline == None {
        r := ConcludeUnanchored();
      } else {
        r := PollHealth(deadline.value);
      }
    }

    /** What _reconcile_locked does with the observed state. */
    method Settle(seen: RuntimeState) returns (r: Result<RuntimeState, string>)
      requires Wired() && host.Valid() && host.at == WriteReconResult(seen)
      modifies host
      ensures host.Valid() && host.Continues() && host.Spares() && Ends(r)
    {
      var _ :- journal.Append(ReconciliationResult, StateDetail(seen));
      if seen == CompletedHealthUnknown {
        r := HealthLocked();
      } else if seen == Healthy || seen == Failed {
        r := Conclude(seen, ReconciliationSource);
      } else {
        r := RecordResultOrUnknown(Unknown, ReconciliationSource);
      }
    }

    method ReconcileLocked() returns (r: Result<RuntimeState, string>)
      requires Wired() && host.Valid() && host.at.WriteReconStarted?
      modifies host
      ensures host.Valid() && host.Continues() && host.Spares() && Ends(r)
    {
      var _ :- journal.Append(ReconciliationStarted, NoDetail);
      var seen :- runtime.Observe();
      r := Settle(seen);
    }

    method SubmitOnce() returns (r: Result<RuntimeState, string>)
      requires Wired() && host.Valid() && host.at.Submit?
      modifies host
      ensures host.Valid() && host.Continues() && Ends(r)
    {
      var submitted := runtime.Submit();
      if submitted.Success? {
        var _ :- journal.Append(MutationCompleted, NoDetail);
        r := HealthLocked();
      } else if submitted.error == "docker_mutation_failed" {
        var _ :- journal.Append(MutationFailed, ErrorDetail);
        r := Conclude(Failed, MutationSource);
      } else {
        r := ReconcileLocked();
      }
    }

    method Disconnected() returns (r: Result<RuntimeState, string>)
      requires Wired() && host.Valid() && host.at.WriteDbDisconnected?
      modifies host
      ensures host.Valid() && host.Continues() && host.Spares() && Ends(r)
    {
      var _ :- journal.Append(DbDisconnected, NoDetail);
      r := Success(Unknown);
    }

    /** The database is told before the journal, and the journal before Docker. */
    method MarkAndSubmit() returns (r: Result<RuntimeState, string>)
      requires Wired() && host.Valid() && host.at.RecordResource?
      modifies host
      ensures host.Valid() && host.Continues() && Ends(r)
    {
      var recorded := authority.RecordResource();
      if recorded.Failure? {
        r := Disconnected();
        return;
      }
      var marked := authority.RecordMutationSubmitted();
      if marked.Failure? {
        r := Disconnected();
        return;
      }
      var _ :- journal.Append(MutationSubmitted, NoDetail);
      r := SubmitOnce();
    }

    /** execute, once the journal calls for a mutation. */
    method Mutate() returns (r: Result<RuntimeState, string>)
      requires Wired() && host.Valid() && host.at.WriteAccepted?
      modifies host
      ensures host.Valid() && host.Continues() && Ends(r)
      ensures !runtime.Accepts() ==> r.Failure? && host.Spares()
    {
      var _ :- journal.Append(AttemptAccepted, NoDetail);
      var _ :- runtime.ValidatePlan();
      var _ :- runtime.CollectFreshResources();
      r := MarkAndSubmit();
    }

    method ExecuteLocked() returns (r: Result<RuntimeState, string>)
      requires Wired() && host.Valid() && host.at == Loading(Op.Execute)
      modifies host
      ensures host.Valid() && host.Continues() && Ends(r)
      ensures !runtime.Accepts() ==> host.Spares()
      ensures !runtime.Accepts() && OpenJournal(old(host.file)) ==> r.Failure?
    {
      var prior :- authority.LoadAttempt(journal);
      TerminalRecordsShow(host.file);
      if TerminalRecords(prior) != [] {
        r := TerminalState(prior);
      } else if HasEvent(host.file.lines, MutationSubmitted) {
        r := ReconcileLocked();
      } else {
        if prior == [] {
          var submitted :- authority.MutationSubmitted();
          if submitted {
            return Failure("journal_missing_after_db_submission");
          }
        }
        r := Mutate();
      }
    }

    /** execute: whatever other calls did before, the whole history holds at most one mutation; the call
        leaves the lock free and reports exactly what it returned or raised. If the plan or the window of resources
        is not acceptable, no row is stored, no marker set and nothing submitted, and a call that would have come
        to the mutation fails. */
    method Execute() returns (r: Result<RuntimeState, string>)
      requires Wired() && host.Valid() && host.at.Idle? && hostLock.fd == None
      requires Op.Execute in host.rules.ops
      modifies host, hostLock
      ensures host.Valid() && host.Continues() && host.at.Idle? && hostLock.fd == None
      ensures Protected(host.rules) ==> host.submits <= 1
      ensures old(host.holder) != None ==> r == Failure("host_execution_lock_busy") && host.trace == old(host.trace)
      ensures old(host.holder) == None ==> host.holder == None && host.LastOutcome(Reported(r))
      ensures !runtime.Accepts() ==> host.Spares()
      ensures !runtime.Accepts() && OpenJournal(old(host.file)) ==> r.Failure?
    {
      var entered := hostLock.Enter(Op.Execute);
      if entered.Success? {
        r := ExecuteLocked();
        hostLock.Exit();
      } else {
        r := Failure(entered.error);
      }
      if Protected(host.rules) {
        host.AtMostOnce();
      }
    }

    /** reconcile: the same guarantee, and an existing terminal record is not consulted. */
    method Reconcile() returns (r: Result<RuntimeState, string>)
      requires Wired() && host.Valid() && host.at.Idle? && hostLock.fd == None
      requires Op.Reconcile in host.rules.ops
      modifies host, hostLock
      ensures host.Valid() && host.Continues() && host.Spares() && host.at.Idle? && hostLock.fd == None
      ensures Protected(host.rules) ==> host.submits <= 1
      ensures old(host.holder) != None ==> r == Failure("host_execution_lock_busy") && host.trace == old(host.trace)
      ensures old(host.holder) == None ==> host.holder == None && host.LastOutcome(Reported(r))
    {
      var entered := hostLock.Enter(Op.Reconcile);
      if entered.Success? {
        var loaded := authority.LoadAttempt(journal);
        if loaded.Success? {
          r := ReconcileLocked();
        } else {
          r := Failure(loaded.error);
        }
        hostLock.Exit();
      } else {
        r := Failure(entered.error);
      }
      if Protected(host.rules) {
        host.AtMostOnce();
      }
    }

    /** Journals the takeover verdict and returns it. */
    method ReportTakeover(safe: bool, seen: RuntimeState) returns (r: Result<bool, string>)
      requires Wired() && host.Valid() && host.at == WriteTakeoverResult(safe, seen)
      modifies host
      ensures host.Valid() && host.Continues() && host.Spares()
      ensures host.at == if r.Success? then Return(Quiescent(r.value)) else Raising(r.error)
      ensures r.Success? ==> r.value == safe
    {
      var _ :- journal.Append(ReconciliationResult, StateDetail(if safe then seen else Unknown));
      r := Success(safe);
    }

    method ObserveTwice() returns (r: Result<bool, string>)
      requires Wired() && host.Valid() && host.at.WriteTakeoverStarted?
      modifies host
      ensures host.Valid() && host.Continues() && host.Spares()
      ensures host.at == if r.Success? then Return(Quiescent(r.value)) else Raising(r.error)
    {
      var _ :- journal.Append(ReconciliationStarted, NoDetail);
      var first :- runtime.ObserveFirst();
      if first.clientActive || first.transitional {
        r := ReportTakeover(false, Unknown);
      } else {
        var second :- runtime.ObserveAgain(first);
        r := ReportTakeover(second.1, second.0);
      }
    }

    /** prove_quiescent_takeover. */
    method ProveQuiescentTakeover() returns (r: Result<bool, string>)
      requires Wired() && host.Valid() && host.at.Idle? && hostLock.fd == None
      requires Op.Takeover in host.rules.ops
      modifies host, hostLock
      ensures host.Valid() && host.Continues() && host.Spares() && host.at.Idle? && hostLock.fd == None
      ensures Protected(host.rules) ==> host.submits <= 1
      ensures old(host.holder) != None ==> r == Failure("host_execution_lock_busy") && host.trace == old(host.trace)
      ensures old(host.holder) == None ==>
        host.holder == None
        && host.LastOutcome(if r.Success? then Returned(Quiescent(r.value)) else Raised(r.error))
    {
      var entered := hostLock.Enter(Op.Takeover);
      if entered.Success? {
        var loaded := authority.LoadAttempt(journal);
        if loaded.Success? {
          r := ObserveTwice();
        } else {
          r := Failure(loaded.error);
        }
        hostLock.Exit();
      } else {
        r := Failure(entered.error);
      }
      if Protected(host.rules) {
        host.AtMostOnce();
      }
    }
  }

  /** One call of the command line tool: at any moment that other calls and file losses have led to, process `me` builds
      a supervisor and executes. Either the lock is busy and nothing happened, or the call ran to its end. In the whole
      history there is at most one mutation, unless it holds both a file loss and another operation than execute. */
  method ExecuteAttempt(
    me: nat, system: System, ghost rules: Rules, ghost processes: nat, ghost start: int, ghost trace: seq<Label>)
    returns (r: Result<RuntimeState, string>, host: Host)
    requires me < |system.procs| && system.procs[me].Idle? && Lenient(rules) && Execute in rules.ops
    requires Run(rules, Init(system.attempt, processes, start), trace) == Some(system)
    ensures host.Valid() && host.at.Idle? && trace <= host.trace
    ensures Protected(rules) ==> host.submits <= 1
    ensures system.holder.Some? ==> r == Failure("host_execution_lock_busy") && host.trace == trace
    ensures system.holder.None? ==> host.holder.None? && host.LastOutcome(Reported(r))
  {
    host := new Host(me, system, rules, processes, start, trace);
    var supervisor := new ProductionDeploymentSupervisor(host);
    r := supervisor.Execute();
  }

  /** The very first call on a new attempt meets no other call and no record. */
  method ExecuteNewAttempt(attempt: SupervisorAttempt, now: int) returns (r: Result<RuntimeState, string>, host: Host)
    ensures host.Valid() && host.holder.None? && host.submits <= 1 && host.LastOutcome(Reported(r))
  {
    var system := Init(attempt, 1, now);
    ghost var rules := ANYTHING.(fileLoss := false);
    assert Run(rules, system, []) == Some(system);
    r, host := ExecuteAttempt(0, system, rules, 1, now, []);
  }
}
