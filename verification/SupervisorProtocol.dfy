/** The production supervisor as a labelled state machine: processes that contend for the host lock
    and run execute, reconcile or prove_quiescent_takeover for one attempt, with every durable effect
    a separate step and an environment that may answer anything, raise, or stop the process. */
module SupervisorProtocol {
  import opened Wrappers
  import opened HealthContract
  import opened Journal

  datatype Op = Execute | Reconcile | Takeover

  datatype Source = MutationSource | HealthSource | ReconciliationSource

  /** The fields of a RuntimeSnapshot that the supervisor reads; the fingerprint stands for
      stable_fingerprint(). */
  datatype Snapshot = Snapshot(state: RuntimeState, clientActive: bool, transitional: bool, fingerprint: int)

  datatype Verdict = State(state: RuntimeState) | Quiescent(safe: bool)

  datatype Outcome = Returned(verdict: Verdict) | Raised(code: string)

  /** Where a process stands: the next effect it will perform. */
  datatype Pc =
    | Idle
    | Loading(op: Op)
    | CheckMarker
    | WriteAccepted
    | ValidatePlan
    | CollectResources
    | RecordResource
    | RecordMarker
    | WriteSubmitted
    | Submit
    | WriteMutationFailed
    | WriteCompleted
    | WriteReconStarted
    | Observe
    | WriteReconResult(seen: RuntimeState)
    | WriteHealthStarted
    | LoadAnchor
    | WriteAnchorMissing
    | VerifyHealth(deadline: int)
    | WriteHealthError
    | WriteHealthVerdict(pass: Option<Pass>)
    | WriteTerminal(state: RuntimeState, source: Source)
    | RecordResult(state: RuntimeState, source: Source)
    | WriteDbDisconnected
    | WriteTakeoverStarted
    | ObserveFirst
    | ObserveSecond(first: Snapshot)
    | WriteTakeoverResult(safe: bool, seen: RuntimeState)
    | Return(verdict: Verdict)
    | Raising(code: string)

  /** A health cycle that passed, with the deadline it was polled under. */
  datatype Pass = Pass(cycle: HealthCycle, deadline: int)

  /** What the environment answers to the effect a process is at. */
  datatype Answer =
    | Wrote(write: Write)         // the journal append returned
    | DiedWriting(write: Write)   // the append raised, or the process stopped inside it
    | Ok                          // the call returned
    | Raise                       // the call raised before it had an effect
    | CommittedThenRaised         // the row was committed and the call raised all the same
    | DockerRefused               // submit raised docker_mutation_failed
    | Saw(view: Snapshot, events: bool)
    | Polled(cycle: HealthCycle)

  datatype Label =
    | Begin(p: nat, op: Op)
    | Act(p: nat, answer: Answer)
    | Crash(p: nat)
    | Tick(seconds: nat)
    | LoseJournal

  datatype System = System(
    attempt: SupervisorAttempt,
    journal: File,
    resourceRows: nat,                       // resource_gate evidence rows with status "passed"
    marker: bool,                            // the mutation_submitted evidence row
    results: set<(Source, RuntimeState)>,    // keys of the supervisor_runtime_result rows
    now: int,
    holder: Option<nat>,                     // who holds the host lock
    procs: seq<Pc>,
    submits: nat,                            // history: calls of runtime.submit
    deadlines: seq<int>,                     // history: deadlines computed by _health_locked
    passes: seq<Pass>,                       // history: cycles journalled as HEALTH_PASSED
    outcomes: seq<Outcome>)                  // history: what the calls returned or raised

  function Init(attempt: SupervisorAttempt, processes: nat, now: int): System {
    System(attempt, EMPTY, 0, false, {}, now, None, seq(processes, _ => Idle), 0, [], [], [])
  }

  // ---------------------------------------------------------------- one effect of one process

  /** The record a writing step appends. */
  function Pending(pc: Pc): Option<(Event, Detail)> {
    match pc
    case WriteAccepted => Some((AttemptAccepted, NoDetail))
    case WriteSubmitted => Some((MutationSubmitted, NoDetail))
    case WriteMutationFailed => Some((MutationFailed, ErrorDetail))
    case WriteCompleted => Some((MutationCompleted, NoDetail))
    case WriteReconStarted => Some((ReconciliationStarted, NoDetail))
    case WriteReconResult(seen) => Some((ReconciliationResult, StateDetail(seen)))
    case WriteHealthStarted => Some((HealthStarted, NoDetail))
    case WriteAnchorMissing => Some((HealthFailed, ErrorDetail))
    case WriteHealthError => Some((HealthFailed, ErrorDetail))
    case WriteHealthVerdict(pass) =>
      Some(if pass.Some? then (HealthPassed, StateDetail(Healthy)) else (HealthFailed, StateDetail(Failed)))
    case WriteTerminal(state, _) => Some((AttemptTerminal, StateDetail(state)))
    case WriteDbDisconnected => Some((DbDisconnected, NoDetail))
    case WriteTakeoverStarted => Some((ReconciliationStarted, NoDetail))
    case WriteTakeoverResult(safe, seen) =>
      Some((ReconciliationResult, StateDetail(if safe then seen else Unknown)))
    case _ => None
  }

  /** Where a process goes once its record is written. */
  function AfterWrite(pc: Pc): (next: Pc)
    requires Pending(pc).Some?
    ensures !next.Idle? && !next.Loading?
  {
    match pc
    case WriteAccepted => ValidatePlan
    case WriteSubmitted => Submit
    case WriteMutationFailed => WriteTerminal(Failed, MutationSource)
    case WriteCompleted => WriteHealthStarted
    case WriteReconStarted => Observe
    case WriteReconResult(seen) =>
      if seen == CompletedHealthUnknown then WriteHealthStarted
      else if seen == Healthy || seen == Failed then WriteTerminal(seen, ReconciliationSource)
      else RecordResult(Unknown, ReconciliationSource)
    case WriteHealthStarted => LoadAnchor
    case WriteAnchorMissing => WriteTerminal(Failed, HealthSource)
    case WriteHealthError => WriteHealthVerdict(None)
    case WriteHealthVerdict(pass) => WriteTerminal(if pass.Some? then Healthy else Failed, HealthSource)
    case WriteTerminal(state, source) => RecordResult(state, source)
    case WriteDbDisconnected => Return(State(Unknown))
    case WriteTakeoverStarted => ObserveFirst
    case WriteTakeoverResult(safe, _) => Return(Quiescent(safe))
  }

  predicate Quiet(view: Snapshot) {
    !view.clientActive && !view.transitional
  }

  predicate SafeTakeover(first: Snapshot, second: Snapshot, events: bool) {
    && Quiet(second)
    && first.fingerprint == second.fingerprint
    && !events
    && second.state in {Healthy, Failed, NotStarted, CompletedHealthUnknown}
  }

  /** The answers a step can get. */
  predicate Fits(pc: Pc, answer: Answer) {
    if Pending(pc).Some? then
      (answer.Wrote? && answer.write != Nothing) || answer.DiedWriting?
    else
      match pc
      case Idle => false
      case Loading(_) => answer in {Ok, Raise}
      case CheckMarker => answer in {Ok, Raise}
      case ValidatePlan => answer in {Ok, Raise}
      case CollectResources => answer in {Ok, Raise}
      case RecordResource => answer in {Ok, Raise, CommittedThenRaised}
      case RecordMarker => answer in {Ok, Raise, CommittedThenRaised}
      case RecordResult(_, _) => answer in {Ok, Raise, CommittedThenRaised}
      case Submit => answer in {Ok, Raise, DockerRefused}
      case Observe => answer.Saw? || answer == Raise
      case ObserveFirst => answer.Saw? || answer == Raise
      case ObserveSecond(_) => answer.Saw? || answer == Raise
      case LoadAnchor => answer == Ok
      case VerifyHealth(_) => answer.Polled? || answer == Raise
      case Return(_) => answer == Ok
      case Raising(_) => answer == Ok
  }

  function Goto(s: System, p: nat, pc: Pc): System
    requires p < |s.procs|
  {
    s.(procs := s.procs[p := pc])
  }

  /** The `with HostExecutionLock` block is left: by returning, by raising, or by a crash. */
  function Leave(s: System, p: nat): System
    requires p < |s.procs|
  {
    s.(procs := s.procs[p := Idle], holder := if s.holder == Some(p) then None else s.holder)
  }

  function Exit(s: System, p: nat, outcome: Outcome): System
    requires p < |s.procs|
  {
    Leave(s, p).(outcomes := s.outcomes + [outcome])
  }

  function ActLoad(s: System, p: nat, op: Op): System
    requires p < |s.procs|
  {
    match Load(s.journal)
    case Failure(code) => Goto(s, p, Raising(code))
    case Success(records) =>
      match op {
        case Reconcile => Goto(s, p, WriteReconStarted)
        case Takeover => Goto(s, p, WriteTakeoverStarted)
        case Execute =>
          if TerminalRecords(records) != [] then
            match TerminalState(records) {
              case Failure(code) => Goto(s, p, Raising(code))
              case Success(state) => Goto(s, p, Return(State(state)))
            }
          else if HasEvent(s.journal.lines, MutationSubmitted) then Goto(s, p, WriteReconStarted)
          else if records == [] then Goto(s, p, CheckMarker)
          else Goto(s, p, WriteAccepted)
      }
  }

  function ActLoadAnchor(s: System, p: nat): System
    requires p < |s.procs|
  {
    match Load(s.journal)
    case Failure(code) => Goto(s, p, Raising(code))
    case Success(records) =>
      match Anchor(records) {
        case None => Goto(s, p, WriteAnchorMissing)
        case Some(completedAt) =>
          var deadline := completedAt + HEALTH_DEADLINE_SECONDS;
          Goto(s, p, VerifyHealth(deadline)).(deadlines := s.deadlines + [deadline])
      }
  }

  function ActWrite(s: System, p: nat, write: Write, died: bool): System
    requires p < |s.procs| && Pending(s.procs[p]).Some? && s.journal.Valid()
  {
    var (event, detail) := Pending(s.procs[p]).value;
    var written := s.(journal := Append(s.journal, Record(event, s.now, detail), write));
    if died then Goto(written, p, Raising("journal_write_failed"))
    else
      var pc := s.procs[p];
      Goto(written, p, AfterWrite(pc)).(
        passes := if pc.WriteHealthVerdict? && pc.pass.Some? then s.passes + [pc.pass.value] else s.passes)
  }

  /** The steps of execute that lead to the mutation and do not write the journal. */
  predicate Preparing(pc: Pc) {
    pc.CheckMarker? || pc.ValidatePlan? || pc.CollectResources? || pc.RecordResource? || pc.RecordMarker? || pc.Submit?
  }

  function ActPrepare(s: System, p: nat, answer: Answer): System
    requires p < |s.procs| && Fits(s.procs[p], answer) && Preparing(s.procs[p])
  {
    match s.procs[p]
    case CheckMarker =>
      if answer == Raise then Goto(s, p, Raising("database"))
      else if s.marker then Goto(s, p, Raising("journal_missing_after_db_submission"))
      else Goto(s, p, WriteAccepted)
    case ValidatePlan =>
      if answer == Raise then Goto(s, p, Raising("plan")) else Goto(s, p, CollectResources)
    case CollectResources =>
      if answer == Raise then Goto(s, p, Raising("resources")) else Goto(s, p, RecordResource)
    case RecordResource =>
      Goto(s, p, if answer == Ok then RecordMarker else WriteDbDisconnected).(
        resourceRows := if answer == Raise then s.resourceRows else s.resourceRows + 1)
    case RecordMarker =>
      Goto(s, p, if answer == Ok then WriteSubmitted else WriteDbDisconnected).(
        marker := s.marker || answer != Raise)
    case Submit =>
      Goto(s, p,
           if answer == Ok then WriteCompleted
           else if answer == DockerRefused then WriteMutationFailed
           else WriteReconStarted).(
        submits := s.submits + 1)
  }

  /** The steps after the mutation, and those of a takeover, that do not write the journal. */
  function ActJudge(s: System, p: nat, answer: Answer): System
    requires p < |s.procs| && Fits(s.procs[p], answer)
    requires Pending(s.procs[p]).None? && !Preparing(s.procs[p]) && !s.procs[p].Loading?
  {
    match s.procs[p]
    case Observe =>
      if answer == Raise then Goto(s, p, Raising("runtime")) else Goto(s, p, WriteReconResult(answer.view.state))
    case LoadAnchor => ActLoadAnchor(s, p)
    case VerifyHealth(deadline) =>
      Goto(s, p,
           if answer == Raise then WriteHealthError
           else if Passes(s.attempt, answer.cycle, deadline) then WriteHealthVerdict(Some(Pass(answer.cycle, deadline)))
           else WriteHealthVerdict(None))
    case RecordResult(state, source) =>
      var key := (source, state);
      if answer == Ok && key !in s.results then
        Goto(s, p, Return(State(state))).(results := s.results + {key})
      else
        Goto(s, p, WriteDbDisconnected).(
          results := if answer == CommittedThenRaised then s.results + {key} else s.results)
    case ObserveFirst =>
      if answer == Raise then Goto(s, p, Raising("runtime"))
      else if Quiet(answer.view) then Goto(s, p, ObserveSecond(answer.view))
      else Goto(s, p, WriteTakeoverResult(false, Unknown))
    case ObserveSecond(first) =>
      if answer == Raise then Goto(s, p, Raising("runtime"))
      else Goto(s, p, WriteTakeoverResult(SafeTakeover(first, answer.view, answer.events), answer.view.state))
    case Return(verdict) => Exit(s, p, Returned(verdict))
    case Raising(code) => Exit(s, p, Raised(code))
  }

  /** What the step of process p does when the environment gives it this answer. */
  function Effect(s: System, p: nat, answer: Answer): System
    requires p < |s.procs| && Fits(s.procs[p], answer) && s.journal.Valid()
  {
    var pc := s.procs[p];
    if Pending(pc).Some? then ActWrite(s, p, answer.write, answer.DiedWriting?)
    else if pc.Loading? then
      if answer == Raise then Goto(s, p, Raising("authority")) else ActLoad(s, p, pc.op)
    else if Preparing(pc) then ActPrepare(s, p, answer)
    else ActJudge(s, p, answer)
  }

  // ---------------------------------------------------------------- steps and runs

  predicate Enabled(s: System, l: Label) {
    && s.journal.Valid()
    && match l
       case Begin(p, _) => p < |s.procs| && s.procs[p].Idle? && s.holder.None?
       case Act(p, answer) => p < |s.procs| && Fits(s.procs[p], answer)
       case Crash(p) => p < |s.procs|
       case Tick(_) => true
       case LoseJournal => forall p :: 0 <= p < |s.procs| ==> s.procs[p].Idle?
  }

  function Next(s: System, l: Label): System
    requires Enabled(s, l)
  {
    match l
    case Begin(p, op) => Goto(s, p, Loading(op)).(holder := Some(p))
    case Act(p, answer) => Effect(s, p, answer)
    case Crash(p) => Leave(s, p)
    case Tick(seconds) => s.(now := s.now + seconds)
    case LoseJournal => s.(journal := EMPTY)
  }

  /** Which labels a family of runs may use. */
  datatype Rules = Rules(
    ops: set<Op>,
    fileLoss: bool,               // the journal file may vanish while no process runs
    shortWrites: bool,            // os.write may return early without the process stopping
    appendToLostJournal: bool,    // reconcile and takeover may go ahead on an empty journal although the marker is set
    reconcileAfterTerminal: bool, // reconcile may go ahead on a journal that already has a terminal record
    observedHealthy: bool)        // observe may report HEALTHY, which the Docker runtime never does

  const ANYTHING := Rules({Execute, Reconcile, Takeover}, true, true, true, true, true)

  predicate Allowed(rules: Rules, s: System, l: Label)
    requires Enabled(s, l)
  {
    match l
    case Begin(_, op) => op in rules.ops
    case LoseJournal => rules.fileLoss
    case Act(p, answer) =>
      && (answer.Wrote? && !rules.shortWrites ==> answer.write == Full)
      && (answer.Saw? && !rules.observedHealthy ==> answer.view.state != Healthy)
      && (s.procs[p].Loading? && s.procs[p].op != Execute && answer == Ok ==>
            && (rules.appendToLostJournal || s.journal.lines != [] || !s.marker)
            && (s.procs[p].op == Reconcile && !rules.reconcileAfterTerminal ==>
                  !HasEvent(s.journal.lines, AttemptTerminal)))
    case _ => true
  }

  /** Where the label sequence ls leads from s, if every label may be taken under the rules. */
  function Run(rules: Rules, s: System, ls: seq<Label>): Option<System> {
    if ls == [] then Some(s)
    else
      match Run(rules, s, ls[..|ls| - 1])
      case None => None
      case Some(before) =>
        var l := ls[|ls| - 1];
        if Enabled(before, l) && Allowed(rules, before, l) then Some(Next(before, l)) else None
  }
}
